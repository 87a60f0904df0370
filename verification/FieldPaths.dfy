/** What following a path of field names through messages finds, or where it fails, told step by
    step; and which message a source has. */
module FieldPaths {
  import opened Wrappers
  import opened Trees
  import opened Configuration
  import opened Dependencies
  import opened Resolution
  import opened Schemas

  // ------------------------------------------------------------------------
  // One field

  /** The field at `k` is the first one called `name`. */
  predicate FirstNamed(fields: seq<Field>, name: string, k: nat) {
    k < |fields| && fields[k].name == name && forall j | 0 <= j < k :: fields[j].name != name
  }

  lemma {:induction false} FindsFirst(fields: seq<Field>, name: string, f: Field)
    ensures FindField(fields, name) == Some(f) <==> exists k: nat :: FirstNamed(fields, name, k) && fields[k] == f
    ensures FindField(fields, name).None? <==> forall k | 0 <= k < |fields| :: fields[k].name != name
  {
    if fields != [] {
      var rest := fields[1..];
      FindsFirst(rest, name, f);
      if fields[0].name == name {
        assert FirstNamed(fields, name, 0);
      } else {
        forall k: nat ensures FirstNamed(rest, name, k) <==> FirstNamed(fields, name, k + 1) {
          if FirstNamed(rest, name, k) {
            forall j | 0 <= j < k + 1 ensures fields[j].name != name {
              assert j > 0 ==> rest[j - 1] == fields[j];
            }
          }
          if FirstNamed(fields, name, k + 1) {
            forall j | 0 <= j < k ensures rest[j].name != name {
              assert rest[j] == fields[j + 1];
            }
          }
        }
        if k: nat :| FirstNamed(fields, name, k) && fields[k] == f {
          assert FirstNamed(rest, name, k - 1) && rest[k - 1] == f;
        }
        if k: nat :| FirstNamed(rest, name, k) && rest[k] == f {
          assert FirstNamed(fields, name, k + 1) && fields[k + 1] == f;
        }
      }
    }
  }

  /** `f` is the field `name` of message `msg`. */
  ghost predicate HasField(env: Env, msg: string, name: string, f: Field) {
    env.fieldsOf(msg).Some? && exists k: nat :: FirstNamed(env.fieldsOf(msg).value, name, k)
                                           && env.fieldsOf(msg).value[k] == f
  }

  predicate LacksField(env: Env, msg: string, name: string) {
    env.fieldsOf(msg).Some? && forall f | f in env.fieldsOf(msg).value :: f.name != name
  }

  /** A field is found if the message has one of that name: the first of them. */
  lemma {:induction false} FieldInJustWhen(env: Env, msg: string, name: string, f: Field)
    ensures FieldIn(env, msg, name) == Ok(f) <==> HasField(env, msg, name, f)
    ensures FieldIn(env, msg, name) == Err(FieldNotFound(msg, name)) <==> LacksField(env, msg, name)
    ensures FieldIn(env, msg, name) == Err(MessageNotFound(msg)) <==> env.fieldsOf(msg).None?
  {
    if env.fieldsOf(msg).Some? {
      FindsFirst(env.fieldsOf(msg).value, name, f);
    }
  }

  // ------------------------------------------------------------------------
  // Paths

  /** `names[j]` leads from message `a` on to message `b`. */
  ghost predicate LeadsInto(env: Env, a: string, name: string, b: string) {
    exists f :: HasField(env, a, name, f) && f.ty == TypeDesc(MessageKind, b, false)
  }

  /** The messages that the first names lead through, from `msg` on. */
  ghost predicate IsWalk(env: Env, msg: string, names: seq<string>, ms: seq<string>) {
    && 0 < |ms| <= |names| && ms[0] == msg
    && forall j | 0 <= j < |ms| - 1 :: LeadsInto(env, ms[j], names[j], ms[j + 1])
  }

  /** The walk reaches the last message, which has a field of type `ty` under the last name. */
  ghost predicate Arrives(env: Env, msg: string, names: seq<string>, ms: seq<string>, ty: TypeDesc) {
    && IsWalk(env, msg, names, ms) && |ms| == |names|
    && exists f :: HasField(env, Last(ms), Last(names), f) && f.ty == ty
  }

  /** Why the field `names[k]` of message `m` is not to be had, or does not lead on. */
  ghost predicate Blocks(env: Env, m: string, names: seq<string>, k: nat, e: ResolveError)
    requires k < |names|
  {
    || (e == MessageNotFound(m) && env.fieldsOf(m).None?)
    || (e == FieldNotFound(m, names[k]) && LacksField(env, m, names[k]))
    || (k + 1 < |names| && exists f :: HasField(env, m, names[k], f) && BlocksNext(f.ty, names[k + 1], e))
  }

  predicate BlocksNext(ty: TypeDesc, next: string, e: ResolveError) {
    if !ty.kind.MessageKind? then e == NestedInNonMessage(next) else ty.repeated && e == NestedInRepeated(next)
  }

  ghost predicate Fails(env: Env, msg: string, names: seq<string>, ms: seq<string>, e: ResolveError) {
    IsWalk(env, msg, names, ms) && Blocks(env, Last(ms), names, |ms| - 1, e)
  }

  lemma {:induction false} WalkFrom(env: Env, msg: string, names: seq<string>, next: string, ms: seq<string>)
    requires |names| > 1 && LeadsInto(env, msg, names[0], next) && IsWalk(env, next, names[1..], ms)
    ensures IsWalk(env, msg, names, [msg] + ms)
  {
    var all := [msg] + ms;
    forall j | 0 <= j < |all| - 1 ensures LeadsInto(env, all[j], names[j], all[j + 1]) {
      if j > 0 {
        assert LeadsInto(env, ms[j - 1], names[1..][j - 1], ms[j]);
      }
    }
  }

  lemma {:induction false} WalkOn(env: Env, msg: string, names: seq<string>, ms: seq<string>)
    requires IsWalk(env, msg, names, ms) && |ms| > 1
    ensures LeadsInto(env, msg, names[0], ms[1]) && IsWalk(env, ms[1], names[1..], ms[1..])
  {
    assert LeadsInto(env, ms[0], names[0], ms[0 + 1]);
    var rest := ms[1..];
    forall j | 0 <= j < |rest| - 1 ensures LeadsInto(env, rest[j], names[1..][j], rest[j + 1]) {
      assert LeadsInto(env, ms[j + 1], names[j + 1], ms[j + 1 + 1]);
    }
  }

  /** The steps that `FieldPath` takes. */
  lemma {:induction false} PathWalks(env: Env, msg: string, names: seq<string>) returns (ms: seq<string>)
    requires names != []
    ensures
      match FieldPath(env, msg, names)
      case Ok(ty) => Arrives(env, msg, names, ms, ty)
      case Err(e) => Fails(env, msg, names, ms, e)
    decreases |names|
  {
    var r := FieldIn(env, msg, names[0]);
    ms := [msg];
    var some: Field := if r.Ok? then r.value else Field("", 0, Scalar(BoolKind));
    FieldInJustWhen(env, msg, names[0], some);
    if r.Ok? && |names| > 1 && r.value.ty.kind.MessageKind? && !r.value.ty.repeated {
      var next := r.value.ty.typeName;
      var rest := PathWalks(env, next, names[1..]);
      assert LeadsInto(env, msg, names[0], next);
      WalkFrom(env, msg, names, next, rest);
      ms := [msg] + rest;
      PathOutcome(env, msg, names, next, rest);
    }
  }

  lemma {:induction false} PathOutcome(env: Env, msg: string, names: seq<string>, next: string, rest: seq<string>)
    requires |names| > 1 && IsWalk(env, next, names[1..], rest) && IsWalk(env, msg, names, [msg] + rest)
    ensures forall ty :: Arrives(env, next, names[1..], rest, ty) ==> Arrives(env, msg, names, [msg] + rest, ty)
    ensures forall e :: Fails(env, next, names[1..], rest, e) ==> Fails(env, msg, names, [msg] + rest, e)
  {
    assert Last([msg] + rest) == Last(rest) && Last(names[1..]) == Last(names);
    assert names[1..][|rest| - 1] == names[|rest|];
    if |rest| + 1 < |names| {
      assert names[1..][|rest|] == names[|rest| + 1];
    }
  }

  /** There is one field of a name. */
  lemma {:induction false} FieldUnique(env: Env, msg: string, name: string, f: Field, g: Field)
    requires HasField(env, msg, name, f) && HasField(env, msg, name, g)
    ensures f == g
  {
    FieldInJustWhen(env, msg, name, f);
    FieldInJustWhen(env, msg, name, g);
  }

  lemma {:induction false} WalkedPath(env: Env, msg: string, names: seq<string>, ms: seq<string>)
    requires IsWalk(env, msg, names, ms)
    ensures FieldPath(env, msg, names) == FieldPath(env, Last(ms), names[|ms| - 1..])
    decreases |ms|
  {
    if |ms| > 1 {
      WalkOn(env, msg, names, ms);
      var f :| HasField(env, msg, names[0], f) && f.ty == TypeDesc(MessageKind, ms[1], false);
      FieldInJustWhen(env, msg, names[0], f);
      WalkedPath(env, ms[1], names[1..], ms[1..]);
      assert names[1..][|ms| - 2..] == names[|ms| - 1..];
      assert FieldPath(env, msg, names) == FieldPath(env, ms[1], names[1..]);
    }
  }

  /** A path has the type of the field it arrives at, if every field before that is a single message
      that has the next one. */
  lemma {:induction false} PathJustWhen(env: Env, msg: string, names: seq<string>, ty: TypeDesc)
    requires names != []
    ensures FieldPath(env, msg, names) == Ok(ty) <==> exists ms :: Arrives(env, msg, names, ms, ty)
  {
    var walked := PathWalks(env, msg, names);
    if ms :| Arrives(env, msg, names, ms, ty) {
      WalkedPath(env, msg, names, ms);
      assert names[|ms| - 1..] == [Last(names)];
      var f :| HasField(env, Last(ms), Last(names), f) && f.ty == ty;
      FieldInJustWhen(env, Last(ms), Last(names), f);
    }
  }

  /** It fails where the walk is blocked, for that reason. */
  lemma {:induction false} PathFailsJustWhen(env: Env, msg: string, names: seq<string>, e: ResolveError)
    requires names != []
    ensures FieldPath(env, msg, names) == Err(e) <==> exists ms :: Fails(env, msg, names, ms, e)
  {
    var walked := PathWalks(env, msg, names);
    if ms :| Fails(env, msg, names, ms, e) {
      WalkedPath(env, msg, names, ms);
      BlockedPath(env, Last(ms), names[|ms| - 1..], names, |ms| - 1, e);
    }
  }

  lemma {:induction false} BlockedPath(env: Env, m: string, rest: seq<string>, names: seq<string>, k: nat,
                                       e: ResolveError)
    requires k < |names| && rest == names[k..] && Blocks(env, m, names, k, e)
    ensures FieldPath(env, m, rest) == Err(e)
  {
    assert rest[0] == names[k];
    var none := Field("", 0, Scalar(BoolKind));
    FieldInJustWhen(env, m, names[k], none);
    if k + 1 < |names| {
      assert rest[1] == names[k + 1];
      if f :| HasField(env, m, names[k], f) && BlocksNext(f.ty, names[k + 1], e) {
        FieldInJustWhen(env, m, names[k], f);
      }
    }
  }

  /** A path without fields is the message itself. */
  lemma EmptyPath(env: Env, msg: string)
    ensures FieldPath(env, msg, []) == Ok(TypeDesc(MessageKind, msg, false))
  {
  }

  // ------------------------------------------------------------------------
  // The message of a source

  /** The source at `k` is the last one called `name`. */
  predicate LastNamed(sources: seq<Source>, name: string, k: nat) {
    k < |sources| && sources[k].name == name && forall j | k < j < |sources| :: sources[j].name != name
  }

  lemma {:induction false} NamesLast(sources: seq<Source>, name: string)
    ensures match SourceNamed(sources, name)
      case None => forall j | 0 <= j < |sources| :: sources[j].name != name
      case Some(s) => exists k: nat :: LastNamed(sources, name, k) && sources[k] == s
  {
    if sources != [] {
      if Last(sources).name == name {
        assert LastNamed(sources, name, |sources| - 1);
      } else {
        NamesLast(Front(sources), name);
        var found := SourceNamed(Front(sources), name);
        if found.Some? {
          var k: nat :| LastNamed(Front(sources), name, k) && Front(sources)[k] == found.value;
          assert LastNamed(sources, name, k);
        }
      }
    }
  }

  /** The messages by source: what is known of a data source's identifier, or else the identifier
      itself; the inferred type of an aggregator; none for other sources. The last source of a name
      is the one meant. */
  lemma {:induction false} SourceMessage(s: Snapshot, name: string, k: nat)
    requires LastNamed(s.config.sources, name, k)
    ensures
      var r := EnvOf(s).sourceType(name);
      match s.config.sources[k]
      case DataSource(_, id) =>
        && (id in s.dataTypes ==> r == Ok(s.dataTypes[id]))
        && (id !in s.dataTypes ==> r == Ok(id))
      case Aggregator(_, _, _) =>
        var known := OnSource(name) in s.types && s.types[OnSource(name)] != "";
        && (known ==> r == Ok(s.types[OnSource(name)])) && (!known ==> r == Err(NotInferred(OnSource(name))))
      case OtherSource(_) => r == Err(UnknownSourceKind(name))
  {
    NamesLast(s.config.sources, name);
    var found := SourceNamed(s.config.sources, name);
    assert s.config.sources[k].name == name;
    assert found.Some?;
    var j: nat :| LastNamed(s.config.sources, name, j) && s.config.sources[j] == found.value;
    assert j == k;
  }

  lemma {:induction false} NoSourceMessage(s: Snapshot, name: string)
    requires forall k | 0 <= k < |s.config.sources| :: s.config.sources[k].name != name
    ensures EnvOf(s).sourceType(name) == Err(UnknownSource(name))
  {
    NamesLast(s.config.sources, name);
  }
}
