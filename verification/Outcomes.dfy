/** What a run of inference leaves for each builder of the configuration, in the configuration's own
    terms: the report, aggregator or inline builder as it is written there. */
module Outcomes {
  import opened Wrappers
  import opened Configuration
  import opened Dependencies
  import opened Resolution
  import opened Schemas
  import opened Inference
  import opened InferenceSteps
  import FieldTypes
  import opened FieldPaths

  // ------------------------------------------------------------------------
  // Numbers in names

  predicate IsDigit(c: char) { '0' <= c <= '9' }

  function NumberOf(s: string): nat
    requires forall i | 0 <= i < |s| :: IsDigit(s[i])
  {
    if s == [] then 0
    else
      assert IsDigit(s[|s| - 1]);
      NumberOf(Front(s)) * 10 + (Last(s) - '0') as nat
  }

  /** `s` is written in digits, without a leading zero. */
  predicate IsNumeral(s: string) {
    s != "" && (forall i | 0 <= i < |s| :: IsDigit(s[i])) && (|s| > 1 ==> s[0] != '0')
  }

  lemma DigitOf(d: nat)
    requires d < 10
    ensures
      var c := "0123456789"[d];
      IsDigit(c) && (c - '0') as nat == d && (c == '0' <==> d == 0)
  {
  }

  /** The digits of a number are a numeral that reads as the number. */
  lemma {:induction false} DigitsRead(n: nat)
    ensures IsNumeral(Digits(n)) && NumberOf(Digits(n)) == n
    ensures n > 0 ==> Digits(n)[0] != '0'
  {
    DigitOf(n % 10);
    if n >= 10 {
      DigitsRead(n / 10);
      assert Front(Digits(n)) == Digits(n / 10);
    } else {
      assert Front(Digits(n)) == [];
    }
  }

  // ------------------------------------------------------------------------
  // What the configuration says of a builder

  predicate AssignsInline(raw: seq<RawAssign>, assigns: seq<FieldAssign>) {
    |assigns| == |raw| && forall k | 0 <= k < |raw| ::
      raw[k].index.Some? && assigns[k] == FieldAssign(raw[k].name, NoAggregation, raw[k].index.value)
  }

  /** The builder `e`, with its name, the type it is given and its assignments, stands in the
      configuration. */
  predicate Says(config: MetricsConfig, e: Entity, name: string, given: string, assigns: seq<FieldAssign>) {
    match e
    case OnReport(k) => k < |config.reports| && config.reports[k] == Report(name, given, assigns)
    case OnSource(s) =>
      s == name && exists k | 0 <= k < |config.sources| ::
        LastNamed(config.sources, s, k) && config.sources[k] == Aggregator(name, given, assigns)
    case OnBuilder(i) =>
      && i < |config.nodes| && config.nodes[i].RawBuilder? && config.nodes[i].messageType == given
      && AssignsInline(config.nodes[i].assigns, assigns)
      && |name| > 14 && name[..14] == "MsgBuilderNode" && IsNumeral(name[14..]) && NumberOf(name[14..]) == i
  }

  lemma {:induction false} SourceSaid(config: MetricsConfig, s: string)
    ensures match SourceNamed(config.sources, s)
      case None => forall k | 0 <= k < |config.sources| :: !LastNamed(config.sources, s, k)
      case Some(source) =>
        forall k | 0 <= k < |config.sources| && LastNamed(config.sources, s, k) :: config.sources[k] == source
  {
    NamesLast(config.sources, s);
    forall k | 0 <= k < |config.sources| && LastNamed(config.sources, s, k)
      ensures SourceNamed(config.sources, s) == Some(config.sources[k]) {
      var found := SourceNamed(config.sources, s);
      assert found.Some?;
      var j: nat :| LastNamed(config.sources, s, j) && config.sources[j] == found.value;
      assert j == k;
    }
  }

  /** The name, type and assignments that inference takes for a builder are those it is written with. */
  lemma {:induction false} TakesWhatIsSaid(config: MetricsConfig, e: Entity)
    requires Assigned(config) && IsEntity(config, e)
    ensures Says(config, e, NameOf(config, e), Preset(config, e), AssignsOf(config, e))
  {
    match e
    case OnReport(_) =>
    case OnSource(s) =>
      NamesLast(config.sources, s);
      var source := SourceNamed(config.sources, s).value;
      var k: nat :| LastNamed(config.sources, s, k) && config.sources[k] == source;
    case OnBuilder(i) =>
      DigitsRead(i);
      var name := NameOf(config, e);
      assert name[..14] == "MsgBuilderNode" && name[14..] == Digits(i);
  }

  /** Nothing but a report, an aggregator or an inline builder is taken for one. */
  lemma {:induction false} SaidIsTaken(config: MetricsConfig, e: Entity, name: string, given: string,
                                       assigns: seq<FieldAssign>)
    requires Assigned(config) && Says(config, e, name, given, assigns)
    ensures IsEntity(config, e) && NameOf(config, e) == name && Preset(config, e) == given
    ensures AssignsOf(config, e) == assigns
  {
    match e
    case OnReport(_) =>
    case OnSource(s) =>
      SourceSaid(config, s);
      NamesLast(config.sources, s);
    case OnBuilder(i) =>
      DigitsRead(i);
      NumeralIs(name[14..], Digits(i));
      assert name == name[..14] + name[14..];
  }

  /** Numerals of the same number are the same. */
  lemma {:induction false} NumeralIs(a: string, b: string)
    requires IsNumeral(a) && IsNumeral(b) && NumberOf(a) == NumberOf(b)
    ensures a == b
    decreases |a|
  {
    var x, y := NumberOf(Front(a)), NumberOf(Front(b));
    SameTens(x, (Last(a) - '0') as nat, y, (Last(b) - '0') as nat);
    assert Last(a) == Last(b);
    assert a == Front(a) + [Last(a)] && b == Front(b) + [Last(b)];
    if |a| > 1 && |b| > 1 {
      assert Front(a)[0] == a[0] && Front(b)[0] == b[0];
      NumeralIs(Front(a), Front(b));
    } else if |a| > 1 {
      NumeralIsPositive(Front(a));
    } else if |b| > 1 {
      NumeralIsPositive(Front(b));
    }
  }

  lemma SameTens(x: nat, d: nat, y: nat, e: nat)
    requires x * 10 + d == y * 10 + e && d < 10 && e < 10
    ensures x == y && d == e
  {
  }

  lemma {:induction false} NumeralIsPositive(s: string)
    requires s != "" && (forall i | 0 <= i < |s| :: IsDigit(s[i])) && s[0] != '0'
    ensures NumberOf(s) > 0
  {
    if |s| > 1 {
      NumeralIsPositive(Front(s));
    }
  }

  // ------------------------------------------------------------------------
  // What a run leaves for it

  const PACKAGE := "aaos.sdv.telemetry.adhoc."

  /** A type is written by its name if it is in the output, and as `Any` if it is not. */
  ghost function WrittenName(seen: Snapshot, ty: TypeDesc): string {
    if || !ty.kind.MessageKind? || "google.protobuf." <= ty.typeName || ty.typeName in seen.referenced
       || exists d | d in seen.adhoc :: ty.typeName == PACKAGE + d.name
    then ty.typeName
    else "google.protobuf.Any"
  }

  /** `ty` is the type of a field: fixed by some aggregations, or else that of its expression. */
  ghost predicate WrittenAs(now: Snapshot, seen: Snapshot, fa: FieldAssign, ty: TypeDesc)
    requires Resolvable(now.config.nodes) && IndexOk(now.config.nodes, fa)
  {
    match fa.aggregation
    case Count => ty == TypeDesc(Int32Kind, "", false)
    case Avg => ty == TypeDesc(DoubleKind, "", false)
    case StdDev => ty == TypeDesc(DoubleKind, "", false)
    case _ =>
      var r := Resolve(EnvOf(now), now.config.nodes, fa.index);
      && r.Ok? && ty.kind == r.value.kind && ty.typeName == WrittenName(seen, r.value)
      && if fa.aggregation.Vector? then ty.repeated && !r.value.repeated else ty.repeated == r.value.repeated
  }

  lemma {:induction false} OutputTypeWritten(seen: Snapshot, ty: TypeDesc)
    ensures FieldTypes.OutputType(seen, ty) == TypeDesc(ty.kind, WrittenName(seen, ty), ty.repeated)
  {
    InOutput(seen.adhoc, seen.referenced, ty.typeName);
  }

  /** What is in the output: well-known messages, referenced ones, and the ad-hoc ones. */
  lemma {:induction false} InOutput(adhoc: seq<Descriptor>, referenced: set<string>, name: string)
    ensures IsTypeInOutput(adhoc, referenced, name)
       <==> "google.protobuf." <= name || name in referenced || exists d | d in adhoc :: name == PACKAGE + d.name
  {
    forall d | d in adhoc ensures Qualified(d.name) == PACKAGE + d.name {
      PackageName(d.name);
    }
  }

  lemma {:induction false} InferredIsWritten(now: Snapshot, seen: Snapshot, fa: FieldAssign, ty: TypeDesc)
    requires Resolvable(now.config.nodes) && IndexOk(now.config.nodes, fa)
    ensures FieldTypes.InferredType(now, seen, fa) == Some(ty) <==> WrittenAs(now, seen, fa, ty)
  {
    if ReadsType(fa) {
      var r := Resolve(EnvOf(now), now.config.nodes, fa.index);
      if r.Ok? {
        OutputTypeWritten(seen, r.value);
      }
    }
  }

  /** The fields of a message are those of the ad-hoc message of that name, or else the supplied ones. */
  lemma {:induction false} FieldsKnown(s: Snapshot, m: string)
    requires Registry(s.adhoc)
    ensures forall d | d in s.adhoc && m == PACKAGE + d.name :: EnvOf(s).fieldsOf(m) == Some(d.fields)
    ensures (forall d | d in s.adhoc :: m != PACKAGE + d.name) ==>
              EnvOf(s).fieldsOf(m) == if m in s.resolver.messages then Some(s.resolver.messages[m].fields) else None
  {
    forall d | d in s.adhoc ensures Qualified(d.name) == PACKAGE + d.name {
      PackageName(d.name);
    }
    var found := FindAdhocMessage(s.adhoc, m);
    forall d | d in s.adhoc && m == PACKAGE + d.name ensures found == Some(d) {
      QualifiedInjective(d.name, found.value.name);
      SameName(s.adhoc, d, found.value);
    }
  }

  lemma SameName(adhoc: seq<Descriptor>, a: Descriptor, b: Descriptor)
    requires Registry(adhoc) && a in adhoc && b in adhoc && a.name == b.name
    ensures a == b
  {
  }

  /** `d` is the message of the assignments, with the types their expressions have. */
  ghost predicate IsMessageOf(now: Snapshot, seen: Snapshot, assigns: seq<FieldAssign>, d: Descriptor)
    requires Resolvable(now.config.nodes) && Inference.InRange(now.config, assigns)
  {
    && |d.fields| == |assigns|
    && forall k | 0 <= k < |assigns| ::
         && d.fields[k].name == assigns[k].fieldName && d.fields[k].number == k + 1
         && WrittenAs(now, seen, assigns[k], d.fields[k].ty)
  }

  lemma {:induction false} MessageWritten(now: Snapshot, seen: Snapshot, assigns: seq<FieldAssign>, d: Descriptor)
    requires Resolvable(now.config.nodes) && Inference.InRange(now.config, assigns)
    requires Describes(d.fields, assigns) && FieldTypes.HaveTypes(now, seen, assigns, d.fields)
    ensures IsMessageOf(now, seen, assigns, d)
  {
    forall k | 0 <= k < |assigns| ensures WrittenAs(now, seen, assigns[k], d.fields[k].ty) {
      InferredIsWritten(now, seen, assigns[k], d.fields[k].ty);
    }
  }

  /** A given type is kept, and is in the output if it was supplied; if not, that is the builder's one error. */
  ghost predicate GivenIsKept(now: Snapshot, failures: seq<Failure>, e: Entity, given: string) {
    && TypeOf(now.types, e) == given
    && (given !in now.resolver.messages ==> Failure(e, [MessageTypeNotFound(given)]) in failures)
    && (given in now.resolver.messages ==>
          && (forall f | f in failures :: f.entity != e)
          && (|| "google.protobuf." <= given || given in now.referenced
              || exists d | d in now.adhoc :: given == PACKAGE + d.name))
  }

  lemma PackageName(name: string)
    ensures Qualified(name) == PACKAGE + name
  {
    assert ADHOC + "." == PACKAGE;
    Assoc(ADHOC, ".", name);
  }

  /** A builder with a given type keeps it; a builder without one fails, or has the message of its
      assignments, registered in the ad-hoc package. */
  lemma {:induction false} RunSays(o: Outcome, seen: seq<Snapshot>, order: seq<Entity>, j: nat, name: string,
                                   given: string, assigns: seq<FieldAssign>)
    requires WellIndexed(o.state.now.config) && AllEntities(o.state.now.config, order)
    requires |seen| == |order| && SameRun(o.state.now, seen) && Inferred(o, seen, order)
    requires j < |order| && Says(o.state.now.config, order[j], name, given, assigns)
    ensures Inference.InRange(o.state.now.config, assigns)
    ensures given != "" ==> GivenIsKept(o.state.now, o.failures, order[j], given)
    ensures given == "" ==>
      if TypeOf(o.state.now.types, order[j]) == "" then exists f | f in o.failures :: f.entity == order[j]
      else exists d | d in o.state.now.adhoc ::
        && TypeOf(o.state.now.types, order[j]) == PACKAGE + d.name
        && IsMessageOf(o.state.now, seen[j], assigns, d)
  {
    var now, e := o.state.now, order[j];
    SaidIsTaken(now.config, e, name, given, assigns);
    assert Judged(now, o.failures, seen[j], e);
    if given != "" {
      KeepsGiven(o, seen, order, j);
    } else if TypeOf(now.types, e) == "" {
      assert Failure(e, ErrorsOf(seen[j], e)) in o.failures;
    } else {
      var d :| d in now.adhoc && TypeOf(now.types, e) == Qualified(d.name) && Describes(d.fields, assigns)
        && FieldTypes.HaveTypes(now, seen[j], assigns, d.fields);
      PackageName(d.name);
      MessageWritten(now, seen[j], assigns, d);
    }
  }

  lemma {:induction false} KeepsGiven(o: Outcome, seen: seq<Snapshot>, order: seq<Entity>, j: nat)
    requires WellIndexed(o.state.now.config) && AllEntities(o.state.now.config, order)
    requires |seen| == |order| && SameRun(o.state.now, seen) && Inferred(o, seen, order)
    requires j < |order| && Preset(o.state.now.config, order[j]) != ""
    ensures GivenIsKept(o.state.now, o.failures, order[j], Preset(o.state.now.config, order[j]))
  {
    var now, e := o.state.now, order[j];
    var given := Preset(now.config, e);
    assert Judged(now, o.failures, seen[j], e);
    if given in now.resolver.messages {
      assert e in Builders(order) && Supplied(now.config, now.resolver, e);
      InOutput(now.adhoc, now.referenced, given);
      forall f | f in o.failures ensures f.entity != e {
        NoFailure(o.failures, ErrorsOf(seen[j], e), e, f);
      }
    }
  }

  lemma NoFailure(failures: seq<Failure>, errs: seq<InferError>, e: Entity, f: Failure)
    requires Failure(e, errs) !in failures && f in failures
    requires forall g | g in failures && g.entity == e :: g.errors == errs
    ensures f.entity != e
  {
    assert f.entity == e ==> f == Failure(e, errs);
  }

  /** Every registered message is named after a builder of the run. */
  lemma {:induction false} MessagesAreNamed(o: Outcome, seen: seq<Snapshot>, order: seq<Entity>, d: Descriptor)
    requires WellIndexed(o.state.now.config) && AllEntities(o.state.now.config, order)
    requires |seen| == |order| && SameRun(o.state.now, seen) && Inferred(o, seen, order) && d in o.state.now.adhoc
    ensures exists e, given, assigns :: e in order && Says(o.state.now.config, e, d.name, given, assigns)
  {
    var config := o.state.now.config;
    var e :| e in Builders(order) && IsEntity(config, e) && NameOf(config, e) == d.name;
    TakesWhatIsSaid(config, e);
    assert e in order && Says(config, e, d.name, Preset(config, e), AssignsOf(config, e));
  }
}
