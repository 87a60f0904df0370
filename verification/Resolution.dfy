/** The type of an expression node, and what it depends on. */
module Resolution {
  import opened Wrappers
  import opened Operators
  import opened Trees
  import opened Configuration
  import opened Dependencies

  datatype Kind =
    | DoubleKind | FloatKind | Int32Kind | Int64Kind | Uint32Kind | Uint64Kind | Sint32Kind | Sint64Kind
    | Fixed32Kind | Fixed64Kind | Sfixed32Kind | Sfixed64Kind | BoolKind | StringKind | BytesKind
    | EnumKind | GroupKind | MessageKind

  /** `typeName` is empty but for messages, groups and enums. */
  datatype TypeDesc = TypeDesc(kind: Kind, typeName: string, repeated: bool)
  datatype Field = Field(name: string, number: nat, ty: TypeDesc)

  datatype ResolveError =
    | NotInferred(entity: Entity)
    | UnknownSource(source: string) | UnknownSourceKind(source: string)
    | BothSourceAndExpression | NeitherSourceNorExpression
    | NoMessage(index: nat) | RepeatedMessage(index: nat)
    | MessageNotFound(message: string) | FieldNotFound(message: string, field: string)
    | NestedInNonMessage(field: string) | NestedInRepeated(field: string)
    | NotNumeric | NotRepeated | SubscriptNotInteger | UnknownNode

  /** What the resolver asks its surroundings: the message type of a source or of an inline
      builder (empty if it has none yet), and the fields of a message. */
  datatype Env = Env(sourceType: string -> Result<string, ResolveError>, builderType: nat -> string,
      fieldsOf: string -> Option<seq<Field>>)

  function Scalar(kind: Kind): TypeDesc { TypeDesc(kind, "", false) }

  predicate IsInt(k: Kind) {
    k.Int32Kind? || k.Int64Kind? || k.Uint32Kind? || k.Uint64Kind? || k.Sint32Kind? || k.Sint64Kind?
    || k.Fixed32Kind? || k.Fixed64Kind? || k.Sfixed32Kind? || k.Sfixed64Kind? || k.EnumKind?
  }

  predicate IsNumeric(k: Kind) { k.DoubleKind? || k.FloatKind? || IsInt(k) }

  function ConstantKind(c: Const): Kind {
    match c
    case BoolConst(_) => BoolKind
    case NumberConst(Int32, _) => Int32Kind
    case NumberConst(Int64, _) => Int64Kind
    case NumberConst(Float, _) => FloatKind
    case NumberConst(Double, _) => DoubleKind
  }

  function FindField(fields: seq<Field>, name: string): Option<Field> {
    if fields == [] then None else if fields[0].name == name then Some(fields[0]) else FindField(fields[1..], name)
  }

  /** One field of a path, inside message `msg`. */
  function FieldIn(env: Env, msg: string, name: string): Result<Field, ResolveError> {
    var fields := env.fieldsOf(msg);
    if fields.None? then Err(MessageNotFound(msg))
    else if FindField(fields.value, name).None? then Err(FieldNotFound(msg, name))
    else Ok(FindField(fields.value, name).value)
  }

  /** The type of the path `names` inside message `msg`. */
  function FieldPath(env: Env, msg: string, names: seq<string>): Result<TypeDesc, ResolveError>
    decreases |names|
  {
    if names == [] then Ok(TypeDesc(MessageKind, msg, false))
    else
      var f :- FieldIn(env, msg, names[0]);
      if |names| == 1 then Ok(f.ty)
      else if !f.ty.kind.MessageKind? then Err(NestedInNonMessage(names[1]))
      else if f.ty.repeated then Err(NestedInRepeated(names[1]))
      else FieldPath(env, f.ty.typeName, names[1..])
  }

  /** Follows the path by updating the message it has come to. */
  method ResolveFieldPath(env: Env, msgFullName: string, fieldNames: seq<string>)
      returns (r: Result<TypeDesc, ResolveError>)
    ensures r == FieldPath(env, msgFullName, fieldNames)
  {
    if fieldNames == [] {
      return Ok(TypeDesc(MessageKind, msgFullName, false));
    }
    var msg, i := msgFullName, 0;
    while i < |fieldNames| - 1
      invariant 0 <= i < |fieldNames|
      invariant FieldPath(env, msgFullName, fieldNames) == FieldPath(env, msg, fieldNames[i..])
    {
      var f := FieldIn(env, msg, fieldNames[i]);
      assert fieldNames[i..][1..] == fieldNames[i + 1..];
      if f.Err? {
        return Err(f.error);
      } else if !f.value.ty.kind.MessageKind? {
        return Err(NestedInNonMessage(fieldNames[i + 1]));
      } else if f.value.ty.repeated {
        return Err(NestedInRepeated(fieldNames[i + 1]));
      }
      msg, i := f.value.ty.typeName, i + 1;
    }
    var f := FieldIn(env, msg, fieldNames[i]);
    r := if f.Err? then Err(f.error) else Ok(f.value.ty);
  }

  /** Operands are there, and come before the node that uses them. */
  predicate Resolvable(nodes: seq<RawNode>) {
    forall i | 0 <= i < |nodes| :: OperandsBefore(nodes[i], i)
  }

  predicate OperandsBefore(n: RawNode, i: nat) {
    match n
    case RawField(_, expr, _) => expr.Some? ==> expr.value < i
    case RawCombination(op, left, right) =>
      left.Some? && left.value < i && (!IsUnaryNodeOperator(op) ==> right.Some? && right.value < i)
    case _ => true
  }

  /** The type of node `i`. The recursion follows operands, which have smaller indices. */
  function Resolve(env: Env, nodes: seq<RawNode>, i: nat): Result<TypeDesc, ResolveError>
    requires Resolvable(nodes) && i < |nodes|
    decreases i, 1
  {
    match nodes[i]
    case RawField(source, expr, fields) =>
      if source != "" && expr.Some? then Err(BothSourceAndExpression)
      else if source == "" && expr.None? then Err(NeitherSourceNorExpression)
      else if expr.None? then
        var msg :- env.sourceType(source);
        FieldPath(env, msg, fields)
      else
        var target :- Resolve(env, nodes, expr.value);
        if !target.kind.MessageKind? then Err(NoMessage(expr.value))
        else if target.repeated then Err(RepeatedMessage(expr.value))
        else FieldPath(env, target.typeName, fields)
    case RawCombination(op, left, right) => ResolveCombination(env, nodes, i)
    case RawFunction(_) => Ok(Scalar(Int64Kind))
    case RawConstant(c) => Ok(Scalar(ConstantKind(c)))
    case RawBuilder(_, _) =>
      if env.builderType(i) == "" then Err(NotInferred(OnBuilder(i)))
            else Ok(TypeDesc(MessageKind, env.builderType(i), false))
    case RawUnset => Err(UnknownNode)
  }

  function ResolveCombination(env: Env, nodes: seq<RawNode>, i: nat): Result<TypeDesc, ResolveError>
    requires Resolvable(nodes) && i < |nodes| && nodes[i].RawCombination?
    decreases i, 0
  {
    var n := nodes[i];
    match n.op
    case Logical(_) => Ok(Scalar(BoolKind))
    case Relational(_) => Ok(Scalar(BoolKind))
    case Rounding(_) => Ok(Scalar(Int64Kind))
    case Arithmetic(op) =>
      if op.DIVIDE? then Ok(Scalar(DoubleKind))
      else if op.MODULO_TRUNC? then Ok(Scalar(Int64Kind))
      else
        var l :- Resolve(env, nodes, n.left.value);
        if op.ABSOLUTE? || op.UNARY_MINUS? then NegationType(l)
        else
          var r :- Resolve(env, nodes, n.right.value);
          ArithmeticType(op, l, r)
    case OnList(op) =>
      var l :- Resolve(env, nodes, n.left.value);
      if !l.repeated then Err(NotRepeated)
      else if op.LENGTH? then Ok(Scalar(Int64Kind))
      else
        var r :- Resolve(env, nodes, n.right.value);
        if !IsInt(r.kind) then Err(SubscriptNotInteger) else Ok(TypeDesc(l.kind, l.typeName, false))
  }

  function NegationType(l: TypeDesc): Result<TypeDesc, ResolveError> {
    if IsInt(l.kind) then Ok(Scalar(Int64Kind))
    else if IsNumeric(l.kind) then Ok(Scalar(DoubleKind))
    else Err(NotNumeric)
  }

  /** A power of integers need not be an integer. */
  function ArithmeticType(op: ArithmeticOp, l: TypeDesc, r: TypeDesc): Result<TypeDesc, ResolveError> {
    if IsInt(l.kind) && IsInt(r.kind) && !op.POWER? then Ok(Scalar(Int64Kind))
    else if IsNumeric(l.kind) && IsNumeric(r.kind) then Ok(Scalar(DoubleKind))
    else Err(NotNumeric)
  }

  // ------------------------------------------------------------------------
  // What the type of a node depends on

  predicate SameOn(e: Env, f: Env, d: Entity) {
    match d
    case OnSource(s) => e.sourceType(s) == f.sourceType(s)
    case OnBuilder(i) => e.builderType(i) == f.builderType(i)
    case OnReport(_) => true
  }

  ghost predicate Agree(e: Env, f: Env, nodes: seq<RawNode>, root: nat) {
    && (forall d | DependsOn(nodes, root, d) :: SameOn(e, f, d))
    && (forall m :: e.fieldsOf(m) == f.fieldsOf(m))
  }

  lemma AgreeThrough(e: Env, f: Env, nodes: seq<RawNode>, root: nat, child: nat)
    requires Agree(e, f, nodes, root) && Follows(nodes, root, child)
    ensures Agree(e, f, nodes, child)
  {
    forall d | DependsOn(nodes, child, d) ensures SameOn(e, f, d) {
      DependsThrough(nodes, root, child, d);
    }
  }

  lemma {:induction false} PathLocal(e: Env, f: Env, msg: string, names: seq<string>)
    requires forall m :: e.fieldsOf(m) == f.fieldsOf(m)
    ensures FieldPath(e, msg, names) == FieldPath(f, msg, names)
    decreases |names|
  {
    if |names| > 1 && FieldIn(e, msg, names[0]).Ok? {
      PathLocal(e, f, FieldIn(e, msg, names[0]).value.ty.typeName, names[1..]);
    }
  }

  /** Resolving a node asks for no source and no inline builder but those it depends on. */
  lemma {:induction false} ResolveLocal(e: Env, f: Env, nodes: seq<RawNode>, i: nat)
    requires Resolvable(nodes) && i < |nodes| && Agree(e, f, nodes, i)
    ensures Resolve(e, nodes, i) == Resolve(f, nodes, i)
    decreases i, 0
  {
    assert OperandsBefore(nodes[i], i);
    match nodes[i]
    case RawField(source, expr, fields) =>
      if source != "" && expr.None? {
        DependsDirectly(nodes, i, OnSource(source));
        assert SameOn(e, f, OnSource(source));
        if e.sourceType(source).Ok? {
          PathLocal(e, f, e.sourceType(source).value, fields);
        }
      } else if source == "" && expr.Some? {
        ChildLocal(e, f, nodes, i, expr.value);
        var target := Resolve(e, nodes, expr.value);
        if target.Ok? {
          PathLocal(e, f, target.value.typeName, fields);
        }
      }
    case RawCombination(op, left, right) =>
      ChildLocal(e, f, nodes, i, left.value);
      if !IsUnaryNodeOperator(op) {
        ChildLocal(e, f, nodes, i, right.value);
      }
    case RawBuilder(_, _) =>
      DependsDirectly(nodes, i, OnBuilder(i));
      assert SameOn(e, f, OnBuilder(i));
    case _ =>
  }

  lemma {:induction false} ChildLocal(e: Env, f: Env, nodes: seq<RawNode>, i: nat, child: nat)
    requires Resolvable(nodes) && child < i < |nodes| && Agree(e, f, nodes, i) && Follows(nodes, i, child)
    ensures Resolve(e, nodes, child) == Resolve(f, nodes, child)
    decreases child, 1
  {
    AgreeThrough(e, f, nodes, i, child);
    ResolveLocal(e, f, nodes, child);
  }

  /** The environment complains about missing types only for the source it is asked about. */
  ghost predicate Blames(env: Env) {
    forall s, d :: env.sourceType(s) == Err(NotInferred(d)) ==> d == OnSource(s)
  }

  predicate Missing(env: Env, d: Entity) {
    match d
    case OnSource(s) => env.sourceType(s) == Err(NotInferred(d))
    case OnBuilder(i) => env.builderType(i) == ""
    case OnReport(_) => false
  }

  lemma {:induction false} PathNeverBlames(env: Env, msg: string, names: seq<string>, d: Entity)
    ensures FieldPath(env, msg, names) != Err(NotInferred(d))
    decreases |names|
  {
    if |names| > 1 && FieldIn(env, msg, names[0]).Ok? {
      PathNeverBlames(env, FieldIn(env, msg, names[0]).value.ty.typeName, names[1..], d);
    }
  }

  /** A type that is missing is one the node depends on. */
  lemma {:induction false} MissingIsDependency(env: Env, nodes: seq<RawNode>, i: nat, d: Entity)
    requires Resolvable(nodes) && i < |nodes| && Blames(env) && Resolve(env, nodes, i) == Err(NotInferred(d))
    ensures DependsOn(nodes, i, d) && Missing(env, d)
    decreases i, 0
  {
    assert OperandsBefore(nodes[i], i);
    match nodes[i]
    case RawField(source, expr, fields) =>
      if source != "" {
        if env.sourceType(source).Ok? {
          PathNeverBlames(env, env.sourceType(source).value, fields, d);
        } else {
          DependsDirectly(nodes, i, OnSource(source));
        }
      } else {
        var target := Resolve(env, nodes, expr.value);
        if target.Ok? {
          PathNeverBlames(env, target.value.typeName, fields, d);
        } else {
          ChildMissing(env, nodes, i, expr.value, d);
        }
      }
    case RawCombination(op, left, right) =>
      if Resolve(env, nodes, left.value) == Err(NotInferred(d)) {
        ChildMissing(env, nodes, i, left.value, d);
      } else {
        ChildMissing(env, nodes, i, right.value, d);
      }
    case _ =>
      DependsDirectly(nodes, i, OnBuilder(i));
  }

  lemma {:induction false} ChildMissing(env: Env, nodes: seq<RawNode>, i: nat, child: nat, d: Entity)
    requires Resolvable(nodes) && child < i < |nodes| && Blames(env) && Follows(nodes, i, child)
             && Resolve(env, nodes, child) == Err(NotInferred(d))
    ensures DependsOn(nodes, i, d) && Missing(env, d)
    decreases child, 1
  {
    MissingIsDependency(env, nodes, child, d);
    DependsThrough(nodes, i, child, d);
  }
}
