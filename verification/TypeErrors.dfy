/** Why a node has no type: the first thing that is wrong, operands before the node and the left one
    before the right. */
module TypeErrors {
  import opened Wrappers
  import opened Operators
  import opened Trees
  import opened Configuration
  import opened Dependencies
  import opened Resolution
  import opened TreeTyping

  /** What is wrong with the path `fields` in message `msg`. */
  function PathFault(env: Env, msg: string, fields: seq<string>): Option<ResolveError> {
    match FieldPath(env, msg, fields)
    case Ok(_) => None
    case Err(e) => Some(e)
  }

  /** What is wrong with the operands of an arithmetic operator. */
  function NumberFault(a: TypeDesc, b: TypeDesc): Option<ResolveError> {
    if ClassOf(a).NoNumber? || ClassOf(b).NoNumber? then Some(NotNumeric) else None
  }

  /** What is wrong with taking the fields of a value of type `ty`, which node `at` computes. */
  function BaseFault(env: Env, ty: TypeDesc, at: nat, fields: seq<string>): Option<ResolveError> {
    if ty.kind != MessageKind then Some(NoMessage(at))
    else if ty.repeated then Some(RepeatedMessage(at))
    else PathFault(env, ty.typeName, fields)
  }

  /** What is wrong with a list operator over `list`. */
  function ListFault(list: TypeDesc, index: Option<TypeDesc>): Option<ResolveError> {
    if !list.repeated then Some(NotRepeated)
    else if index.Some? && !ClassOf(index.value).Integral? then Some(SubscriptNotInteger)
    else None
  }

  /** `e` is what is wrong with node `i`. */
  predicate Faulty(env: Env, nodes: seq<RawNode>, i: nat, e: ResolveError)
    requires Resolvable(nodes) && i < |nodes|
    decreases i, 1
  {
    match nodes[i]
    case RawUnset => e == UnknownNode
    case RawConstant(_) => false
    case RawFunction(_) => false
    case RawBuilder(_, _) => env.builderType(i) == "" && e == NotInferred(OnBuilder(i))
    case RawField(source, Some(_), _) =>
      if source != "" then e == BothSourceAndExpression else FaultyBase(env, nodes, i, e)
    case RawField(source, None, fields) =>
      if source == "" then e == NeitherSourceNorExpression
      else if env.sourceType(source).Err? then env.sourceType(source) == Err(e)
      else PathFault(env, env.sourceType(source).value, fields) == Some(e)
    case RawCombination(op, _, _) =>
      match op
      case Logical(_) => false
      case Relational(_) => false
      case Rounding(_) => false
      case Arithmetic(DIVIDE) => false
      case Arithmetic(MODULO_TRUNC) => false
      case _ => FaultyOperands(env, nodes, i, e)
  }

  predicate FaultyBase(env: Env, nodes: seq<RawNode>, i: nat, e: ResolveError)
    requires Resolvable(nodes) && i < |nodes| && nodes[i].RawField? && nodes[i].expr.Some?
    decreases i, 0
  {
    var at := nodes[i].expr.value;
    match Resolve(env, nodes, at)
    case Err(_) => Faulty(env, nodes, at, e)
    case Ok(ty) => BaseFault(env, ty, at, nodes[i].fields) == Some(e)
  }

  predicate FaultyOperands(env: Env, nodes: seq<RawNode>, i: nat, e: ResolveError)
    requires Resolvable(nodes) && i < |nodes| && nodes[i].RawCombination?
    decreases i, 0
  {
    var n := nodes[i];
    assert OperandsBefore(n, i);
    var l := Resolve(env, nodes, n.left.value);
    if l.Err? then Faulty(env, nodes, n.left.value, e)
    else match n.op
      case Arithmetic(ABSOLUTE) => NumberFault(l.value, l.value) == Some(e)
      case Arithmetic(UNARY_MINUS) => NumberFault(l.value, l.value) == Some(e)
      case OnList(LENGTH) => ListFault(l.value, None) == Some(e)
      case OnList(SUBSCRIPT) =>
        if !l.value.repeated then e == NotRepeated
        else
          var r := Resolve(env, nodes, n.right.value);
          if r.Err? then Faulty(env, nodes, n.right.value, e) else ListFault(l.value, Some(r.value)) == Some(e)
      case Arithmetic(_) =>
        var r := Resolve(env, nodes, n.right.value);
        if r.Err? then Faulty(env, nodes, n.right.value, e) else NumberFault(l.value, r.value) == Some(e)
      case _ => false
  }

  /** A node has no type, for the reason `e`, if and only if that is what is wrong with it. */
  lemma {:induction false} FailsJustWhen(env: Env, nodes: seq<RawNode>, i: nat, e: ResolveError)
    requires Resolvable(nodes) && i < |nodes|
    ensures Resolve(env, nodes, i) == Err(e) <==> Faulty(env, nodes, i, e)
    decreases i, 1
  {
    assert OperandsBefore(nodes[i], i);
    match nodes[i]
    case RawField(_, expr, _) =>
      if expr.Some? {
        FailsJustWhen(env, nodes, expr.value, e);
      }
    case RawCombination(op, _, _) =>
      match op {
        case Arithmetic(DIVIDE) =>
        case Arithmetic(MODULO_TRUNC) =>
        case Arithmetic(_) => OperandsFail(env, nodes, i, e);
        case OnList(_) => OperandsFail(env, nodes, i, e);
        case _ =>
      }
    case _ =>
  }

  lemma {:induction false} OperandsFail(env: Env, nodes: seq<RawNode>, i: nat, e: ResolveError)
    requires Resolvable(nodes) && i < |nodes| && nodes[i].RawCombination?
    requires nodes[i].op.OnList? || (nodes[i].op.Arithmetic? && !nodes[i].op.arithmetic.DIVIDE?
                                     && !nodes[i].op.arithmetic.MODULO_TRUNC?)
    ensures ResolveCombination(env, nodes, i) == Err(e) <==> FaultyOperands(env, nodes, i, e)
    decreases i, 0
  {
    var n := nodes[i];
    assert OperandsBefore(n, i);
    FailsJustWhen(env, nodes, n.left.value, e);
    if !IsUnaryNodeOperator(n.op) {
      FailsJustWhen(env, nodes, n.right.value, e);
    }
  }
}
