/** The type of an expression, read off its tree: what resolving an index of a shared pool must
    agree with. */
module TreeTyping {
  import opened Wrappers
  import opened Operators
  import opened Trees
  import opened Configuration
  import opened Resolution

  /** As `Env`, with the types of inline builders given by the builders themselves. */
  datatype TreeEnv = TreeEnv(env: Env, builderType: Tree -> string)

  datatype NumberClass = Integral | Fractional | NoNumber

  function ClassOf(ty: TypeDesc): NumberClass {
    match ty.kind
    case DoubleKind => Fractional
    case FloatKind => Fractional
    case BoolKind => NoNumber
    case StringKind => NoNumber
    case BytesKind => NoNumber
    case GroupKind => NoNumber
    case MessageKind => NoNumber
    case _ => Integral
  }

  /** Sums, differences and products of integers are integers; a power is not, and nothing is that
      involves a fraction. */
  function Joined(power: bool, a: NumberClass, b: NumberClass): Option<TypeDesc> {
    if a.NoNumber? || b.NoNumber? then None
    else if a.Integral? && b.Integral? && !power then Some(Scalar(Int64Kind))
    else Some(Scalar(DoubleKind))
  }

  function LiteralType(c: Const): TypeDesc {
    match c
    case BoolConst(_) => TypeDesc(BoolKind, "", false)
    case NumberConst(ty, _) =>
      TypeDesc(match ty case Int32 => Int32Kind case Int64 => Int64Kind case Float => FloatKind
               case Double => DoubleKind, "", false)
  }

  function PathType(te: TreeEnv, msg: string, fields: seq<string>): Option<TypeDesc> {
    match FieldPath(te.env, msg, fields)
    case Ok(ty) => Some(ty)
    case Err(_) => None
  }

  /** The type of an expression tree; `None` if it has none. */
  function TreeType(te: TreeEnv, t: Tree): Option<TypeDesc> {
    match t
    case SourceField(s, fields) => if te.env.sourceType(s).Ok? then PathType(te, te.env.sourceType(s).value, fields)
          else None
    case PostfixField(base, fields) =>
      var ty := TreeType(te, base);
      if ty.Some? && ty.value.kind.MessageKind? && !ty.value.repeated then PathType(te, ty.value.typeName, fields)
            else None
    case Constant(c) => Some(LiteralType(c))
    case Timestamp(_) => Some(Scalar(Int64Kind))
    case Builder(_, _) => if te.builderType(t) == "" then None
          else Some(TypeDesc(MessageKind, te.builderType(t), false))
    case Unary(op, arg) => UnaryType(op, TreeType(te, arg))
    case Binary(op, l, r) => BinaryType(op, TreeType(te, l), TreeType(te, r))
  }

  /** Logical and rounding operators have a type whatever their operand's. */
  function UnaryType(op: NodeOperator, arg: Option<TypeDesc>): Option<TypeDesc> {
    match op
    case Logical(_) => Some(Scalar(BoolKind))
    case Relational(_) => Some(Scalar(BoolKind))
    case Rounding(_) => Some(Scalar(Int64Kind))
    case Arithmetic(_) => if arg.None? then None else Joined(false, ClassOf(arg.value), ClassOf(arg.value))
    case OnList(_) => if arg.Some? && arg.value.repeated then Some(Scalar(Int64Kind)) else None
  }

  function BinaryType(op: NodeOperator, l: Option<TypeDesc>, r: Option<TypeDesc>): Option<TypeDesc> {
    match op
    case Logical(_) => Some(Scalar(BoolKind))
    case Relational(_) => Some(Scalar(BoolKind))
    case Rounding(_) => Some(Scalar(Int64Kind))
    case Arithmetic(DIVIDE) => Some(Scalar(DoubleKind))
    case Arithmetic(MODULO_TRUNC) => Some(Scalar(Int64Kind))
    case Arithmetic(a) => if l.None? || r.None? then None else Joined(a.POWER?, ClassOf(l.value), ClassOf(r.value))
    case OnList(_) =>
      if l.Some? && r.Some? && l.value.repeated && ClassOf(r.value).Integral? then Some(l.value.(repeated := false))
            else None
  }

  /** The pool's builders have the types of the trees they stand for. */
  ghost predicate Matches(te: TreeEnv, env: Env, nodes: seq<Node>)
    requires ChildrenFirst(nodes)
  {
    && te.env == env
    && forall i | 0 <= i < |nodes| && nodes[i].MessageBuilder? :: te.builderType(View(nodes)[i]) == env.builderType(i)
  }

  function Found(r: Result<TypeDesc, ResolveError>): Option<TypeDesc> {
    if r.Ok? then Some(r.value) else None
  }

  ghost predicate PoolOk(nodes: seq<Node>) {
    ChildrenFirst(nodes) && (forall i | 0 <= i < |nodes| :: WellFormedNode(nodes[i])) && Resolvable(EmitAll(nodes))
  }

  /** Resolving an index of the pool gives the type of the tree it stands for, so neither the
      pool's other contents nor its sharing have any influence. */
  lemma {:induction false} ResolveIsTreeType(te: TreeEnv, env: Env, nodes: seq<Node>, i: nat)
    requires PoolOk(nodes) && Matches(te, env, nodes) && i < |nodes|
    ensures Found(Resolve(env, EmitAll(nodes), i)) == TreeType(te, View(nodes)[i])
    decreases i, 1
  {
    ViewAt(nodes, i);
    assert WellFormedNode(nodes[i]) && InRange(nodes[i], i);
    match nodes[i]
    case FieldLeaf(_, expr, _) =>
      if expr.Some? {
        assert expr.value in Children(nodes[i]);
        ResolveIsTreeType(te, env, nodes, expr.value);
      }
    case Combination(_, _, _) => CombinationIsTreeType(te, env, nodes, i);
    case _ =>
  }

  lemma {:induction false} CombinationIsTreeType(te: TreeEnv, env: Env, nodes: seq<Node>, i: nat)
    requires PoolOk(nodes) && Matches(te, env, nodes) && i < |nodes| && nodes[i].Combination?
    ensures Found(ResolveCombination(env, EmitAll(nodes), i)) == TreeType(te, View(nodes)[i])
    decreases i, 0
  {
    ViewAt(nodes, i);
    var n := nodes[i];
    assert WellFormedNode(n) && InRange(n, i) && n.left in Children(n);
    ResolveIsTreeType(te, env, nodes, n.left);
    if n.right.Some? {
      assert n.right.value in Children(n);
      ResolveIsTreeType(te, env, nodes, n.right.value);
      BinaryResolves(env, EmitAll(nodes), i);
    } else {
      UnaryResolves(env, EmitAll(nodes), i);
    }
  }

  lemma {:induction false} UnaryResolves(env: Env, nodes: seq<RawNode>, i: nat)
    requires Resolvable(nodes) && i < |nodes| && nodes[i].RawCombination? && IsUnaryNodeOperator(nodes[i].op)
    requires nodes[i].left.Some? && nodes[i].left.value < i
    ensures Found(ResolveCombination(env, nodes, i))
            == UnaryType(nodes[i].op, Found(Resolve(env, nodes, nodes[i].left.value)))
  {
  }

  lemma {:induction false} BinaryResolves(env: Env, nodes: seq<RawNode>, i: nat)
    requires Resolvable(nodes) && i < |nodes| && nodes[i].RawCombination? && !IsUnaryNodeOperator(nodes[i].op)
    requires nodes[i].left.Some? && nodes[i].left.value < i && nodes[i].right.Some? && nodes[i].right.value < i
    ensures Found(ResolveCombination(env, nodes, i))
         == BinaryType(nodes[i].op, Found(Resolve(env, nodes, nodes[i].left.value)),
             Found(Resolve(env, nodes, nodes[i].right.value)))
  {
  }
}
