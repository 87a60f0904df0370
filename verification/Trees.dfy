/** Expression nodes, the trees they stand for, and the pool that shares them.

    A node refers to its children by their position in the pool. A tree is the
    expression a node stands for, with the sharing undone. */
module Trees {
  import opened Wrappers
  import opened Operators

  /** Numeric types a literal resolves to; the value itself is kept opaque. */
  datatype NumberType = Int32 | Int64 | Float | Double
  datatype Const = BoolConst(b: bool) | NumberConst(ty: NumberType, bits: int)

  datatype Clock = RealtimeClock | MonotonicSinceBoot | MonotonicSinceBootOrResume

  datatype Tree =
    | SourceField(source: string, fields: seq<string>)
    | PostfixField(base: Tree, fields: seq<string>)
    | Constant(c: Const)
    | Timestamp(clock: Clock)
    | Unary(op: NodeOperator, arg: Tree)
    | Binary(op: NodeOperator, left: Tree, right: Tree)
    | Builder(messageType: Option<string>, assigns: seq<Assign>)
  datatype Assign = Assign(name: string, value: Tree)

  datatype Node =
    | FieldLeaf(source: string, expr: Option<nat>, fields: seq<string>)
    | ConstantLeaf(c: Const)
    | FunctionLeaf(clock: Clock)
    | Combination(op: NodeOperator, left: nat, right: Option<nat>)
    | MessageBuilder(messageType: Option<string>, assigns: seq<NodeAssign>)
  datatype NodeAssign = NodeAssign(name: string, index: nat)

  function Children(n: Node): set<nat> {
    match n
    case FieldLeaf(_, expr, _) => if expr.Some? then {expr.value} else {}
    case ConstantLeaf(_) => {}
    case FunctionLeaf(_) => {}
    case Combination(_, left, right) => if right.Some? then {left, right.value} else {left}
    case MessageBuilder(_, assigns) => set i | 0 <= i < |assigns| :: assigns[i].index
  }

  predicate InRange(n: Node, bound: nat) {
    forall c <- Children(n) :: c < bound
  }

  /** The tree a node stands for, given the trees of the pool below it. */
  function DecodeNode(v: seq<Tree>, n: Node): Tree
    requires InRange(n, |v|)
  {
    match n
    case FieldLeaf(source, expr, fields) =>
      if expr.Some? then
        assert expr.value in Children(n);
        PostfixField(v[expr.value], fields)
      else SourceField(source, fields)
    case ConstantLeaf(c) => Constant(c)
    case FunctionLeaf(clock) => Timestamp(clock)
    case Combination(op, left, right) =>
      assert left in Children(n);
      if right.Some? then
        assert right.value in Children(n);
        Binary(op, v[left], v[right.value])
      else Unary(op, v[left])
    case MessageBuilder(ty, assigns) =>
      assert forall i | 0 <= i < |assigns| :: assigns[i].index in Children(n);
      Builder(ty, seq(|assigns|, i requires 0 <= i < |assigns| => Assign(assigns[i].name, v[assigns[i].index])))
  }

  /** Every node only refers to nodes that come before it. */
  predicate ChildrenFirst(nodes: seq<Node>) {
    forall i | 0 <= i < |nodes| :: InRange(nodes[i], i)
  }

  /** The trees of a pool, index by index. */
  function View(nodes: seq<Node>): (v: seq<Tree>)
    requires ChildrenFirst(nodes)
    ensures |v| == |nodes|
  {
    if nodes == [] then []
    else
      var v := View(Front(nodes));
      v + [DecodeNode(v, Last(nodes))]
  }

  ghost predicate Distinct<T>(s: seq<T>) {
    forall i, j | 0 <= i < j < |s| :: s[i] != s[j]
  }

  /** What the structural checks of the configuration validator ask of one node. */
  predicate WellFormedNode(n: Node) {
    match n
    case FieldLeaf(source, expr, _) => (source != "") <==> expr.None?
    case Combination(op, _, right) => right.Some? <==> !IsUnaryNodeOperator(op)
    case MessageBuilder(_, assigns) =>
      && (forall i | 0 <= i < |assigns| :: assigns[i].name != "")
      && (forall i, j | 0 <= i < j < |assigns| :: assigns[i].name != assigns[j].name)
    case _ => true
  }

  /** A list of nodes as the expression compiler leaves it. */
  ghost predicate IsPool(nodes: seq<Node>) {
    ChildrenFirst(nodes) && Distinct(View(nodes)) && forall i | 0 <= i < |nodes| :: WellFormedNode(nodes[i])
  }

  /** Appends the trees of `log` to `v` one by one, skipping those already there. */
  function Intern(v: seq<Tree>, log: seq<Tree>): (u: seq<Tree>)
    ensures v <= u
  {
    if log == [] then v
    else
      var u := Intern(v, Front(log));
      if Last(log) in u then u else u + [Last(log)]
  }

  /** Bottom-up order of a tree's nodes; a builder's fields belong to their own expressions. */
  function PostOrder(t: Tree): seq<Tree> {
    match t
    case PostfixField(base, _) => PostOrder(base) + [t]
    case Unary(_, arg) => PostOrder(arg) + [t]
    case Binary(_, l, r) => PostOrder(l) + PostOrder(r) + [t]
    case _ => [t]
  }

  lemma {:induction false} InternAppend(v: seq<Tree>, a: seq<Tree>, b: seq<Tree>)
    ensures Intern(v, a + b) == Intern(Intern(v, a), b)
  {
    if b == [] {
      assert a + b == a;
    } else {
      assert Front(a + b) == a + Front(b);
      InternAppend(v, a, Front(b));
    }
  }

  lemma DecodeNodeExtend(v: seq<Tree>, w: seq<Tree>, n: Node)
    requires InRange(n, |v|) && v <= w
    ensures InRange(n, |w|) && DecodeNode(w, n) == DecodeNode(v, n)
  {
    if n.MessageBuilder? {
      assert forall i | 0 <= i < |n.assigns| :: n.assigns[i].index in Children(n);
    } else if n.Combination? {
      assert n.left in Children(n);
      assert n.right.Some? ==> n.right.value in Children(n);
    } else if n.FieldLeaf? {
      assert n.expr.Some? ==> n.expr.value in Children(n);
    }
  }

  /** Each entry of the view decodes its own node. */
  lemma {:induction false} ViewAt(nodes: seq<Node>, i: nat)
    requires ChildrenFirst(nodes) && i < |nodes|
    ensures InRange(nodes[i], |nodes|) && View(nodes)[i] == DecodeNode(View(nodes), nodes[i])
  {
    var v := View(Front(nodes));
    if i < |nodes| - 1 {
      ViewAt(Front(nodes), i);
      assert Front(nodes)[i] == nodes[i];
    }
    DecodeNodeExtend(v, View(nodes), nodes[i]);
  }

  lemma {:induction false} ViewPrefix(nodes: seq<Node>, more: seq<Node>)
    requires ChildrenFirst(nodes + more)
    ensures ChildrenFirst(nodes) && View(nodes) <= View(nodes + more)
  {
    assert forall i | 0 <= i < |nodes| :: nodes[i] == (nodes + more)[i];
    if more == [] {
      assert nodes + more == nodes;
    } else {
      assert Front(nodes + more) == nodes + Front(more);
      ViewPrefix(nodes, Front(more));
    }
  }

  lemma DecodeNodeInjective(v: seq<Tree>, n: Node, m: Node)
    requires Distinct(v) && InRange(n, |v|) && InRange(m, |v|)
    requires WellFormedNode(n) && WellFormedNode(m)
    requires DecodeNode(v, n) == DecodeNode(v, m)
    ensures n == m
  {
    match n
    case FieldLeaf(_, expr, _) =>
      assert expr.Some? ==> expr.value in Children(n) && m.expr.value in Children(m);
    case Combination(_, left, right) =>
      assert left in Children(n) && m.left in Children(m);
      assert right.Some? ==> right.value in Children(n) && m.right.value in Children(m);
    case MessageBuilder(_, assigns) =>
      var d, e := DecodeNode(v, n).assigns, DecodeNode(v, m).assigns;
      forall i | 0 <= i < |assigns| ensures assigns[i] == m.assigns[i] {
        assert assigns[i].index in Children(n) && m.assigns[i].index in Children(m);
        assert d[i] == e[i];
      }
      assert assigns == m.assigns;
    case _ =>
  }

  /** A pool without repeated nodes has no repeated trees either: sharing is canonical. */
  lemma {:induction false} ViewDistinct(nodes: seq<Node>)
    requires ChildrenFirst(nodes) && Distinct(nodes)
    requires forall i | 0 <= i < |nodes| :: WellFormedNode(nodes[i])
    ensures Distinct(View(nodes))
  {
    if nodes != [] {
      var front, n := Front(nodes), Last(nodes);
      ViewDistinct(front);
      var v := View(front);
      forall i | 0 <= i < |v| ensures v[i] != DecodeNode(v, n) {
        ViewAt(front, i);
        assert nodes[i] == front[i] != nodes[|nodes| - 1];
        if v[i] == DecodeNode(v, n) {
          DecodeNodeInjective(v, front[i], n);
        }
      }
    }
  }

  /** Appending a node whose tree is new is exactly interning that tree. */
  lemma ViewSnoc(nodes: seq<Node>, n: Node)
    requires ChildrenFirst(nodes) && InRange(n, |nodes|)
    ensures ChildrenFirst(nodes + [n])
    ensures View(nodes + [n]) == View(nodes) + [DecodeNode(View(nodes), n)]
  {
    assert Front(nodes + [n]) == nodes;
  }
}
