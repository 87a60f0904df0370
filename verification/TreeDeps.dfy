/** What an expression depends on, read off its tree: the sources it names and the inline builders
    it holds, without what is inside these. */
module TreeDeps {
  import opened Wrappers
  import opened Operators
  import opened Trees
  import opened Configuration
  import opened Dependencies

  /** `t` reads the source `s` outside every builder. */
  predicate Reads(t: Tree, s: string) {
    match t
    case SourceField(source, _) => source == s
    case PostfixField(base, _) => Reads(base, s)
    case Unary(_, arg) => Reads(arg, s)
    case Binary(_, l, r) => Reads(l, s) || Reads(r, s)
    case Constant(_) => false
    case Timestamp(_) => false
    case Builder(_, _) => false
  }

  /** `b` is a builder in `t` that no other builder encloses. */
  predicate Holds(t: Tree, b: Tree) {
    match t
    case Builder(_, _) => t == b
    case PostfixField(base, _) => Holds(base, b)
    case Unary(_, arg) => Holds(arg, b)
    case Binary(_, l, r) => Holds(l, b) || Holds(r, b)
    case SourceField(_, _) => false
    case Constant(_) => false
    case Timestamp(_) => false
  }

  /** What a node depends on is its own or that of a node the search goes on to. */
  lemma {:induction false} DependsStep(nodes: seq<RawNode>, i: nat, d: Entity)
    ensures DependsOn(nodes, i, d)
       <==> d in Direct(nodes, i) || exists j | Follows(nodes, i, j) :: DependsOn(nodes, j, d)
  {
    if DependsOn(nodes, i, d) && d !in Direct(nodes, i) {
      var k :| Reachable(nodes, i, k) && d in Direct(nodes, k);
      var p :| IsTrail(nodes, p, i, k);
      var rest := p[1..];
      assert Follows(nodes, p[0], p[1]);
      forall n | 0 <= n < |rest| - 1 ensures Follows(nodes, rest[n], rest[n + 1]) {
        assert Follows(nodes, p[n + 1], p[n + 1 + 1]);
      }
      assert IsTrail(nodes, rest, p[1], k);
      assert DependsOn(nodes, p[1], d);
    }
    if d in Direct(nodes, i) {
      DependsDirectly(nodes, i, d);
    }
    if j :| Follows(nodes, i, j) && DependsOn(nodes, j, d) {
      DependsThrough(nodes, i, j, d);
    }
  }

  /** What the tree at `i` says about `d`. */
  ghost predicate TreeDependsOn(v: seq<Tree>, t: Tree, d: Entity) {
    match d
    case OnSource(s) => Reads(t, s)
    case OnBuilder(k) => k < |v| && Holds(t, v[k])
    case OnReport(_) => false
  }

  /** An index of a pool depends on just the sources and the builders of its tree. */
  lemma {:induction false} DependsOnTree(nodes: seq<Node>, i: nat, d: Entity)
    requires IsPool(nodes) && i < |nodes|
    ensures DependsOn(EmitAll(nodes), i, d) <==> TreeDependsOn(View(nodes), View(nodes)[i], d)
    decreases i
  {
    var raw, v := EmitAll(nodes), View(nodes);
    ViewAt(nodes, i);
    DependsStep(raw, i, d);
    assert WellFormedNode(nodes[i]) && InRange(nodes[i], i);
    match nodes[i]
    case FieldLeaf(source, expr, fields) =>
      if expr.Some? {
        assert expr.value in Children(nodes[i]);
        DependsOnTree(nodes, expr.value, d);
        FollowsOnly(raw, i, {expr.value}, d);
      } else {
        FollowsOnly(raw, i, {}, d);
      }
    case Combination(op, left, right) =>
      assert left in Children(nodes[i]);
      DependsOnTree(nodes, left, d);
      if right.Some? {
        assert right.value in Children(nodes[i]);
        DependsOnTree(nodes, right.value, d);
        FollowsOnly(raw, i, {left, right.value}, d);
      } else {
        FollowsOnly(raw, i, {left}, d);
      }
    case MessageBuilder(_, _) =>
      FollowsOnly(raw, i, {}, d);
      BuilderItself(nodes, i, d);
    case _ => FollowsOnly(raw, i, {}, d);
  }

  lemma {:induction false} FollowsOnly(nodes: seq<RawNode>, i: nat, next: set<nat>, d: Entity)
    requires forall j :: Follows(nodes, i, j) <==> j in next
    ensures (exists j | Follows(nodes, i, j) :: DependsOn(nodes, j, d))
            <==> exists j | j in next :: DependsOn(nodes, j, d)
  {
  }

  /** Equal builders have one index. */
  lemma {:induction false} BuilderItself(nodes: seq<Node>, i: nat, d: Entity)
    requires IsPool(nodes) && i < |nodes| && nodes[i].MessageBuilder?
    ensures d == OnBuilder(i) <==> TreeDependsOn(View(nodes), View(nodes)[i], d)
  {
    ViewAt(nodes, i);
    var v := View(nodes);
    if d.OnBuilder? && d.index < |v| && v[d.index] == v[i] {
      assert d.index == i;
    }
  }
}
