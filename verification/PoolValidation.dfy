/** Whatever the expression compiler leaves in its pool passes the structural checks. */
module PoolValidation {
  import opened Wrappers
  import opened Operators
  import opened Trees
  import opened Configuration
  import opened Graphs
  import opened Validation
  import opened Parser
  import opened Resolution

  /** The names a node mentions are known; the one thing the compiler does not look at. */
  predicate NamesKnown(ctx: Context, n: Node) {
    match n
    case FieldLeaf(source, _, _) => source == "" || source in ctx.sources
    case MessageBuilder(ty, _) => ty.None? || ty.value == "" || (ctx.types.Some? && ty.value in ctx.types.value)
    case _ => true
  }

  lemma EmittedComplete(ctx: Context, n: Node, bound: nat)
    requires WellFormedNode(n) && InRange(n, bound)
    ensures Complete(ctx, Emit(n), bound) <==> NamesKnown(ctx, n)
  {
    match n
    case FieldLeaf(_, expr, _) => assert expr.Some? ==> expr.value in Children(n);
    case Combination(_, left, right) => assert left in Children(n) && (right.Some? ==> right.value in Children(n));
    case MessageBuilder(_, assigns) =>
      var raw := Emit(n).assigns;
      forall k | 0 <= k < |raw| ensures AssignOk(raw, k, bound) {
        assert assigns[k].index in Children(n);
        assert raw[k] == RawAssign(assigns[k].name, Some(assigns[k].index));
        assert forall j | 0 <= j < k :: raw[j].name == assigns[j].name != assigns[k].name;
      }
    case _ =>
  }

  /** Along a walk of references the indices go down. */
  lemma {:induction false} WalkDescends(nodes: seq<Node>, adj: Adjacency<nat>, w: seq<nat>)
    requires ChildrenFirst(nodes) && Pictures(adj, EmitAll(nodes), |nodes|) && IsWalk(adj, w) && w != []
    ensures Last(w) <= w[0]
  {
    if |w| > 1 {
      assert w == Front(w) + [Last(w)];
      WalkFront(adj, Front(w), Last(w));
      WalkDescends(nodes, adj, Front(w));
      EdgeDescends(nodes, adj, w[|w| - 2], w[|w| - 1]);
    }
  }

  lemma EdgeDescends(nodes: seq<Node>, adj: Adjacency<nat>, a: nat, b: nat)
    requires ChildrenFirst(nodes) && Pictures(adj, EmitAll(nodes), |nodes|) && HasEdge(adj, a, b)
    ensures b < a
  {
    assert Refers(EmitAll(nodes), |nodes|, a, b);
    EmitReferences(nodes[a]);
  }

  lemma PoolAcyclic(nodes: seq<Node>, adj: Adjacency<nat>)
    requires ChildrenFirst(nodes) && Pictures(adj, EmitAll(nodes), |nodes|)
    ensures Acyclic(adj)
  {
    forall c ensures !IsCycle(adj, c) {
      if c != [] && IsWalk(adj, c) {
        WalkDescends(nodes, adj, c);
        var last := Last(c);
        if c[0] in adj[last] {
          EdgeDescends(nodes, adj, last, c[0]);
        }
      }
    }
  }

  /** The pool of a parser, after any sequence of sources: the validator finds nothing, unless a
      node names a source or a message type the configuration does not have. */
  lemma PoolPassesChecks(ctx: Context, nodes: seq<Node>, nodeByWire: map<Node, nat>, pool: seq<Tree>,
                         adj: Adjacency<nat>)
    requires Sound(nodes, nodeByWire, pool) && Pictures(adj, EmitAll(nodes), |nodes|)
    ensures Acyclic(adj)
    ensures Findings(ctx, EmitAll(nodes), |nodes|) == [] <==> forall i | 0 <= i < |nodes| :: NamesKnown(ctx, nodes[i])
  {
    PoolAcyclic(nodes, adj);
    var raw := EmitAll(nodes);
    NothingFound(ctx, raw, |raw|);
    forall i | 0 <= i < |nodes| ensures Complete(ctx, raw[i], |raw|) <==> NamesKnown(ctx, nodes[i]) {
      assert InRange(nodes[i], |nodes|);
      EmittedComplete(ctx, nodes[i], |nodes|);
    }
  }

  /** Resolving a type over the pool of a parser is well defined: every operand is there, and
      before the node that uses it. */
  lemma PoolResolvable(nodes: seq<Node>)
    requires ChildrenFirst(nodes) && forall i | 0 <= i < |nodes| :: WellFormedNode(nodes[i])
    ensures Resolvable(EmitAll(nodes))
  {
    forall i | 0 <= i < |nodes| ensures OperandsBefore(EmitAll(nodes)[i], i) {
      var n := nodes[i];
      assert InRange(n, i) && WellFormedNode(n);
      match n
      case FieldLeaf(_, expr, _) => assert expr.Some? ==> expr.value in Children(n);
      case Combination(_, left, right) => assert left in Children(n) && (right.Some? ==> right.value in Children(n));
      case _ =>
    }
  }
}
