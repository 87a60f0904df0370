/** Which sources and inline builders an expression's type depends on. */
module Dependencies {
  import opened Wrappers
  import opened Operators
  import opened Configuration

  /** Whatever has a message builder whose type is inferred, or names a data source. */
  datatype Entity = OnSource(name: string) | OnBuilder(index: nat) | OnReport(report: nat)

  function Opt(i: Option<nat>): seq<nat> { if i.Some? then [i.value] else [] }

  /** The nodes the search goes on to from node `i`; it does not enter inline builders. */
  function Successors(nodes: seq<RawNode>, i: nat): seq<nat> {
    if i >= |nodes| then []
    else match nodes[i]
      case RawField(_, expr, _) => Opt(expr)
      case RawCombination(op, left, right) => Opt(left) + if IsUnaryNodeOperator(op) then [] else Opt(right)
      case _ => []
  }

  /** What node `i` itself depends on. */
  function Direct(nodes: seq<RawNode>, i: nat): seq<Entity> {
    if i >= |nodes| then []
    else match nodes[i]
      case RawField(source, expr, _) => if expr.None? && source != "" then [OnSource(source)] else []
      case RawBuilder(_, _) => [OnBuilder(i)]
      case _ => []
  }

  ghost predicate IsTrail(nodes: seq<RawNode>, p: seq<nat>, root: nat, i: nat) {
    && p != [] && p[0] == root && Last(p) == i
    && forall k | 0 <= k < |p| - 1 :: Follows(nodes, p[k], p[k + 1])
  }

  predicate Follows(nodes: seq<RawNode>, i: nat, j: nat) { j in Successors(nodes, i) }

  ghost predicate Reachable(nodes: seq<RawNode>, root: nat, i: nat) {
    exists p :: IsTrail(nodes, p, root, i)
  }

  /** Some node reachable from `root`, without passing through a builder, depends on `d`. */
  ghost predicate DependsOn(nodes: seq<RawNode>, root: nat, d: Entity) {
    exists i | Reachable(nodes, root, i) :: d in Direct(nodes, i)
  }

  lemma ReachesItself(nodes: seq<RawNode>, root: nat)
    ensures Reachable(nodes, root, root)
  {
    assert IsTrail(nodes, [root], root, root);
  }

  lemma ReachesNext(nodes: seq<RawNode>, root: nat, i: nat, j: nat)
    requires Reachable(nodes, root, i) && Follows(nodes, i, j)
    ensures Reachable(nodes, root, j)
  {
    var p :| IsTrail(nodes, p, root, i);
    var q := p + [j];
    forall k | 0 <= k < |q| - 1 ensures Follows(nodes, q[k], q[k + 1]) {
      if k < |p| - 1 {
        assert Follows(nodes, p[k], p[k + 1]);
      }
    }
    assert IsTrail(nodes, q, root, j);
  }

  lemma ReachesThrough(nodes: seq<RawNode>, root: nat, child: nat, i: nat)
    requires Follows(nodes, root, child) && Reachable(nodes, child, i)
    ensures Reachable(nodes, root, i)
  {
    var p :| IsTrail(nodes, p, child, i);
    var q := [root] + p;
    forall k | 0 <= k < |q| - 1 ensures Follows(nodes, q[k], q[k + 1]) {
      if k > 0 {
        assert Follows(nodes, p[k - 1], p[k]);
      }
    }
    assert IsTrail(nodes, q, root, i);
  }

  /** The dependencies of a child are dependencies of its parent. */
  lemma DependsThrough(nodes: seq<RawNode>, root: nat, child: nat, d: Entity)
    requires Follows(nodes, root, child) && DependsOn(nodes, child, d)
    ensures DependsOn(nodes, root, d)
  {
    var i :| Reachable(nodes, child, i) && d in Direct(nodes, i);
    ReachesThrough(nodes, root, child, i);
  }

  lemma DependsDirectly(nodes: seq<RawNode>, root: nat, d: Entity)
    requires d in Direct(nodes, root)
    ensures DependsOn(nodes, root, d)
  {
    ReachesItself(nodes, root);
  }

  lemma {:induction false} ClosedCoversTrail(nodes: seq<RawNode>, s: set<nat>, p: seq<nat>)
    requires p != [] && p[0] in s && (forall i, j | i in s && Follows(nodes, i, j) :: j in s)
    requires forall k | 0 <= k < |p| - 1 :: Follows(nodes, p[k], p[k + 1])
    ensures Last(p) in s
  {
    if |p| > 1 {
      var q := Front(p);
      forall k | 0 <= k < |q| - 1 ensures Follows(nodes, q[k], q[k + 1]) {
        assert Follows(nodes, p[k], p[k + 1]);
      }
      ClosedCoversTrail(nodes, s, q);
      assert Follows(nodes, p[|p| - 2], p[|p| - 1]);
    }
  }

  /** The nodes still to be visited. */
  function Fresh(nodes: seq<RawNode>, visited: set<nat>): set<nat> {
    Below(|nodes|) - visited
  }

  function Below(n: nat): (s: set<nat>)
    ensures forall i: nat :: i in s <==> i < n
  {
    if n == 0 then {} else Below(n - 1) + {n - 1}
  }

  /** The breadth-first search: everything seen is reachable, and what follows a visited node
      has been seen. */
  ghost predicate Searching(nodes: seq<RawNode>, root: nat, visited: set<nat>, queue: seq<nat>) {
    && (root in visited || root in queue)
    && (forall i | i in visited :: Reachable(nodes, root, i))
    && (forall i | i in queue :: Reachable(nodes, root, i))
    && (forall i, j | i in visited && Follows(nodes, i, j) :: j in visited || j in queue)
  }

  ghost predicate Gathered(nodes: seq<RawNode>, visited: set<nat>, deps: seq<Entity>) {
    forall d :: d in deps <==> DirectOfSome(nodes, visited, d)
  }

  predicate DirectOfSome(nodes: seq<RawNode>, visited: set<nat>, d: Entity) {
    exists i | i in visited :: d in Direct(nodes, i)
  }

  lemma SkipVisited(nodes: seq<RawNode>, root: nat, visited: set<nat>, queue: seq<nat>)
    requires Searching(nodes, root, visited, queue) && queue != [] && queue[0] in visited
    ensures Searching(nodes, root, visited, queue[1..])
  {
    assert queue == [queue[0]] + queue[1..];
  }

  lemma VisitHead(nodes: seq<RawNode>, root: nat, visited: set<nat>, queue: seq<nat>, i: nat)
    requires Searching(nodes, root, visited, queue) && queue != [] && queue[0] == i
    ensures Searching(nodes, root, visited + {i}, queue[1..] + Successors(nodes, i))
  {
    assert queue == [i] + queue[1..];
    forall j | j in Successors(nodes, i) ensures Reachable(nodes, root, j) {
      ReachesNext(nodes, root, i, j);
    }
  }

  lemma GatherHead(nodes: seq<RawNode>, visited: set<nat>, deps: seq<Entity>, i: nat)
    requires Gathered(nodes, visited, deps)
    ensures Gathered(nodes, visited + {i}, deps + Direct(nodes, i))
  {
    forall d ensures DirectOfSome(nodes, visited + {i}, d)
          <==> DirectOfSome(nodes, visited, d) || d in Direct(nodes, i) {
      if DirectOfSome(nodes, visited, d) {
        var j :| j in visited && d in Direct(nodes, j);
        assert j in visited + {i};
      }
      if d in Direct(nodes, i) {
        assert i in visited + {i};
      }
    }
  }

  lemma SearchDone(nodes: seq<RawNode>, root: nat, visited: set<nat>, d: Entity)
    requires Searching(nodes, root, visited, [])
    ensures DirectOfSome(nodes, visited, d) <==> DependsOn(nodes, root, d)
  {
    if DependsOn(nodes, root, d) {
      var i :| Reachable(nodes, root, i) && d in Direct(nodes, i);
      var p :| IsTrail(nodes, p, root, i);
      ClosedCoversTrail(nodes, visited, p);
    }
  }

  /** Searches breadth first from `root`, on any list of nodes, cyclic or not: finds exactly what
      the root depends on. */
  method FindDeps(nodes: seq<RawNode>, root: nat) returns (deps: seq<Entity>)
    ensures forall d :: d in deps <==> DependsOn(nodes, root, d)
  {
    var visited: set<nat> := {};
    var queue := [root];
    deps := [];
    ReachesItself(nodes, root);
    while queue != []
      invariant Searching(nodes, root, visited, queue)
      invariant Gathered(nodes, visited, deps)
      decreases |Fresh(nodes, visited)|, |queue|
    {
      var i := queue[0];
      if i in visited {
        SkipVisited(nodes, root, visited, queue);
        queue := queue[1..];
      } else {
        VisitHead(nodes, root, visited, queue, i);
        GatherHead(nodes, visited, deps, i);
        FreshShrinks(nodes, visited, i);
        visited := visited + {i};
        queue := queue[1..] + Successors(nodes, i);
        deps := deps + Direct(nodes, i);
      }
    }
    forall d ensures d in deps <==> DependsOn(nodes, root, d) {
      SearchDone(nodes, root, visited, d);
    }
  }

  lemma FreshShrinks(nodes: seq<RawNode>, visited: set<nat>, i: nat)
    requires i !in visited
    ensures i < |nodes| ==> |Fresh(nodes, visited + {i})| < |Fresh(nodes, visited)|
    ensures i >= |nodes| ==> Fresh(nodes, visited + {i}) == Fresh(nodes, visited) && Successors(nodes, i) == []
  {
    assert Fresh(nodes, visited + {i}) == Fresh(nodes, visited) - {i};
  }
}
