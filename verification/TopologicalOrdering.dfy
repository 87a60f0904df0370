/** The graph and its three-colour depth-first search, as they are updated in place. */
module TopologicalOrdering {
  import opened Wrappers
  import opened Sorting
  import opened Graphs

  datatype Color = White | Grey | Black

  function ColorOf<N(==)>(path: seq<N>, result: seq<N>, n: N): Color {
    if n in path then Grey else if n in result then Black else White
  }

  /** The nodes of the path are grey, the finished ones black, all others white. */
  ghost predicate Colored<N(!new)>(adj: Adjacency<N>, states: map<N, Color>, path: seq<N>, result: seq<N>) {
    && states.Keys == adj.Keys
    && (forall n | n in states :: states[n] == ColorOf(path, result, n))
    && (forall n | n in path :: n in adj && n !in result)
  }

  lemma Enter<N(!new)>(adj: Adjacency<N>, states: map<N, Color>, path: seq<N>, result: seq<N>, n: N)
    requires Colored(adj, states, path, result) && n in Unvisited(adj, path, result)
    ensures Colored(adj, states[n := Grey], path + [n], result)
  {
  }

  lemma Leave<N(!new)>(adj: Adjacency<N>, states: map<N, Color>, path: seq<N>, result: seq<N>, n: N)
    requires Colored(adj, states, path + [n], result) && n !in path
    ensures Colored(adj, states[n := Black], path, [n] + result)
  {
    assert n in path + [n];
    assert forall m | m in path :: m in path + [n];
  }

  /** Visiting `ns[i..]` next gives the outcome `spec`. */
  ghost predicate Remains<N(!new)>(adj: Adjacency<N>, order: N -> seq<N>, ns: seq<N>, i: nat, path: seq<N>,
                                   result: seq<N>,
                                   spec: Result<seq<N>, seq<N>>)
  {
    && Closed(adj) && Lists(adj, order) && (forall n | n in ns :: n in adj) && i <= |ns|
    && VisitEach(adj, order, ns[i..], path, result) == spec
  }

  lemma RemainsStart<N(!new)>(adj: Adjacency<N>, order: N -> seq<N>, ns: seq<N>, path: seq<N>, result: seq<N>)
    requires Closed(adj) && Lists(adj, order) && forall n | n in ns :: n in adj
    ensures Remains(adj, order, ns, 0, path, result, VisitEach(adj, order, ns, path, result))
  {
    assert ns[0..] == ns;
  }

  /** What visiting the next of `ns` leaves to do. */
  lemma {:induction false} RemainsStep<N(!new)>(adj: Adjacency<N>, order: N -> seq<N>, ns: seq<N>, i: nat, path: seq<N>,
                                                result: seq<N>,
                                                spec: Result<seq<N>, seq<N>>)
    requires Remains(adj, order, ns, i, path, result, spec) && i < |ns|
    ensures ns[i] in path ==> spec == Err(path[IndexOf(path, ns[i])..])
    ensures ns[i] !in path && ns[i] in result ==> Remains(adj, order, ns, i + 1, path, result, spec)
    ensures ns[i] !in path && ns[i] !in result ==>
            ns[i] in Unvisited(adj, path, result) && Continues(adj, order, ns, i, path, result, spec)
  {
    assert ns[i..][0] == ns[i] && ns[i..][1..] == ns[i + 1..];
  }

  ghost predicate Continues<N(!new)>(adj: Adjacency<N>, order: N -> seq<N>, ns: seq<N>, i: nat, path: seq<N>,
                                     result: seq<N>,
                                     spec: Result<seq<N>, seq<N>>)
    requires Closed(adj) && Lists(adj, order) && i < |ns| && ns[i] in Unvisited(adj, path, result)
  {
    match Visit(adj, order, ns[i], path, result)
    case Ok(s) => Remains(adj, order, ns, i + 1, path, s, spec)
    case Err(c) => spec == Err(c)
  }

  lemma {:induction false} VisitStep<N(!new)>(adj: Adjacency<N>, order: N -> seq<N>, from: N, path: seq<N>,
                                              result: seq<N>)
    requires Closed(adj) && Lists(adj, order) && from in Unvisited(adj, path, result)
    ensures |Unvisited(adj, path + [from], result)| < |Unvisited(adj, path, result)|
    ensures forall n | n in order(from) :: n in adj
    ensures
      Visit(adj, order, from, path, result)
      == match VisitEach(adj, order, order(from), path + [from], result)
         case Ok(s) => Ok([from] + s)
         case Err(c) => Err(c)
  {
    UnvisitedShrinks(adj, from, path, result);
    assert ListsSet(order(from), adj[from]);
  }

  lemma ExtendsTrans<N>(a: seq<N>, b: seq<N>, c: seq<N>)
    requires Extends(a, b) && Extends(b, c)
    ensures Extends(a, c)
  {
    assert c[|c| - |a|..] == c[|c| - |b|..][|b| - |a|..];
  }

  /** The state of one search: a colour per node, the current path and the result so far. */
  class Search<N(==, !new)> {
    var states: map<N, Color>
    var path: seq<N>
    var result: seq<N>

    ghost predicate Valid(adj: Adjacency<N>)
      reads this
    {
      Colored(adj, states, path, result)
    }

    /** The search went as `spec` says, and is back on `path0`. */
    ghost predicate Did(adj: Adjacency<N>, spec: Result<seq<N>, seq<N>>, cycle: Option<seq<N>>, path0: seq<N>)
      reads this
    {
      match spec
      case Ok(s) => cycle.None? && Valid(adj) && path == path0 && result == s
      case Err(c) => cycle == Some(c)
    }

    constructor (nodes: seq<N>)
      ensures path == [] && result == [] && states == map n | n in nodes :: White
    {
      states := map n | n in nodes :: White;
      path := [];
      result := [];
    }

    /** Visits a white node; `cycle` is the cycle that stopped the search, if one did. */
    method VisitNode(adj: Adjacency<N>, order: N -> seq<N>, from: N) returns (cycle: Option<seq<N>>)
      requires Closed(adj) && Lists(adj, order) && Valid(adj) && from in Unvisited(adj, path, result)
      modifies this
      ensures Did(adj, Visit(adj, order, from, old(path), old(result)), cycle, old(path))
      decreases |Unvisited(adj, path, result)|, 0
    {
      VisitStep(adj, order, from, path, result);
      EnterNode(adj, from);
      cycle := VisitNeighbors(adj, order, order(from));
      if cycle.None? {
        LeaveNode(adj, from, old(path));
      }
    }

    method EnterNode(ghost adj: Adjacency<N>, from: N)
      requires Valid(adj) && from in Unvisited(adj, path, result)
      modifies this
      ensures Valid(adj) && path == old(path) + [from] && result == old(result)
    {
      Enter(adj, states, path, result, from);
      states := states[from := Grey];
      path := path + [from];
    }

    method LeaveNode(ghost adj: Adjacency<N>, from: N, ghost path0: seq<N>)
      requires Valid(adj) && path == path0 + [from] && from !in path0
      modifies this
      ensures Valid(adj) && path == path0 && result == [from] + old(result)
    {
      Leave(adj, states, path0, result, from);
      states := states[from := Black];
      path := path[..|path| - 1];
      result := [from] + result;
    }

    /** Visits the white ones of `ns`. */
    method VisitNeighbors(adj: Adjacency<N>, order: N -> seq<N>, ns: seq<N>) returns (cycle: Option<seq<N>>)
      requires Closed(adj) && Lists(adj, order) && Valid(adj) && forall n | n in ns :: n in adj
      modifies this
      ensures Did(adj, VisitEach(adj, order, ns, old(path), old(result)), cycle, old(path))
      decreases |Unvisited(adj, path, result)|, 2
    {
      ghost var spec := VisitEach(adj, order, ns, path, result);
      RemainsStart(adj, order, ns, path, result);
      var i := 0;
      while i < |ns|
        invariant 0 <= i <= |ns| && Valid(adj) && path == old(path) && Extends(old(result), result)
        invariant Remains(adj, order, ns, i, path, result, spec)
      {
        cycle := VisitNext(adj, order, ns, i, old(result), spec);
        if cycle.Some? {
          return;
        }
        i := i + 1;
      }
      assert ns[|ns|..] == [];
      cycle := None;
    }

    /** Visits `ns[i]` if it is white. */
    method VisitNext(adj: Adjacency<N>, order: N -> seq<N>, ns: seq<N>, i: nat, ghost result0: seq<N>,
                     ghost spec: Result<seq<N>, seq<N>>)
      returns (cycle: Option<seq<N>>)
      requires Valid(adj) && Remains(adj, order, ns, i, path, result, spec) && i < |ns| && Extends(result0, result)
      modifies this
      ensures cycle.Some? ==> spec == Err(cycle.value)
      ensures cycle.None? ==>
        Valid(adj) && path == old(path) && Extends(result0, result)
            && Remains(adj, order, ns, i + 1, path, result, spec)
      decreases |Unvisited(adj, path, result0)|, 1
    {
      var to := ns[i];
      RemainsStep(adj, order, ns, i, path, result, spec);
      cycle := None;
      if states[to] == White {
        UnvisitedMonotone(adj, path, result0, result);
        cycle := VisitNode(adj, order, to);
        if cycle.None? {
          ExtendsTrans(result0, old(result), result);
        }
      } else if states[to] == Grey {
        cycle := Some(path[IndexOf(path, to)..]);
      }
    }
  }

  class Graph<N(==, !new)> {
    var nodes: Adjacency<N>

    ghost predicate Valid()
      reads this
    {
      Closed(nodes)
    }

    constructor ()
      ensures Valid() && nodes == Build([])
    {
      nodes := map[];
    }

    method AddNode(n: N)
      requires Valid()
      modifies this
      ensures Valid() && nodes == Apply(old(nodes), Node(n))
    {
      if n in nodes {
        return;
      }
      nodes := nodes[n := {}];
    }

    method AddEdge(from: N, to: N)
      requires Valid()
      modifies this
      ensures Valid() && nodes == Apply(old(nodes), Edge(from, to))
    {
      AddNode(from);
      AddNode(to);
      nodes := nodes[from := nodes[from] + {to}];
    }

    /** Orders the nodes; `roots` and `order` are the sequences in which the nodes and each node's
        neighbours are met. Starting from each node not yet visited is what visiting neighbours
        does on an empty path. */
    method OrderBy(order: N -> seq<N>, roots: seq<N>) returns (r: Result<seq<N>, seq<N>>)
      requires Valid() && Lists(nodes, order) && ListsSet(roots, nodes.Keys)
      ensures r == VisitAll(nodes, order, roots)
      ensures if r.Ok? then IsTopologicalOrder(nodes, r.value) else IsCycle(nodes, r.error)
      ensures r.Ok? <==> Acyclic(nodes)
    {
      var search := new Search(roots);
      var cycle := search.VisitNeighbors(nodes, order, roots);
      SearchDecides(nodes, order, roots);
      r := if cycle.Some? then Err(cycle.value) else Ok(search.result);
    }

    /** Orders the nodes, whatever the orders in which they and their neighbours are met. */
    method TopologicalOrder(order: N -> seq<N>, roots: seq<N>) returns (r: Result<seq<N>, seq<N>>)
      requires Valid() && Lists(nodes, order) && ListsSet(roots, nodes.Keys)
      ensures if r.Ok? then IsTopologicalOrder(nodes, r.value) else IsCycle(nodes, r.error)
      ensures r.Ok? <==> Acyclic(nodes)
    {
      r := OrderBy(order, roots);
    }

    method StableTopologicalOrder(leq: (N, N) -> bool) returns (r: Result<seq<N>, seq<N>>)
      requires Valid() && TotalOrder(leq)
      ensures r == StableOrder(leq, nodes)
      ensures if r.Ok? then IsTopologicalOrder(nodes, r.value) else IsCycle(nodes, r.error)
      ensures r.Ok? <==> Acyclic(nodes)
    {
      var roots := Sorted(leq, nodes.Keys);
      r := OrderBy(StableNeighbors(leq, nodes), roots);
    }

    /** Every edge points backward. */
    method StableReverseTopologicalOrder(leq: (N, N) -> bool) returns (r: Result<seq<N>, seq<N>>)
      requires Valid() && TotalOrder(leq)
      ensures r == StableReverseOrder(leq, nodes)
      ensures if r.Ok? then IsTopologicalOrder(nodes, Reversed(r.value)) else IsCycle(nodes, r.error)
      ensures r.Ok? <==> Acyclic(nodes)
    {
      r := StableTopologicalOrder(leq);
      if r.Ok? {
        ReversedTwice(r.value);
        r := Ok(Reversed(r.value));
      }
    }
  }

  function Reversed<N>(s: seq<N>): seq<N> {
    seq(|s|, i requires 0 <= i < |s| => s[|s| - 1 - i])
  }

  lemma ReversedTwice<N>(s: seq<N>)
    ensures Reversed(Reversed(s)) == s
  {
  }

  function StableReverseOrder<N(!new)>(leq: (N, N) -> bool, adj: Adjacency<N>): Result<seq<N>, seq<N>>
    requires TotalOrder(leq) && Closed(adj)
  {
    match StableOrder(leq, adj)
    case Ok(s) => Ok(Reversed(s))
    case Err(c) => Err(c)
  }
}
