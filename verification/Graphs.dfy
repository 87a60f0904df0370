/** Directed graphs and their topological orderings.

    `Visit`, `VisitEach` and `VisitAll` state the depth-first search on values: the nodes being
    visited are those on `path`, the visited ones those in `result`. The classes below run the
    same search on a map of colours, a path and a result that are updated in place. */
module Graphs {
  import opened Wrappers
  import opened Sorting

  type Adjacency<N(==)> = map<N, set<N>>

  ghost predicate Closed<N(!new)>(adj: Adjacency<N>) {
    forall n | n in adj :: adj[n] <= adj.Keys
  }

  /** `order` enumerates the neighbours of every node. */
  ghost predicate Lists<N(!new)>(adj: Adjacency<N>, order: N -> seq<N>) {
    forall n | n in adj :: ListsSet(order(n), adj[n])
  }

  ghost predicate ListsSet<N(!new)>(s: seq<N>, all: set<N>) {
    forall m :: m in s <==> m in all
  }

  function Elements<N>(s: seq<N>): set<N> { set x | x in s }

  function Unvisited<N>(adj: Adjacency<N>, path: seq<N>, result: seq<N>): set<N> {
    adj.Keys - Elements(path) - Elements(result)
  }

  /** `b` ends in `a`. */
  predicate Extends<N(==)>(a: seq<N>, b: seq<N>) {
    |a| <= |b| && b[|b| - |a|..] == a
  }

  /** The first position of `x` in `s`. */
  function IndexOf<N(==)>(s: seq<N>, x: N): (i: nat)
    requires x in s
    ensures i < |s| && s[i] == x && x !in s[..i]
  {
    if s[0] == x then 0 else 1 + IndexOf(s[1..], x)
  }

  // ------------------------------------------------------------------------
  // The search

  lemma UnvisitedShrinks<N>(adj: Adjacency<N>, from: N, path: seq<N>, result: seq<N>)
    requires from in Unvisited(adj, path, result)
    ensures |Unvisited(adj, path + [from], result)| < |Unvisited(adj, path, result)|
  {
    assert Unvisited(adj, path + [from], result) == Unvisited(adj, path, result) - {from};
  }

  lemma UnvisitedMonotone<N>(adj: Adjacency<N>, path: seq<N>, result: seq<N>, more: seq<N>)
    requires Extends(result, more)
    ensures |Unvisited(adj, path, more)| <= |Unvisited(adj, path, result)|
  {
    assert forall x | x in result :: x in more;
    var a, b := Unvisited(adj, path, more), Unvisited(adj, path, result);
    assert b == a + (b - a);
  }

  /** Visits `from`, which has not been visited; returns the grown result or the cycle found. */
  function Visit<N(!new)>(adj: Adjacency<N>, order: N -> seq<N>, from: N, path: seq<N>,
                          result: seq<N>): (r: Result<seq<N>, seq<N>>)
    requires Closed(adj) && Lists(adj, order) && from in Unvisited(adj, path, result)
    ensures r.Ok? ==> Extends(result, r.value)
    decreases |Unvisited(adj, path, result)|, 0
  {
    UnvisitedShrinks(adj, from, path, result);
    assert ListsSet(order(from), adj[from]);
    var r :- VisitEach(adj, order, order(from), path + [from], result);
    Ok([from] + r)
  }

  /** Visits those of `ns` that have not been visited. */
  function VisitEach<N(!new)>(adj: Adjacency<N>, order: N -> seq<N>, ns: seq<N>, path: seq<N>,
                              result: seq<N>): (r: Result<seq<N>, seq<N>>)
    requires Closed(adj) && Lists(adj, order) && forall n | n in ns :: n in adj
    ensures r.Ok? ==> Extends(result, r.value)
    decreases |Unvisited(adj, path, result)|, |ns|
  {
    if ns == [] then Ok(result)
    else if ns[0] in path then Err(path[IndexOf(path, ns[0])..])
    else if ns[0] in result then VisitEach(adj, order, ns[1..], path, result)
    else
      var r :- Visit(adj, order, ns[0], path, result);
      UnvisitedMonotone(adj, path, result, r);
      VisitEach(adj, order, ns[1..], path, r)
  }

  /** Starts a search from each of `roots` that the searches before it did not reach. */
  function VisitAll<N(!new)>(adj: Adjacency<N>, order: N -> seq<N>, roots: seq<N>): (r: Result<seq<N>, seq<N>>)
    requires Closed(adj) && Lists(adj, order) && forall n | n in roots :: n in adj
  {
    VisitEach(adj, order, roots, [], [])
  }

  // ------------------------------------------------------------------------
  // What a search returns

  ghost predicate Distinct<N>(s: seq<N>) {
    forall i, j | 0 <= i < j < |s| :: s[i] != s[j]
  }

  ghost predicate IsWalk<N(!new)>(adj: Adjacency<N>, s: seq<N>) {
    && (forall i | 0 <= i < |s| :: s[i] in adj)
    && (forall i | 0 <= i < |s| - 1 :: s[i + 1] in adj[s[i]])
  }

  /** A walk whose last node leads back to its first. */
  ghost predicate IsCycle<N(!new)>(adj: Adjacency<N>, s: seq<N>) {
    s != [] && IsWalk(adj, s) && s[0] in adj[Last(s)]
  }

  /** Every edge from a node of `s` leads to a later node of `s`. */
  ghost predicate Forward<N(!new)>(adj: Adjacency<N>, s: seq<N>) {
    forall i | 0 <= i < |s| :: s[i] in adj && forall m | m in adj[s[i]] :: m in s[i + 1..]
  }

  /** All nodes, each once, with every edge pointing forward. */
  ghost predicate IsTopologicalOrder<N(!new)>(adj: Adjacency<N>, s: seq<N>) {
    Distinct(s) && ListsSet(s, adj.Keys) && Forward(adj, s)
  }

  ghost predicate Acyclic<N(!new)>(adj: Adjacency<N>) {
    forall s :: !IsCycle(adj, s)
  }

  /** The search is in the middle of `path` and has finished `result`. */
  ghost predicate Searching<N(!new)>(adj: Adjacency<N>, path: seq<N>, result: seq<N>) {
    && IsWalk(adj, path) && Distinct(result) && Forward(adj, result)
    && (forall x | x in path :: x !in result)
  }

  ghost predicate Found<N(!new)>(adj: Adjacency<N>, path: seq<N>, ns: seq<N>, r: Result<seq<N>, seq<N>>) {
    match r
    case Ok(s) => Searching(adj, path, s) && forall n | n in ns :: n in s
    case Err(c) => IsCycle(adj, c)
  }

  lemma WalkFront<N(!new)>(adj: Adjacency<N>, path: seq<N>, n: N)
    requires IsWalk(adj, path + [n])
    ensures IsWalk(adj, path)
  {
    var path1 := path + [n];
    assert forall i | 0 <= i < |path| :: path[i] == path1[i];
    forall i | 0 <= i < |path| - 1 ensures path[i + 1] in adj[path[i]] {
      assert path1[i + 1] in adj[path1[i]];
    }
  }

  lemma StartNode<N(!new)>(adj: Adjacency<N>, from: N, path: seq<N>, result: seq<N>)
    requires Searching(adj, path, result) && from in adj && from !in result && (path != [] ==> from in adj[Last(path)])
    ensures Searching(adj, path + [from], result)
  {
    var path1 := path + [from];
    assert forall i | 0 <= i < |path| :: path[i] == path1[i];
  }

  lemma FinishNode<N(!new)>(adj: Adjacency<N>, from: N, path: seq<N>, s: seq<N>)
    requires Searching(adj, path + [from], s) && from in adj && (forall m | m in adj[from] :: m in s) && from !in path
    ensures Searching(adj, path, [from] + s)
  {
    var path1, s1 := path + [from], [from] + s;
    WalkFront(adj, path, from);
    assert (forall x | x in path :: x in path1) && from in path1;
    forall i | 0 <= i < |s1| ensures s1[i] in adj && forall m | m in adj[s1[i]] :: m in s1[i + 1..] {
      if i > 0 {
        assert s1[i] == s[i - 1] && s1[i + 1..] == s[i..];
      } else {
        assert s1[1..] == s;
      }
    }
  }

  lemma {:induction false} VisitSound<N(!new)>(adj: Adjacency<N>, order: N -> seq<N>, from: N, path: seq<N>,
                                               result: seq<N>)
    requires Closed(adj) && Lists(adj, order) && from in Unvisited(adj, path, result)
    requires Searching(adj, path, result) && (path != [] ==> from in adj[Last(path)])
    ensures Found(adj, path, [from], Visit(adj, order, from, path, result))
    decreases |Unvisited(adj, path, result)|, 0
  {
    UnvisitedShrinks(adj, from, path, result);
    StartNode(adj, from, path, result);
    assert ListsSet(order(from), adj[from]);
    EachSound(adj, order, order(from), path + [from], result);
    var r := VisitEach(adj, order, order(from), path + [from], result);
    if r.Ok? {
      FinishNode(adj, from, path, r.value);
    }
  }

  lemma {:induction false} EachSound<N(!new)>(adj: Adjacency<N>, order: N -> seq<N>, ns: seq<N>, path: seq<N>,
                                              result: seq<N>)
    requires Closed(adj) && Lists(adj, order) && forall n | n in ns :: n in adj
    requires Searching(adj, path, result) && (path != [] ==> forall n | n in ns :: n in adj[Last(path)])
    ensures Found(adj, path, ns, VisitEach(adj, order, ns, path, result))
    decreases |Unvisited(adj, path, result)|, |ns|
  {
    if ns != [] {
      var n, rest := ns[0], ns[1..];
      if n in path {
        CycleFound(adj, path, n);
      } else if n in result {
        EachSound(adj, order, rest, path, result);
        Covers(adj, order, n, rest, path, result);
      } else {
        VisitSound(adj, order, n, path, result);
        var r := Visit(adj, order, n, path, result);
        if r.Ok? {
          assert n in [n];
          UnvisitedMonotone(adj, path, result, r.value);
          EachSound(adj, order, rest, path, r.value);
          Covers(adj, order, n, rest, path, r.value);
        }
      }
    }
  }

  lemma {:induction false} Covers<N(!new)>(adj: Adjacency<N>, order: N -> seq<N>, n: N, rest: seq<N>, path: seq<N>,
                                           result: seq<N>)
    requires Closed(adj) && Lists(adj, order) && forall m | m in rest :: m in adj
    requires n in result && Found(adj, path, rest, VisitEach(adj, order, rest, path, result))
    ensures Found(adj, path, [n] + rest, VisitEach(adj, order, rest, path, result))
  {
    var r := VisitEach(adj, order, rest, path, result);
    if r.Ok? {
      assert forall x | x in result :: x in r.value;
    }
  }

  lemma CycleFound<N(!new)>(adj: Adjacency<N>, path: seq<N>, n: N)
    requires IsWalk(adj, path) && n in path && n in adj[Last(path)]
    ensures IsCycle(adj, path[IndexOf(path, n)..])
  {
    var k := IndexOf(path, n);
    var c := path[k..];
    assert forall i | 0 <= i < |c| :: c[i] == path[k + i];
    forall i | 0 <= i < |c| - 1 ensures c[i + 1] in adj[c[i]] {
      assert path[k + i + 1] in adj[path[k + i]];
    }
  }

  /** The position of `x` in a list without repetition. */
  lemma {:induction false} EdgeAdvances<N(!new)>(adj: Adjacency<N>, s: seq<N>, a: N, b: N)
    requires IsTopologicalOrder(adj, s) && a in adj && b in adj[a]
    ensures a in s && b in s && IndexOf(s, a) < IndexOf(s, b)
  {
    var i := IndexOf(s, a);
    assert b in s[i + 1..];
    var k :| 0 <= k < |s[i + 1..]| && s[i + 1..][k] == b;
    var j := IndexOf(s, b);
    assert s[j] == s[i + 1 + k];
    assert !(j < i + 1 + k) && !(i + 1 + k < j);
  }

  lemma {:induction false} WalkAdvances<N(!new)>(adj: Adjacency<N>, s: seq<N>, w: seq<N>)
    requires IsTopologicalOrder(adj, s) && IsWalk(adj, w) && w != []
    ensures w[0] in s && Last(w) in s && IndexOf(s, w[0]) <= IndexOf(s, Last(w))
  {
    if |w| > 1 {
      var front := Front(w);
      assert w == front + [Last(w)];
      WalkFront(adj, front, Last(w));
      WalkAdvances(adj, s, front);
      EdgeAdvances(adj, s, w[|w| - 2], w[|w| - 1]);
    }
  }

  lemma {:induction false} NoCycle<N(!new)>(adj: Adjacency<N>, s: seq<N>, c: seq<N>)
    requires IsTopologicalOrder(adj, s)
    ensures !IsCycle(adj, c)
  {
    if c != [] && IsWalk(adj, c) {
      WalkAdvances(adj, s, c);
      var last := Last(c);
      if c[0] in adj[last] {
        EdgeAdvances(adj, s, last, c[0]);
      }
    }
  }

  lemma OrderExcludesCycles<N(!new)>(adj: Adjacency<N>, s: seq<N>)
    requires IsTopologicalOrder(adj, s)
    ensures Acyclic(adj)
  {
    forall c ensures !IsCycle(adj, c) {
      NoCycle(adj, s, c);
    }
  }

  /** Whatever order nodes and neighbours are taken in: the search returns all nodes with every
      edge forward, or a cycle of the graph; it fails exactly when there is one. */
  lemma SearchDecides<N(!new)>(adj: Adjacency<N>, order: N -> seq<N>, roots: seq<N>)
    requires Closed(adj) && Lists(adj, order) && ListsSet(roots, adj.Keys)
    ensures
      match VisitAll(adj, order, roots)
      case Ok(s) => IsTopologicalOrder(adj, s)
      case Err(c) => IsCycle(adj, c)
    ensures VisitAll(adj, order, roots).Ok? <==> Acyclic(adj)
  {
    EachSound(adj, order, roots, [], []);
    var r := VisitAll(adj, order, roots);
    if r.Ok? {
      assert IsTopologicalOrder(adj, r.value) by {
        assert forall n | n in adj :: n in r.value;
      }
      OrderExcludesCycles(adj, r.value);
    }
  }

  // ------------------------------------------------------------------------
  // The stable ordering

  function StableNeighbors<N(!new)>(leq: (N, N) -> bool, adj: Adjacency<N>): N -> seq<N>
    requires TotalOrder(leq)
  {
    (n: N) => if n in adj then Sorted(leq, adj[n]) else []
  }

  /** The ordering that takes nodes and neighbours in ascending order. */
  function StableOrder<N(!new)>(leq: (N, N) -> bool, adj: Adjacency<N>): Result<seq<N>, seq<N>>
    requires TotalOrder(leq) && Closed(adj)
  {
    VisitAll(adj, StableNeighbors(leq, adj), Sorted(leq, adj.Keys))
  }

  /** One way a graph is built. */
  datatype Edit<N> = Node(n: N) | Edge(from: N, to: N)

  function WithNode<N>(adj: Adjacency<N>, n: N): Adjacency<N> {
    if n in adj then adj else adj[n := {}]
  }

  function WithEdge<N>(adj: Adjacency<N>, from: N, to: N): Adjacency<N> {
    var adj1 := WithNode(WithNode(adj, from), to);
    adj1[from := adj1[from] + {to}]
  }

  function Apply<N>(adj: Adjacency<N>, edit: Edit<N>): Adjacency<N> {
    match edit
    case Node(n) => WithNode(adj, n)
    case Edge(a, b) => WithEdge(adj, a, b)
  }

  function Build<N>(edits: seq<Edit<N>>): Adjacency<N> {
    if edits == [] then map[] else Apply(Build(Front(edits)), Last(edits))
  }

  ghost predicate Mentions<N>(edits: seq<Edit<N>>, n: N) {
    exists e | e in edits :: MentionsIn(e, n)
  }

  predicate MentionsIn<N(==)>(e: Edit<N>, n: N) {
    match e
    case Node(m) => m == n
    case Edge(a, b) => a == n || b == n
  }

  ghost predicate HasEdge<N>(adj: Adjacency<N>, a: N, b: N) { a in adj && b in adj[a] }

  /** `adj` holds exactly the nodes and edges of `edits`. */
  ghost predicate Holds<N(!new)>(adj: Adjacency<N>, edits: seq<Edit<N>>) {
    && (forall n :: n in adj <==> Mentions(edits, n))
    && (forall a, b :: HasEdge(adj, a, b) <==> Edge(a, b) in edits)
  }

  lemma MentionsSnoc<N(!new)>(edits: seq<Edit<N>>, e: Edit<N>, n: N)
    ensures Mentions(edits + [e], n) <==> Mentions(edits, n) || MentionsIn(e, n)
  {
    assert forall x :: x in edits + [e] <==> x in edits || x == e;
  }

  lemma ApplyEdges<N(!new)>(adj: Adjacency<N>, e: Edit<N>, a: N, b: N)
    ensures HasEdge(Apply(adj, e), a, b) <==> HasEdge(adj, a, b) || e == Edge(a, b)
  {
  }

  lemma {:induction false} BuildContents<N(!new)>(edits: seq<Edit<N>>)
    ensures Closed(Build(edits)) && Holds(Build(edits), edits)
  {
    if edits != [] {
      var front, e := Front(edits), Last(edits);
      BuildContents(front);
      assert edits == front + [e];
      var adj := Build(edits);
      forall n ensures n in adj <==> Mentions(edits, n) {
        MentionsSnoc(front, e, n);
      }
      forall a, b ensures HasEdge(adj, a, b) <==> Edge(a, b) in edits {
        ApplyEdges(Build(front), e, a, b);
      }
      ApplyCloses(Build(front), e);
    }
  }

  lemma ApplyCloses<N(!new)>(adj: Adjacency<N>, e: Edit<N>)
    requires Closed(adj)
    ensures Closed(Apply(adj, e))
  {
  }

  /** The stable ordering, and the cycle it reports, depend on which nodes and edges were added
      and on nothing else: neither on how often nor in which order. */
  lemma {:induction false} StableOrderIgnoresHistory<N(!new)>(leq: (N, N) -> bool, a: seq<Edit<N>>, b: seq<Edit<N>>)
    requires TotalOrder(leq)
    requires forall n :: Mentions(a, n) <==> Mentions(b, n)
    requires forall x, y :: Edge(x, y) in a <==> Edge(x, y) in b
    ensures Closed(Build(a)) && Closed(Build(b)) && StableOrder(leq, Build(a)) == StableOrder(leq, Build(b))
  {
    BuildContents(a);
    BuildContents(b);
    forall n | n in Build(a) ensures Build(a)[n] == Build(b)[n] {
      forall m ensures m in Build(a)[n] <==> m in Build(b)[n] {
        assert HasEdge(Build(a), n, m) <==> HasEdge(Build(b), n, m);
      }
    }
    assert Build(a) == Build(b);
  }
}
