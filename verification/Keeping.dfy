/** Which files are needed, and the order they are given out in. */
module Keeping {
  import opened Wrappers
  import opened Sorting
  import opened Visibility
  import opened Graphs
  import opened TopologicalOrdering

  const WELL_KNOWN_FILES: set<string> := {
    "google/protobuf/any.proto", "google/protobuf/api.proto", "google/protobuf/duration.proto",
    "google/protobuf/empty.proto", "google/protobuf/field_mask.proto", "google/protobuf/source_context.proto",
    "google/protobuf/struct.proto", "google/protobuf/timestamp.proto", "google/protobuf/type.proto",
    "google/protobuf/wrappers.proto", "google/protobuf/descriptor.proto"
  }

  predicate Imports(files: Files, a: string, b: string) { a in files && b in files[a].dependency }

  ghost predicate IsImportChain(files: Files, p: seq<string>, a: string, b: string) {
    p != [] && p[0] == a && Last(p) == b && forall k | 0 <= k < |p| - 1 :: Imports(files, p[k], p[k + 1])
  }

  /** `a` imports `b`, directly or not, or is `b`. */
  ghost predicate Leads(files: Files, a: string, b: string) { exists p :: IsImportChain(files, p, a, b) }

  predicate Holds(f: FileState) { f.messageType != [] || f.enumType != [] }

  /** Some file that holds a message or an enum leads to `p`. */
  ghost predicate Needed(files: Files, p: string) {
    exists a | a in files && Holds(files[a]) :: Leads(files, a, p)
  }

  lemma LeadsToItself(files: Files, a: string)
    ensures Leads(files, a, a)
  {
    assert IsImportChain(files, [a], a, a);
  }

  lemma LeadsOn(files: Files, a: string, b: string, c: string)
    requires Leads(files, a, b) && Imports(files, b, c)
    ensures Leads(files, a, c)
  {
    var p :| IsImportChain(files, p, a, b);
    var q := p + [c];
    forall k | 0 <= k < |q| - 1 ensures Imports(files, q[k], q[k + 1]) {
      if k < |p| - 1 {
        assert Imports(files, p[k], p[k + 1]);
      }
    }
    assert IsImportChain(files, q, a, c);
  }

  lemma NeededOn(files: Files, a: string, b: string)
    requires Needed(files, a) && Imports(files, a, b)
    ensures Needed(files, b)
  {
    var r :| r in files && Holds(files[r]) && Leads(files, r, a);
    LeadsOn(files, r, a, b);
  }

  /** Every import of a kept file is kept. */
  ghost predicate ClosedOver(files: Files, kept: set<string>) {
    forall a, b | a in kept && Imports(files, a, b) :: b in kept
  }

  lemma {:induction false} ChainKept(files: Files, kept: set<string>, p: seq<string>, a: string, b: string)
    requires ClosedOver(files, kept) && IsImportChain(files, p, a, b) && a in kept
    ensures b in kept
    decreases |p|
  {
    if |p| > 1 {
      var q := Front(p);
      forall k | 0 <= k < |q| - 1 ensures Imports(files, q[k], q[k + 1]) {
        assert Imports(files, p[k], p[k + 1]);
      }
      ChainKept(files, kept, q, a, Last(q));
      assert Imports(files, p[|p| - 2], p[|p| - 1]);
    }
  }

  /** Since `kept0`, needed files were added, whose imports are kept too. */
  ghost predicate KeptMore(files: Files, kept0: set<string>, kept: set<string>) {
    && kept0 <= kept
    && (forall q | q in kept - kept0 :: Needed(files, q))
    && (forall a, b | a in kept - kept0 && Imports(files, a, b) :: b in kept)
  }

  lemma KeptMoreTrans(files: Files, kept0: set<string>, kept1: set<string>, kept2: set<string>)
    requires KeptMore(files, kept0, kept1) && KeptMore(files, kept1, kept2)
    ensures KeptMore(files, kept0, kept2)
  {
    forall a, b | a in kept2 - kept0 && Imports(files, a, b) ensures b in kept2 {
      assert a in kept1 - kept0 || a in kept2 - kept1;
    }
  }

  /** Marks `path` and all that it imports. */
  method Keep(files: Files, path: string, kept: set<string>) returns (kept1: set<string>)
    requires Needed(files, path)
    ensures KeptMore(files, kept, kept1) && path in kept1
    decreases |files.Keys - kept|, 1
  {
    if path in kept {
      return kept;
    }
    kept1 := kept + {path};
    if path in files {
      assert files.Keys - kept1 == files.Keys - kept - {path};
      var deps := files[path].dependency;
      for i := 0 to |deps|
        invariant KeptMore(files, kept + {path}, kept1)
        invariant forall j | 0 <= j < i :: deps[j] in kept1
      {
        NeededOn(files, path, deps[i]);
        ghost var before := kept1;
        FewerLeft(files, kept + {path}, kept1);
        kept1 := Keep(files, deps[i], kept1);
        KeptMoreTrans(files, kept + {path}, before, kept1);
      }
    }
    PathKept(files, path, kept, kept1);
  }

  lemma FewerLeft(files: Files, kept0: set<string>, kept: set<string>)
    requires kept0 <= kept
    ensures |files.Keys - kept| <= |files.Keys - kept0|
  {
    var a, b := files.Keys - kept0, files.Keys - kept;
    assert a == b + (a - b);
  }

  lemma PathKept(files: Files, path: string, kept: set<string>, kept1: set<string>)
    requires KeptMore(files, kept + {path}, kept1) && Needed(files, path)
    requires path in files ==> forall d | d in files[path].dependency :: d in kept1
    ensures KeptMore(files, kept, kept1)
  {
    forall a, b | a in kept1 - kept && Imports(files, a, b) ensures b in kept1 {
      if a != path {
        assert a in kept1 - (kept + {path});
      }
    }
  }

  /** Marks the files that hold something, and all that they import: just the needed ones. */
  method KeepNeeded(files: Files) returns (kept: set<string>)
    ensures forall p :: p in kept <==> Needed(files, p)
  {
    var todo := files.Keys;
    kept := {};
    while todo != {}
      invariant todo <= files.Keys && KeptMore(files, {}, kept)
      invariant forall p | p in files && p !in todo && Holds(files[p]) :: p in kept
      decreases |todo|
    {
      var path :| path in todo;
      if Holds(files[path]) {
        LeadsToItself(files, path);
        ghost var before := kept;
        kept := Keep(files, path, kept);
        KeptMoreTrans(files, {}, before, kept);
      }
      todo := todo - {path};
    }
    forall p ensures p in kept <==> Needed(files, p) {
      NeededKept(files, kept, p);
    }
  }

  lemma NeededKept(files: Files, kept: set<string>, p: string)
    requires KeptMore(files, {}, kept) && forall a | a in files && Holds(files[a]) :: a in kept
    ensures p in kept <==> Needed(files, p)
  {
    if Needed(files, p) {
      var a :| a in files && Holds(files[a]) && Leads(files, a, p);
      var c :| IsImportChain(files, c, a, p);
      ChainKept(files, kept, c, a, p);
    }
  }

  // ------------------------------------------------------------------------
  // Sorting

  /** An edge leads from each import, if it is among the files, to the importing file. */
  ghost predicate ImportGraph(adj: Adjacency<string>, files: Files, done: set<string>) {
    && adj.Keys <= files.Keys && done <= adj.Keys
    && forall a, b :: HasEdge(adj, a, b) <==> b in done && a in files && Imports(files, b, a)
  }

  ghost predicate ImportGraphPart(adj: Adjacency<string>, files: Files, done: set<string>, path: string,
                                  deps: seq<string>) {
    && adj.Keys <= files.Keys && done + {path} <= adj.Keys
    && forall a, b ::
          HasEdge(adj, a, b) <==> a in files && ((b in done && Imports(files, b, a)) || (b == path && a in deps))
  }

  lemma EdgeStep(adj: Adjacency<string>, adj1: Adjacency<string>, files: Files, done: set<string>, path: string,
                 deps: seq<string>, d: string)
    requires ImportGraphPart(adj, files, done, path, deps) && path in files
    requires adj1 == if d in files then Apply(adj, Edge(d, path)) else adj
    ensures ImportGraphPart(adj1, files, done, path, deps + [d])
  {
    forall a, b
      ensures HasEdge(adj1, a, b)
          <==> a in files && ((b in done && Imports(files, b, a)) || (b == path && a in deps + [d])) {
      if d in files {
        ApplyEdges(adj, Edge(d, path), a, b);
      }
    }
  }

  lemma EdgesStart(adj: Adjacency<string>, files: Files, done: set<string>, path: string)
    requires ImportGraph(adj, files, done) && path in files
    ensures ImportGraphPart(Apply(adj, Node(path)), files, done, path, [])
  {
    forall a, b ensures HasEdge(Apply(adj, Node(path)), a, b) <==> HasEdge(adj, a, b) {
      ApplyEdges(adj, Node(path), a, b);
    }
  }

  method AddFile(g: Graph<string>, files: Files, ghost done: set<string>, path: string)
    requires g.Valid() && path in files && path !in done && ImportGraph(g.nodes, files, done)
    modifies g
    ensures g.Valid() && ImportGraph(g.nodes, files, done + {path})
  {
    EdgesStart(g.nodes, files, done, path);
    g.AddNode(path);
    var deps := files[path].dependency;
    for i := 0 to |deps|
      invariant g.Valid() && ImportGraphPart(g.nodes, files, done, path, deps[..i])
    {
      ghost var adj := g.nodes;
      if deps[i] in files {
        g.AddEdge(deps[i], path);
      }
      EdgeStep(adj, g.nodes, files, done, path, deps[..i], deps[i]);
      assert deps[..i + 1] == deps[..i] + [deps[i]];
    }
    assert deps[..|deps|] == deps;
  }

  method FileGraph(files: Files) returns (g: Graph<string>)
    ensures fresh(g) && g.Valid() && ImportGraph(g.nodes, files, files.Keys)
  {
    g := new Graph();
    var todo := files.Keys;
    while todo != {}
      invariant fresh(g) && g.Valid() && todo <= files.Keys && ImportGraph(g.nodes, files, files.Keys - todo)
      decreases |todo|
    {
      var path :| path in todo;
      AddFile(g, files, files.Keys - todo, path);
      assert files.Keys - todo + {path} == files.Keys - (todo - {path});
      todo := todo - {path};
    }
    assert files.Keys - todo == files.Keys;
  }

  /** Each file comes after the files it imports, as far as they are there. */
  ghost predicate ImportsFirst(files: Files, paths: seq<string>) {
    forall i, d | 0 <= i < |paths| && Imports(files, paths[i], d) && d in files :: d in paths[..i]
  }

  lemma {:induction false} WalkClimbs(files: Files, rank: string -> nat, adj: Adjacency<string>, w: seq<string>)
    requires Ranked(files, rank) && ImportGraph(adj, files, files.Keys) && IsWalk(adj, w) && w != []
    ensures rank(w[0]) <= rank(Last(w))
  {
    if |w| > 1 {
      assert w == Front(w) + [Last(w)];
      WalkFront(adj, Front(w), Last(w));
      WalkClimbs(files, rank, adj, Front(w));
      EdgeClimbs(files, rank, adj, w[|w| - 2], w[|w| - 1]);
    }
  }

  lemma EdgeClimbs(files: Files, rank: string -> nat, adj: Adjacency<string>, a: string, b: string)
    requires Ranked(files, rank) && ImportGraph(adj, files, files.Keys) && HasEdge(adj, a, b)
    ensures rank(a) < rank(b)
  {
    assert Imports(files, b, a);
  }

  /** Files whose imports are ranked can be sorted. */
  lemma ImportsAcyclic(files: Files, rank: string -> nat, adj: Adjacency<string>)
    requires Ranked(files, rank) && ImportGraph(adj, files, files.Keys)
    ensures Acyclic(adj)
  {
    forall c ensures !IsCycle(adj, c) {
      if c != [] && IsWalk(adj, c) {
        WalkClimbs(files, rank, adj, c);
        var last := Last(c);
        if c[0] in adj[last] {
          EdgeClimbs(files, rank, adj, last, c[0]);
        }
      }
    }
  }

  lemma IndexOfAt<T>(s: seq<T>, i: nat)
    requires Distinct(s) && i < |s|
    ensures IndexOf(s, s[i]) == i
  {
    var j := IndexOf(s, s[i]);
    assert s[j] == s[i];
    assert !(j < i) && !(i < j);
  }

  lemma OrderPutsImportsFirst(files: Files, adj: Adjacency<string>, paths: seq<string>)
    requires ImportGraph(adj, files, files.Keys) && IsTopologicalOrder(adj, paths)
    ensures ImportsFirst(files, paths)
  {
    forall i, d | 0 <= i < |paths| && Imports(files, paths[i], d) && d in files ensures d in paths[..i] {
      assert HasEdge(adj, d, paths[i]);
      EdgeAdvances(adj, paths, d, paths[i]);
      IndexOfAt(paths, i);
      assert paths[..i][IndexOf(paths, d)] == d;
    }
  }

  /** The files in an order that puts imports first. */
  method SortedFileDescriptors(files: Files, ghost rank: string -> nat, leq: (string, string) -> bool)
      returns (paths: seq<string>)
    requires Ranked(files, rank) && TotalOrder(leq)
    ensures Distinct(paths) && ListsSet(paths, files.Keys) && ImportsFirst(files, paths)
  {
    var g := FileGraph(files);
    ImportsAcyclic(files, rank, g.nodes);
    var r := g.StableTopologicalOrder(leq);
    paths := r.value;
    OrderPutsImportsFirst(files, g.nodes, paths);
  }
}
