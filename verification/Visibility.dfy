/** Which files importing a file makes visible, and what pruning imports does to that. */
module Visibility {
  import opened Wrappers

  /** The synthetic file descriptor built for a file: its imports, the positions of the public
      ones, and the top-level messages and enums taken so far. */
  datatype FileState = FileState(dependency: seq<string>, public: seq<nat>, messageType: seq<string>,
      enumType: seq<string>)

  type Files = map<string, FileState>

  /** The files that `f` imports publicly; positions out of range are skipped. */
  function PublicPaths(dependency: seq<string>, public: seq<nat>): (r: seq<string>)
    ensures forall d | d in r :: d in dependency
  {
    if public == [] then []
    else
      PublicPaths(dependency, Front(public))
      + if Last(public) < |dependency| then [dependency[Last(public)]] else []
  }

  function PublicOf(f: FileState): seq<string> { PublicPaths(f.dependency, f.public) }

  /** Imports do not form cycles: they lead to files of smaller rank. */
  ghost predicate Ranked(files: Files, rank: string -> nat) {
    forall p, d | p in files && d in files[p].dependency :: rank(d) < rank(p)
  }

  /** Importing `path` makes the types of `target` visible. */
  function GrantsVisibilityTo(files: Files, ghost rank: string -> nat, path: string, target: string): bool
    requires Ranked(files, rank)
    decreases rank(path)
  {
    path == target || (path in files && exists d | d in PublicOf(files[path]) :: GrantsVisibilityTo(files, rank, d,
        target))
  }

  /** `p` sees `target` through one of its imports. */
  predicate Sees(files: Files, ghost rank: string -> nat, p: string, target: string)
    requires Ranked(files, rank)
  {
    p in files && exists d | d in files[p].dependency :: GrantsVisibilityTo(files, rank, d, target)
  }

  // ------------------------------------------------------------------------
  // Pruning one file

  predicate Keeps(files: Files, ghost rank: string -> nat, required: set<string>, dep: string)
    requires Ranked(files, rank)
  {
    exists t | t in required :: GrantsVisibilityTo(files, rank, dep, t)
  }

  function KeptDeps(files: Files, ghost rank: string -> nat, required: set<string>, deps: seq<string>): (r: seq<string>)
    requires Ranked(files, rank)
    ensures forall d :: d in r <==> d in deps && Keeps(files, rank, required, d)
  {
    if deps == [] then []
    else KeptDeps(files, rank, required, Front(deps)) + if Keeps(files, rank, required, Last(deps)) then [Last(deps)]
          else []
  }

  /** The positions that point to the same imports after pruning; those of dropped imports go. */
  function Remap(files: Files, ghost rank: string -> nat, required: set<string>, deps: seq<string>,
                 public: seq<nat>): seq<nat>
    requires Ranked(files, rank)
  {
    if public == [] then []
    else
      var i := Last(public);
      Remap(files, rank, required, deps, Front(public))
      + if i < |deps| && Keeps(files, rank, required, deps[i]) then [|KeptDeps(files, rank, required, deps[..i])|]
            else []
  }

  /** What a file must see: the files of the types it uses, and what it imports publicly. */
  function Required(used: set<string>, f: FileState): set<string> {
    used + set d | d in PublicOf(f)
  }

  function Pruned(files: Files, ghost rank: string -> nat, used: set<string>, f: FileState): FileState
    requires Ranked(files, rank)
  {
    var required := Required(used, f);
    f.(dependency := KeptDeps(files, rank, required, f.dependency),
        public := Remap(files, rank, required, f.dependency, f.public))
  }

  lemma {:induction false} KeptAt(files: Files, rank: string -> nat, required: set<string>, deps: seq<string>, i: nat)
    requires Ranked(files, rank) && i < |deps| && Keeps(files, rank, required, deps[i])
    ensures |KeptDeps(files, rank, required, deps[..i])| < |KeptDeps(files, rank, required, deps)|
    ensures KeptDeps(files, rank, required, deps)[|KeptDeps(files, rank, required, deps[..i])|] == deps[i]
  {
    if i == |deps| - 1 {
      assert deps[..i] == Front(deps);
    } else {
      KeptAt(files, rank, required, Front(deps), i);
      assert Front(deps)[..i] == deps[..i];
    }
  }

  lemma SnocPublic(deps: seq<string>, public: seq<nat>, i: nat)
    requires i < |deps|
    ensures PublicPaths(deps, public + [i]) == PublicPaths(deps, public) + [deps[i]]
  {
    assert Front(public + [i]) == public;
  }

  /** The remapped positions lead to the same files. */
  lemma {:induction false} RemapKeeps(files: Files, rank: string -> nat, required: set<string>, deps: seq<string>,
                                      public: seq<nat>)
    requires Ranked(files, rank) && forall d | d in PublicPaths(deps, public) :: d in required
    ensures PublicPaths(KeptDeps(files, rank, required, deps), Remap(files, rank, required, deps, public))
            == PublicPaths(deps, public)
  {
    if public != [] {
      var front, i := Front(public), Last(public);
      RemapKeeps(files, rank, required, deps, front);
      if i < |deps| {
        assert deps[i] in PublicPaths(deps, public);
        assert GrantsVisibilityTo(files, rank, deps[i], deps[i]);
        KeptAt(files, rank, required, deps, i);
        SnocPublic(KeptDeps(files, rank, required, deps), Remap(files, rank, required, deps, front),
            |KeptDeps(files, rank, required, deps[..i])|);
      } else {
        assert Remap(files, rank, required, deps, public) == Remap(files, rank, required, deps, front);
        assert PublicPaths(deps, public) == PublicPaths(deps, front);
      }
    }
  }

  /** Pruning a file keeps its public imports, in order. */
  lemma {:induction false} PublicKept(files: Files, rank: string -> nat, used: set<string>, f: FileState)
    requires Ranked(files, rank)
    ensures PublicOf(Pruned(files, rank, used, f)) == PublicOf(f)
  {
    RemapKeeps(files, rank, Required(used, f), f.dependency, f.public);
  }

  // ------------------------------------------------------------------------
  // Visibility depends on public imports alone

  ghost predicate SamePublic(files: Files, files1: Files) {
    files.Keys == files1.Keys && forall p | p in files :: PublicOf(files1[p]) == PublicOf(files[p])
  }

  lemma {:induction false} GrantsSame(files: Files, files1: Files, rank: string -> nat, path: string, target: string)
    requires Ranked(files, rank) && Ranked(files1, rank) && SamePublic(files, files1)
    ensures GrantsVisibilityTo(files, rank, path, target) <==> GrantsVisibilityTo(files1, rank, path, target)
    decreases rank(path)
  {
    if path in files {
      forall d | d in PublicOf(files[path])
        ensures GrantsVisibilityTo(files, rank, d, target) <==> GrantsVisibilityTo(files1, rank, d, target) {
        GrantsSame(files, files1, rank, d, target);
      }
    }
  }

  lemma KeepsSame(files: Files, files1: Files, rank: string -> nat, required: set<string>, dep: string)
    requires Ranked(files, rank) && Ranked(files1, rank) && SamePublic(files, files1)
    ensures Keeps(files, rank, required, dep) <==> Keeps(files1, rank, required, dep)
  {
    forall t | t in required
      ensures GrantsVisibilityTo(files, rank, dep, t) <==> GrantsVisibilityTo(files1, rank, dep, t) {
      GrantsSame(files, files1, rank, dep, t);
    }
  }

  lemma {:induction false} KeptSame(files: Files, files1: Files, rank: string -> nat, required: set<string>,
                                    deps: seq<string>)
    requires Ranked(files, rank) && Ranked(files1, rank) && SamePublic(files, files1)
    ensures KeptDeps(files, rank, required, deps) == KeptDeps(files1, rank, required, deps)
  {
    if deps != [] {
      KeptSame(files, files1, rank, required, Front(deps));
      KeepsSame(files, files1, rank, required, Last(deps));
    }
  }

  lemma {:induction false} RemapSame(files: Files, files1: Files, rank: string -> nat, required: set<string>,
                                     deps: seq<string>, public: seq<nat>)
    requires Ranked(files, rank) && Ranked(files1, rank) && SamePublic(files, files1)
    ensures Remap(files, rank, required, deps, public) == Remap(files1, rank, required, deps, public)
  {
    if public != [] {
      RemapSame(files, files1, rank, required, deps, Front(public));
      if Last(public) < |deps| {
        KeepsSame(files, files1, rank, required, deps[Last(public)]);
        KeptSame(files, files1, rank, required, deps[..Last(public)]);
      }
    }
  }

  /** Visibility leads down the ranks. */
  lemma {:induction false} GrantsDescends(files: Files, rank: string -> nat, path: string, target: string)
    requires Ranked(files, rank) && GrantsVisibilityTo(files, rank, path, target)
    ensures target == path || rank(target) < rank(path)
    decreases rank(path)
  {
    if path != target {
      var d :| d in PublicOf(files[path]) && GrantsVisibilityTo(files, rank, d, target);
      GrantsDescends(files, rank, d, target);
    }
  }

  /** So a file is pruned to the same result whichever other files were pruned before. */
  lemma PrunedSame(files: Files, files1: Files, rank: string -> nat, used: set<string>, f: FileState)
    requires Ranked(files, rank) && Ranked(files1, rank) && SamePublic(files, files1)
    ensures Pruned(files, rank, used, f) == Pruned(files1, rank, used, f)
  {
    KeptSame(files, files1, rank, Required(used, f), f.dependency);
    RemapSame(files, files1, rank, Required(used, f), f.dependency, f.public);
  }

  // ------------------------------------------------------------------------
  // Pruning all files

  /** Every file pruned against the files as they were. */
  function PrunedAll(files: Files, ghost rank: string -> nat, used: map<string, set<string>>): (r: Files)
    requires Ranked(files, rank) && files.Keys <= used.Keys
    ensures r.Keys == files.Keys
  {
    map p | p in files :: Pruned(files, rank, used[p], files[p])
  }

  /** Some files have been pruned, each against the files of the moment. */
  ghost predicate PartlyPruned(files: Files, rank: string -> nat, used: map<string, set<string>>, done: set<string>,
                               now: Files)
    requires Ranked(files, rank) && files.Keys <= used.Keys
  {
    && now.Keys == files.Keys
    && forall p | p in files :: now[p] == if p in done then Pruned(files, rank, used[p], files[p]) else files[p]
  }

  lemma NothingPruned(files: Files, rank: string -> nat, used: map<string, set<string>>, done: set<string>)
    requires Ranked(files, rank) && files.Keys <= used.Keys && done == {}
    ensures PartlyPruned(files, rank, used, done, files)
  {
  }

  lemma AllPruned(files: Files, rank: string -> nat, used: map<string, set<string>>, done: set<string>, now: Files)
    requires Ranked(files, rank) && files.Keys <= used.Keys && PartlyPruned(files, rank, used, done, now)
             && done == files.Keys
    ensures now == PrunedAll(files, rank, used)
  {
  }

  lemma PartlyRanked(files: Files, rank: string -> nat, used: map<string, set<string>>, done: set<string>, now: Files)
    requires Ranked(files, rank) && files.Keys <= used.Keys && PartlyPruned(files, rank, used, done, now)
    ensures Ranked(now, rank) && SamePublic(files, now)
  {
    forall p | p in files
      ensures PublicOf(now[p]) == PublicOf(files[p]) && forall d | d in now[p].dependency :: d in files[p].dependency {
      PublicKept(files, rank, used[p], files[p]);
    }
  }

  lemma PruneStep(files: Files, rank: string -> nat, used: map<string, set<string>>, done: set<string>, now: Files,
                  p: string)
    requires Ranked(files, rank) && files.Keys <= used.Keys && PartlyPruned(files, rank, used, done, now)
    requires p in files && p !in done
    ensures Ranked(now, rank) && now[p] == files[p]
    ensures PartlyPruned(files, rank, used, done + {p}, now[p := Pruned(now, rank, used[p], now[p])])
  {
    PartlyRanked(files, rank, used, done, now);
    PrunedSame(files, now, rank, used[p], files[p]);
  }

  /** Pruning hides nothing that a file uses and shows nothing new; every import that is left
      leads to something the file requires. */
  lemma {:induction false} PruningPreservesVisibility(files: Files, rank: string -> nat, used: map<string, set<string>>,
                                                      p: string)
    requires Ranked(files, rank) && files.Keys <= used.Keys && p in files
    ensures var now := PrunedAll(files, rank, used);
      && Ranked(now, rank)
      && (forall path, target ::
            GrantsVisibilityTo(now, rank, path, target) <==> GrantsVisibilityTo(files, rank, path, target))
      && (forall t | t in Required(used[p], files[p]) :: Sees(now, rank, p, t) <==> Sees(files, rank, p, t))
      && (forall t | Sees(now, rank, p, t) :: Sees(files, rank, p, t))
      && (forall d | d in now[p].dependency :: Keeps(now, rank, Required(used[p], files[p]), d))
  {
    var now, required := PrunedAll(files, rank, used), Required(used[p], files[p]);
    PartlyRanked(files, rank, used, files.Keys, now);
    forall path, target
      ensures GrantsVisibilityTo(now, rank, path, target) <==> GrantsVisibilityTo(files, rank, path, target) {
      GrantsSame(files, now, rank, path, target);
    }
    forall t | t in required && Sees(files, rank, p, t) ensures Sees(now, rank, p, t) {
      var d :| d in files[p].dependency && GrantsVisibilityTo(files, rank, d, t);
      assert Keeps(files, rank, required, d);
    }
    forall d | d in now[p].dependency ensures Keeps(now, rank, required, d) {
      KeepsSame(files, now, rank, required, d);
    }
  }
}
