/** Pruning the imports of one file, in place. */
module Pruning {
  import opened Wrappers
  import opened Visibility
  import opened Descriptors

  /** The file that defines the type a field refers to. */
  function RefFile(schema: Schema, r: Ref): string
    requires WellFormed(schema) && KnownRef(schema, r)
  {
    FileOf(schema, ItemOf(schema, r))
  }

  predicate KnownRefs(schema: Schema, refs: seq<Ref>) { forall r | r in refs :: KnownRef(schema, r) }

  function RefFiles(schema: Schema, refs: seq<Ref>): set<string>
    requires WellFormed(schema) && KnownRefs(schema, refs)
  {
    set r | r in refs :: RefFile(schema, r)
  }

  lemma RefFilesAppend(schema: Schema, a: seq<Ref>, b: seq<Ref>)
    requires WellFormed(schema) && KnownRefs(schema, a + b)
    ensures KnownRefs(schema, a) && KnownRefs(schema, b)
            && RefFiles(schema, a + b) == RefFiles(schema, a) + RefFiles(schema, b)
  {
    assert forall r :: r in a + b <==> r in a || r in b;
  }

  /** The files of the types that a message of the file at `path`, with those nested in it, uses. */
  function MessageDeps(schema: Schema, path: string, d: Desc): set<string>
    requires WellFormed(schema) && KnownRefs(schema, AllRefs(d))
  {
    {path} + RefFiles(schema, AllRefs(d))
  }

  lemma {:induction false} NestedKnown(schema: Schema, d: Desc, k: nat)
    requires k < |d.nested| && KnownRefs(schema, NestedRefs(d, |d.nested|))
    ensures KnownRefs(schema, NestedRefs(d, k)) && KnownRefs(schema, NestedRefs(d, k + 1))
            && KnownRefs(schema, AllRefs(d.nested[k]))
  {
    NestedPrefix(d, k + 1, |d.nested|);
    NestedPrefix(d, k, k + 1);
  }

  lemma {:induction false} NestedPrefix(d: Desc, k: nat, n: nat)
    requires k <= n <= |d.nested|
    ensures NestedRefs(d, k) <= NestedRefs(d, n)
    decreases n
  {
    if k < n {
      NestedPrefix(d, k, n - 1);
    }
  }

  method GetMessageDeps(schema: Schema, path: string, d: Desc, deps: set<string>) returns (deps1: set<string>)
    requires WellFormed(schema) && KnownRefs(schema, AllRefs(d))
    ensures deps1 == deps + MessageDeps(schema, path, d)
    decreases d, 1
  {
    RefFilesAppend(schema, d.fields, NestedRefs(d, |d.nested|));
    deps1 := GetFieldDeps(schema, d.fields, deps + {path});
    deps1 := GetNestedDeps(schema, path, d, deps1);
  }

  method GetNestedDeps(schema: Schema, path: string, d: Desc, deps: set<string>) returns (deps1: set<string>)
    requires WellFormed(schema) && KnownRefs(schema, NestedRefs(d, |d.nested|)) && path in deps
    ensures deps1 == deps + RefFiles(schema, NestedRefs(d, |d.nested|))
    decreases d, 0
  {
    deps1 := deps;
    for k := 0 to |d.nested|
      invariant KnownRefs(schema, NestedRefs(d, k)) && deps1 == deps + RefFiles(schema, NestedRefs(d, k))
    {
      NestedKnown(schema, d, k);
      deps1 := GetMessageDeps(schema, path, d.nested[k], deps1);
      RefFilesAppend(schema, NestedRefs(d, k), AllRefs(d.nested[k]));
    }
  }

  method GetFieldDeps(schema: Schema, fields: seq<Ref>, deps: set<string>) returns (deps1: set<string>)
    requires WellFormed(schema) && KnownRefs(schema, fields)
    ensures deps1 == deps + RefFiles(schema, fields)
  {
    deps1 := deps;
    for i := 0 to |fields|
      invariant deps1 == deps + RefFiles(schema, fields[..i])
    {
      assert fields[..i + 1] == fields[..i] + [fields[i]];
      RefFilesAppend(schema, fields[..i], [fields[i]]);
      assert RefFiles(schema, [fields[i]]) == {RefFile(schema, fields[i])};
      deps1 := deps1 + {RefFile(schema, fields[i])};
    }
    assert fields[..|fields|] == fields;
  }

  /** The files that the messages of a file use. */
  function UsedFiles(schema: Schema, path: string, messages: seq<string>): set<string>
    requires WellFormed(schema) && forall m | m in messages :: m in schema.tops
  {
    if messages == [] then {}
          else UsedFiles(schema, path, Front(messages)) + MessageDeps(schema, path, schema.tops[Last(messages)].desc)
  }

  method GatherUsed(schema: Schema, path: string, messages: seq<string>) returns (used: set<string>)
    requires WellFormed(schema) && forall m | m in messages :: m in schema.tops
    ensures used == UsedFiles(schema, path, messages)
  {
    used := {};
    for i := 0 to |messages|
      invariant used == UsedFiles(schema, path, messages[..i])
    {
      assert Front(messages[..i + 1]) == messages[..i];
      used := GetMessageDeps(schema, path, schema.tops[messages[i]].desc, used);
    }
    assert messages[..|messages|] == messages;
  }

  // ------------------------------------------------------------------------

  /** `oldToNew` tells where each kept one of `deps` has gone. */
  ghost predicate Moves(files: Files, rank: string -> nat, required: set<string>, deps: seq<string>,
                        oldToNew: map<nat, nat>)
    requires Ranked(files, rank)
  {
    forall i: nat :: MovesAt(files, rank, required, deps, oldToNew, i)
  }

  ghost predicate MovesAt(files: Files, rank: string -> nat, required: set<string>, deps: seq<string>,
                          oldToNew: map<nat, nat>, i: nat)
    requires Ranked(files, rank)
  {
    if i < |deps| && Keeps(files, rank, required, deps[i]) then i in oldToNew
        && oldToNew[i] == |KeptDeps(files, rank, required, deps[..i])|
    else i !in oldToNew
  }

  lemma MovesStep(files: Files, rank: string -> nat, required: set<string>, deps: seq<string>, oldToNew: map<nat, nat>,
                  d: string, next: map<nat, nat>)
    requires Ranked(files, rank) && Moves(files, rank, required, deps, oldToNew)
    requires next == if Keeps(files, rank, required, d) then oldToNew[|deps| := |KeptDeps(files, rank, required, deps)|]
             else oldToNew
    ensures Moves(files, rank, required, deps + [d], next)
  {
    forall i: nat ensures MovesAt(files, rank, required, deps + [d], next, i) {
      assert MovesAt(files, rank, required, deps, oldToNew, i);
      if i < |deps| {
        assert (deps + [d])[..i] == deps[..i];
      } else if i == |deps| {
        assert (deps + [d])[..i] == deps;
      }
    }
  }

  /** Evaluates each import and notes how positions shift. */
  method KeepDeps(files: Files, ghost rank: string -> nat, required: set<string>, deps: seq<string>)
    returns (keptDeps: seq<string>, oldToNew: map<nat, nat>)
    requires Ranked(files, rank)
    ensures keptDeps == KeptDeps(files, rank, required, deps) && Moves(files, rank, required, deps, oldToNew)
  {
    keptDeps, oldToNew := [], map[];
    for i := 0 to |deps|
      invariant keptDeps == KeptDeps(files, rank, required, deps[..i])
                && Moves(files, rank, required, deps[..i], oldToNew)
    {
      ghost var before := oldToNew;
      assert Front(deps[..i + 1]) == deps[..i];
      assert deps[..i] + [deps[i]] == deps[..i + 1];
      if Keeps(files, rank, required, deps[i]) {
        oldToNew := oldToNew[i := |keptDeps|];
        keptDeps := keptDeps + [deps[i]];
      }
      MovesStep(files, rank, required, deps[..i], before, deps[i], oldToNew);
    }
    assert deps[..|deps|] == deps;
  }

  method RemapPublic(ghost files: Files, ghost rank: string -> nat, ghost required: set<string>,
                     ghost deps: seq<string>, oldToNew: map<nat, nat>,
                     public: seq<nat>) returns (newPublic: seq<nat>)
    requires Ranked(files, rank) && Moves(files, rank, required, deps, oldToNew)
    ensures newPublic == Remap(files, rank, required, deps, public)
  {
    newPublic := [];
    for i := 0 to |public|
      invariant newPublic == Remap(files, rank, required, deps, public[..i])
    {
      assert Front(public[..i + 1]) == public[..i];
      assert MovesAt(files, rank, required, deps, oldToNew, public[i]);
      if public[i] in oldToNew {
        newPublic := newPublic + [oldToNew[public[i]]];
      }
    }
    assert public[..|public|] == public;
  }

  /** One file with the imports it does not need removed. */
  method PruneFile(files: Files, ghost rank: string -> nat, used: set<string>, f: FileState) returns (f1: FileState)
    requires Ranked(files, rank)
    ensures f1 == Pruned(files, rank, used, f)
  {
    var required := Required(used, f);
    var keptDeps, oldToNew := KeepDeps(files, rank, required, f.dependency);
    var newPublic := RemapPublic(files, rank, required, f.dependency, oldToNew, f.public);
    f1 := f.(dependency := keptDeps, public := newPublic);
  }
}
