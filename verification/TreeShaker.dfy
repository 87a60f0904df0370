/** Tree shaking: takes what the requested messages and enums reach, prunes the imports of the
    files involved, drops files that are not needed, and sorts the rest. */
module TreeShaker {
  import opened Wrappers
  import opened Visibility
  import opened Descriptors
  import opened Pruning
  import opened Keeping
  import opened OutputVisibility
  import Sight
  import opened Sorting
  import Graphs

  // ------------------------------------------------------------------------
  // Opening files

  /** A file whose first `k` imports have been entered. */
  function PartOf(schema: Schema, path: string, k: nat): FileState
    requires path in schema.imports && k <= |schema.imports[path]|
  {
    FileState(ImportPaths(schema.imports[path][..k]), PublicIndices(schema.imports[path][..k]), [], [])
  }

  lemma EntryStep(schema: Schema, path: string, k: nat)
    requires path in schema.imports && k < |schema.imports[path]|
    ensures
      var part, i := PartOf(schema, path, k), schema.imports[path][k];
      PartOf(schema, path, k + 1) == FileState(part.dependency + [i.path], part.public + if i.isPublic then [k] else [],
          [], [])
  {
    var imports := schema.imports[path];
    assert Front(imports[..k + 1]) == imports[..k] && Last(imports[..k + 1]) == imports[k];
  }

  lemma EntryDone(schema: Schema, path: string)
    requires path in schema.imports
    ensures PartOf(schema, path, |schema.imports[path]|) == Initial(schema, path)
  {
    assert schema.imports[path][..|schema.imports[path]|] == schema.imports[path];
  }

  /** `files` is `files0` with files opened, all complete but for `path`. */
  ghost predicate Opening(schema: Schema, files0: Files, files: Files, path: string, k: nat)
    requires path in schema.imports && k <= |schema.imports[path]|
  {
    && path in files && path !in files0 && files[path] == PartOf(schema, path, k)
    && (forall p | p in files0 :: p in files && files[p] == files0[p])
    && (forall p | p in files && p !in files0 && p != path :: JustOpened(schema, files, p))
    && (forall j | 0 <= j < k :: schema.imports[path][j].path in files)
  }

  ghost predicate JustOpened(schema: Schema, files: Files, p: string)
    requires p in files
  {
    p in schema.imports && files[p] == Initial(schema, p) && ImportsIn(schema, files, p)
  }

  /** Files were opened, with all their imports. */
  ghost predicate OpenedAll(schema: Schema, files0: Files, files: Files) {
    Opened(schema, files0, files) && forall p | p in files && p !in files0 :: JustOpened(schema, files, p)
  }

  lemma OpenedNothing(schema: Schema, files: Files)
    ensures OpenedAll(schema, files, files)
  {
  }

  lemma OpeningStart(schema: Schema, files: Files, path: string)
    requires path in schema.imports && path !in files
    ensures Opening(schema, files, files[path := FileState([], [], [], [])], path, 0)
  {
  }

  lemma OpeningStep(schema: Schema, files0: Files, files: Files, files1: Files, path: string, k: nat)
    requires path in schema.imports && k < |schema.imports[path]| && Opening(schema, files0, files, path, k)
    requires OpenedAll(schema, files[path := PartOf(schema, path, k + 1)], files1)
             && schema.imports[path][k].path in files1
    ensures Opening(schema, files0, files1, path, k + 1)
  {
    var mid := files[path := PartOf(schema, path, k + 1)];
    forall p | p in files1 && p !in files0 && p != path
      ensures JustOpened(schema, files1, p)
    {
      if p in mid {
        assert JustOpened(schema, files, p);
      }
    }
    forall j | 0 <= j < k + 1 ensures schema.imports[path][j].path in files1 {
      if j < k {
        assert schema.imports[path][j].path in mid;
      }
    }
  }

  lemma OpeningDone(schema: Schema, files0: Files, files: Files, path: string)
    requires path in schema.imports && Opening(schema, files0, files, path, |schema.imports[path]|)
    ensures OpenedAll(schema, files0, files)
  {
    EntryDone(schema, path);
    forall p | p in files && p !in files0 ensures JustOpened(schema, files, p) {
      if p == path {
        assert forall i | i in schema.imports[path] :: i.path in files;
      }
    }
  }

  ghost predicate SchemaRanked(schema: Schema, rank: string -> nat) {
    WellFormed(schema) && ImportsRanked(schema, rank)
  }

  lemma ImportDescends(schema: Schema, rank: string -> nat, path: string, k: nat)
    requires SchemaRanked(schema, rank) && path in schema.imports && k < |schema.imports[path]|
    ensures schema.imports[path][k].path in schema.imports && rank(schema.imports[path][k].path) < rank(path)
  {
    assert schema.imports[path][k] in schema.imports[path];
  }

  /** The files after opening the one at `path`. */
  ghost function Open(schema: Schema, rank: string -> nat, files: Files, path: string): Files
    requires SchemaRanked(schema, rank) && path in schema.imports
    decreases rank(path), 1
  {
    if path in files then files else OpenFrom(schema, rank, files[path := FileState([], [], [], [])], path, 0)
  }

  /** The files after entering and opening the imports of `path` from the `k`th on. */
  ghost function OpenFrom(schema: Schema, rank: string -> nat, files: Files, path: string, k: nat): Files
    requires SchemaRanked(schema, rank) && path in schema.imports && k <= |schema.imports[path]|
    decreases rank(path), 0, |schema.imports[path]| - k
  {
    if k == |schema.imports[path]| then files
    else
      ImportDescends(schema, rank, path, k);
      OpenFrom(schema, rank, Open(schema, rank, files[path := PartOf(schema, path, k + 1)],
          schema.imports[path][k].path), path, k + 1)
  }

  lemma {:induction false} OpenOpens(schema: Schema, rank: string -> nat, files: Files, path: string)
    requires SchemaRanked(schema, rank) && path in schema.imports
    ensures path in Open(schema, rank, files, path) && OpenedAll(schema, files, Open(schema, rank, files, path))
    decreases rank(path), 1
  {
    if path in files {
      OpenedNothing(schema, files);
    } else {
      OpeningStart(schema, files, path);
      OpenFromOpens(schema, rank, files, files[path := FileState([], [], [], [])], path, 0);
      OpeningDone(schema, files, Open(schema, rank, files, path), path);
    }
  }

  lemma {:induction false} OpenFromOpens(schema: Schema, rank: string -> nat, files0: Files, files: Files, path: string,
                                         k: nat)
    requires SchemaRanked(schema, rank) && path in schema.imports && k <= |schema.imports[path]|
             && Opening(schema, files0, files, path, k)
    ensures Opening(schema, files0, OpenFrom(schema, rank, files, path, k), path, |schema.imports[path]|)
    decreases rank(path), 0, |schema.imports[path]| - k
  {
    if k < |schema.imports[path]| {
      ImportDescends(schema, rank, path, k);
      var mid := files[path := PartOf(schema, path, k + 1)];
      var files1 := Open(schema, rank, mid, schema.imports[path][k].path);
      OpenOpens(schema, rank, mid, schema.imports[path][k].path);
      OpeningStep(schema, files0, files, files1, path, k);
      OpenFromOpens(schema, rank, files0, files1, path, k + 1);
    }
  }

  /** While an import is opened, the entry of the importing file stays as it is. */
  lemma OpenKeeps(schema: Schema, rank: string -> nat, files: Files, path: string, p: string)
    requires SchemaRanked(schema, rank) && path in schema.imports && p in files
    ensures p in Open(schema, rank, files, path) && Open(schema, rank, files, path)[p] == files[p]
  {
    OpenOpens(schema, rank, files, path);
  }

  // ------------------------------------------------------------------------
  // Taking items

  /** Items were taken, and what the new ones use is taken too. */
  ghost predicate Grew(schema: Schema, files0: Files, files: Files)
    requires WellFormed(schema)
  {
    && (forall a | Has(schema, files0, a) :: Has(schema, files, a))
    && (forall a | Has(schema, files, a) && !Has(schema, files0, a) :: Settled(schema, files, a))
  }

  lemma GrewTrans(schema: Schema, files0: Files, files1: Files, files2: Files)
    requires WellFormed(schema) && Grew(schema, files0, files1) && Grew(schema, files1, files2)
    ensures Grew(schema, files0, files2)
  {
    forall a | Has(schema, files2, a) && !Has(schema, files0, a) ensures Settled(schema, files2, a) {
      if Has(schema, files1, a) {
        assert Settled(schema, files1, a);
      }
    }
  }

  lemma OpenedHas(schema: Schema, files0: Files, files: Files, item: Item)
    requires Opened(schema, files0, files)
    ensures Has(schema, files, item) <==> Has(schema, files0, item)
  {
    if IsItem(schema, item) {
      var p := FileOf(schema, item);
      if p in files && p !in files0 {
        assert files[p] == Initial(schema, p);
      }
    }
  }

  ghost predicate ShakeOk(schema: Schema, requested: set<Item>, files: Files)
    requires WellFormed(schema)
  {
    FilesOk(schema, files) && ImportClosed(schema, files) && forall a | Has(schema, files, a) ::
          Reachable(schema, requested, a)
  }

  lemma OpenedOk(schema: Schema, requested: set<Item>, files0: Files, files: Files)
    requires WellFormed(schema) && ShakeOk(schema, requested, files0) && OpenedAll(schema, files0, files)
    ensures ShakeOk(schema, requested, files) && forall a :: Has(schema, files, a) <==> Has(schema, files0, a)
  {
    forall a ensures Has(schema, files, a) <==> Has(schema, files0, a) {
      OpenedHas(schema, files0, files, a);
    }
    forall p | p in files ensures ImportsIn(schema, files, p) {
      if p in files0 {
        assert ImportsIn(schema, files0, p);
      }
    }
    forall p | p in files ensures FileOk(schema, p, files[p]) {
      if p in files0 {
        assert FileOk(schema, p, files0[p]);
      }
    }
  }

  function WithItem(f: FileState, item: Item): FileState {
    match item
    case TopMessage(m) => f.(messageType := f.messageType + [m])
    case TopEnum(e) => f.(enumType := f.enumType + [e])
  }

  function Taken(schema: Schema, files: Files, item: Item): Files
    requires IsItem(schema, item) && FileOf(schema, item) in files
  {
    files[FileOf(schema, item) := WithItem(files[FileOf(schema, item)], item)]
  }

  lemma TakenHas(schema: Schema, files: Files, item: Item, a: Item)
    requires IsItem(schema, item) && FileOf(schema, item) in files
    ensures Has(schema, Taken(schema, files, item), a) <==> Has(schema, files, a) || a == item
  {
  }

  lemma TakenOk(schema: Schema, requested: set<Item>, files: Files, item: Item)
    requires WellFormed(schema) && ShakeOk(schema, requested, files) && Reachable(schema, requested, item)
    requires IsItem(schema, item) && FileOf(schema, item) in files && !Has(schema, files, item)
    ensures ShakeOk(schema, requested, Taken(schema, files, item))
  {
    var files1 := Taken(schema, files, item);
    forall a | Has(schema, files1, a) ensures Reachable(schema, requested, a) {
      TakenHas(schema, files, item, a);
    }
    forall p | p in files1 ensures FileOk(schema, p, files1[p]) && ImportsIn(schema, files1, p) {
      assert FileOk(schema, p, files[p]) && ImportsIn(schema, files, p);
    }
  }

  /** After taking `item` and all it uses, every new item is settled. */
  lemma TakenSettles(schema: Schema, files0: Files, item: Item, files: Files)
    requires WellFormed(schema) && IsItem(schema, item) && FileOf(schema, item) in files0
    requires Grew(schema, Taken(schema, files0, item), files) && Settled(schema, files, item)
    ensures Grew(schema, files0, files) && Has(schema, files, item)
  {
    forall a ensures Has(schema, Taken(schema, files0, item), a) <==> Has(schema, files0, a) || a == item {
      TakenHas(schema, files0, item, a);
    }
  }

  /** The top-level messages not yet taken. */
  function Untaken(schema: Schema, files: Files): set<string> {
    set m | m in schema.tops && !Has(schema, files, TopMessage(m))
  }

  lemma UntakenShrinks(schema: Schema, files0: Files, files: Files)
    requires forall a | Has(schema, files0, a) :: Has(schema, files, a)
    ensures |Untaken(schema, files)| <= |Untaken(schema, files0)|
    ensures (exists m :: m in schema.tops && Has(schema, files, TopMessage(m)) && !Has(schema, files0, TopMessage(m)))
            ==> |Untaken(schema, files)| < |Untaken(schema, files0)|
  {
    var a, b := Untaken(schema, files0), Untaken(schema, files);
    assert b <= a;
    assert a == b + (a - b);
    if m :| m in schema.tops && Has(schema, files, TopMessage(m)) && !Has(schema, files0, TopMessage(m)) {
      assert m in a - b;
    }
  }

  lemma RefsSettle(schema: Schema, files: Files, m: string)
    requires WellFormed(schema) && m in schema.tops
    requires HasAll(schema, files, AllRefs(schema.tops[m].desc))
    ensures Settled(schema, files, TopMessage(m))
  {
  }

  class Shaker {
    const schema: Schema
    ghost const rank: string -> nat
    ghost const requested: set<Item>
    var files: Files

    ghost predicate Valid()
      reads this
    {
      SchemaOk() && ShakeOk(schema, requested, files)
    }

    constructor (schema: Schema, ghost rank: string -> nat, ghost requested: set<Item>)
      requires WellFormed(schema) && ImportsRanked(schema, rank)
      ensures Valid() && this.schema == schema && this.rank == rank && this.requested == requested && files == map[]
    {
      this.schema, this.rank, this.requested := schema, rank, requested;
      files := map[];
    }

    ghost predicate SchemaOk() { SchemaRanked(schema, rank) }

    /** Opens the file at `path` and, if it is new, every file it imports. */
    method GetOrInit(path: string)
      requires SchemaOk() && path in schema.imports
      modifies this
      ensures files == Open(schema, rank, old(files), path)
      decreases rank(path), 1
    {
      if path in files {
        return;
      }
      files := files[path := FileState([], [], [], [])];
      var k := 0;
      while k < |schema.imports[path]|
        invariant 0 <= k <= |schema.imports[path]| && path in files && files[path] == PartOf(schema, path, k)
        invariant OpenFrom(schema, rank, files, path, k) == Open(schema, rank, old(files), path)
      {
        EnterImport(path, k);
        k := k + 1;
      }
    }

    /** Enters the `k`th import into the file at `path`, and opens it. */
    method EnterImport(path: string, k: nat)
      requires SchemaOk() && path in schema.imports && k < |schema.imports[path]| && path in files
               && files[path] == PartOf(schema, path, k)
      modifies this
      ensures files == Open(schema, rank, old(files)[path := PartOf(schema, path, k + 1)], schema.imports[path][k].path)
      ensures path in files && files[path] == PartOf(schema, path, k + 1)
      decreases rank(path), 0
    {
      var f, i := files[path], schema.imports[path][k];
      EntryStep(schema, path, k);
      ImportDescends(schema, rank, path, k);
      files := files[path := f.(dependency := f.dependency + [i.path], public := f.public + if i.isPublic then [k]
            else [])];
      OpenKeeps(schema, rank, files, i.path, path);
      GetOrInit(i.path);
    }

    /** Takes the message at the root of `m`, and everything it reaches. */
    method HarvestMessage(m: string)
      requires Valid() && KnownMessage(schema, m) && Reachable(schema, requested, TopMessage(GetRootMessage(schema, m)))
      modifies this
      ensures Valid() && Grew(schema, old(files), files) && Has(schema, files, TopMessage(GetRootMessage(schema, m)))
      decreases |Untaken(schema, files)|, 0
    {
      var top := GetRootMessage(schema, m);
      var path := schema.tops[top].file;
      OpenOpens(schema, rank, files, path);
      GetOrInit(path);
      OpenedOk(schema, requested, old(files), files);
      if top !in files[path].messageType {
        ghost var ready := files;
        TakenOk(schema, requested, files, TopMessage(top));
        TakenHas(schema, files, TopMessage(top), TopMessage(top));
        files := files[path := files[path].(messageType := files[path].messageType + [top])];
        TakenGrows(schema, old(files), ready, TopMessage(top));
        UntakenShrinks(schema, old(files), files);
        TopRefs(schema, requested, top);
        HarvestMessageDeps(schema.tops[top].desc);
        RefsSettle(schema, files, top);
        TakenSettles(schema, ready, TopMessage(top), files);
      }
    }

    method HarvestEnum(e: string)
      requires Valid() && e in schema.enums && Reachable(schema, requested, ItemOf(schema, ToEnum(e)))
      modifies this
      ensures Valid() && Grew(schema, old(files), files) && Has(schema, files, ItemOf(schema, ToEnum(e)))
      decreases |Untaken(schema, files)|, 1
    {
      assert HomeKnown(schema, schema.enums[e]);
      if schema.enums[e].InMessage? {
        HarvestMessage(schema.enums[e].message);
        return;
      }
      var path := schema.enums[e].path;
      OpenOpens(schema, rank, files, path);
      GetOrInit(path);
      OpenedOk(schema, requested, old(files), files);
      if e !in files[path].enumType {
        ghost var ready := files;
        TakenOk(schema, requested, files, TopEnum(e));
        files := files[path := files[path].(enumType := files[path].enumType + [e])];
        TakenSettles(schema, ready, TopEnum(e), files);
      }
    }

    method HarvestRef(r: Ref)
      requires Valid() && KnownRef(schema, r) && Reachable(schema, requested, ItemOf(schema, r))
      modifies this
      ensures Valid() && Grew(schema, old(files), files) && Has(schema, files, ItemOf(schema, r))
      decreases |Untaken(schema, files)|, 2
    {
      match r
      case ToMessage(m) => HarvestMessage(m);
      case ToEnum(e) => HarvestEnum(e);
    }

    /** Takes what the fields of a message, and of the messages nested in it, refer to. */
    method HarvestMessageDeps(d: Desc)
      requires Valid() && AllReachable(schema, requested, AllRefs(d))
      modifies this
      ensures Valid() && Grew(schema, old(files), files) && HasAll(schema, files, AllRefs(d))
      decreases |Untaken(schema, files)|, 4, d
    {
      assert forall r | r in d.fields :: r in AllRefs(d);
      HarvestFields(d.fields);
      ghost var before := files;
      UntakenShrinks(schema, old(files), files);
      HarvestNested(d, old(files));
      GrewTrans(schema, old(files), before, files);
      HasBoth(schema, before, files, d.fields, NestedRefs(d, |d.nested|));
    }

    /** Since `files0`, `refs` and what they reach have been taken. */
    ghost predicate Harvested(files0: Files, refs: seq<Ref>)
      reads this
    {
      Valid() && Grew(schema, files0, files) && HasAll(schema, files, refs)
    }

    /** Prunes the imports of every file, whatever the order in which the files are met. */
    method PruneUnusedImports()
      requires Valid()
      modifies this
      ensures Ranked(old(files), rank) && FilesOk(schema, old(files))
      ensures files == PrunedAll(old(files), rank, UsedMap(schema, old(files)))
    {
      FilesRanked(schema, rank, files);
      PruneEach(UsedMap(schema, files));
    }

    method PruneEach(ghost used: map<string, set<string>>)
      requires SchemaOk() && Ranked(files, rank) && files.Keys <= used.Keys && IsUsedMap(schema, files, used)
      modifies this
      ensures files == PrunedAll(old(files), rank, used)
    {
      var todo := files.Keys;
      ghost var done: set<string> := {};
      NothingPruned(files, rank, used, done);
      while todo != {}
        invariant Divides(old(files).Keys, done, todo)
        invariant PartlyPruned(old(files), rank, used, done, files)
        decreases |todo|
      {
        var path :| path in todo;
        PruneOne(path, old(files), used, done);
        DividesStep(old(files).Keys, done, todo, path);
        todo, done := todo - {path}, done + {path};
      }
      AllPruned(old(files), rank, used, done, files);
    }

    /** Prunes one file, consulting the others as they are now. */
    method PruneOne(path: string, ghost files0: Files, ghost used: map<string, set<string>>, ghost done: set<string>)
      requires SchemaOk() && Ranked(files0, rank) && files0.Keys <= used.Keys && IsUsedMap(schema, files0, used)
               && path in files0 && path !in done
      requires PartlyPruned(files0, rank, used, done, files)
      modifies this
      ensures PartlyPruned(files0, rank, used, done + {path}, files)
    {
      PruneStep(files0, rank, used, done, files, path);
      assert UsesIn(schema, path, files0[path], used[path]);
      var u := GatherUsed(schema, path, files[path].messageType);
      var f := PruneFile(files, rank, u, files[path]);
      files := files[path := f];
    }

    /** Drops the files that nothing taken needs, and the well-known ones. */
    method PruneUnusedAndWellKnown()
      modifies this
      ensures Narrowed(old(files), files)
    {
      var keepPaths := KeepNeeded(files);
      files := map p | p in files && p in keepPaths && p !in WELL_KNOWN_FILES :: files[p];
    }

    /** Takes the messages and enums asked for, and all that they reach. */
    method HarvestAll(msgs: seq<string>, enums: seq<string>)
      requires Valid() && files == map[] && KnownRefs(schema, Requests(msgs, enums))
      requires requested == RequestedItems(schema, Requests(msgs, enums))
      modifies this
      ensures Valid() && forall a :: Has(schema, files, a) <==> Reachable(schema, requested, a)
    {
      var refs := Requests(msgs, enums);
      RequestsReachable(schema, refs);
      HarvestFields(refs);
      forall a ensures Has(schema, files, a) <==> Reachable(schema, requested, a) {
        HarvestComplete(schema, requested, refs, files, a);
      }
    }

    /** Everything reached from the messages and enums asked for is `harvested`, and nothing else; of
        its files, with their imports pruned, those are given out that something harvested leads to,
        but for well-known ones. So the output holds exactly what is reached outside well-known
        files. Whatever a file imports is well known or comes before it; it has just those imports
        left that show it something it must see; and it still sees the types its messages refer to. */
    method TreeShake(msgs: set<string>, enums: set<string>, leq: (string, string) -> bool)
      returns (paths: seq<string>, ghost harvested: Files)
      requires Valid() && files == map[] && TotalOrder(leq)
               && KnownRefs(schema, Requests(Sorted(leq, msgs), Sorted(leq, enums)))
      requires requested == RequestedItems(schema, Requests(Sorted(leq, msgs), Sorted(leq, enums)))
      modifies this
      ensures Graphs.Distinct(paths) && Graphs.ListsSet(paths, files.Keys)
      ensures forall a | IsItem(schema, a) ::
              Has(schema, files, a) <==> Reachable(schema, requested, a) && FileOf(schema, a) !in WELL_KNOWN_FILES
      ensures forall i, d | 0 <= i < |paths| && Imports(files, paths[i], d) :: d in WELL_KNOWN_FILES || d in paths[..i]
      ensures ShakeResult(schema, rank, requested, harvested, files)
      ensures SeesAsBefore(schema, rank, files)
      ensures forall p | p in files :: p in schema.imports && PrunedWell(schema, rank, p, files[p])
      ensures Sight.ShownWell(schema, files)
    {
      HarvestAll(Sorted(leq, msgs), Sorted(leq, enums));
      harvested := files;
      PruneUnusedImports();
      ghost var pruned := files;
      PruneUnusedAndWellKnown();
      ShakenFiles(schema, rank, harvested, pruned, files);
      ShakenSees(schema, rank, harvested, pruned, files);
      Sight.OutputShownWell(schema, rank, files);
      paths := SortedFileDescriptors(files, rank, leq);
      ImportsPrecede(files, paths);
    }

    lemma HarvestedNothing()
      requires Valid()
      ensures Harvested(files, [])
    {
    }

    method HarvestFields(fields: seq<Ref>)
      requires Valid() && AllReachable(schema, requested, fields)
      modifies this
      ensures Harvested(old(files), fields)
      decreases |Untaken(schema, files)|, 3, 1
    {
      HarvestedNothing();
      for i := 0 to |fields|
        invariant Harvested(old(files), fields[..i])
      {
        HarvestField(fields, i, old(files));
      }
      assert fields[..|fields|] == fields;
    }

    method HarvestField(fields: seq<Ref>, i: nat, ghost files0: Files)
      requires i < |fields| && Harvested(files0, fields[..i]) && AllReachable(schema, requested, fields)
      modifies this
      ensures Harvested(files0, fields[..i + 1])
      decreases |Untaken(schema, files0)|, 3, 0
    {
      ghost var before := files;
      UntakenShrinks(schema, files0, files);
      assert fields[i] in fields;
      HarvestRef(fields[i]);
      GrewTrans(schema, files0, before, files);
      HasOneMore(schema, before, files, fields, i);
    }

    method HarvestNested(d: Desc, ghost files0: Files)
      requires Valid() && AllReachable(schema, requested, AllRefs(d))
               && |Untaken(schema, files)| <= |Untaken(schema, files0)|
      modifies this
      ensures Harvested(old(files), NestedRefs(d, |d.nested|))
      decreases |Untaken(schema, files0)|, 4, d, 1
    {
      HarvestedNothing();
      for k := 0 to |d.nested|
        invariant Harvested(old(files), NestedRefs(d, k))
      {
        HarvestNestedMessage(d, k, old(files), files0);
      }
    }

    method HarvestNestedMessage(d: Desc, k: nat, ghost files1: Files, ghost files0: Files)
      requires k < |d.nested| && Harvested(files1, NestedRefs(d, k)) && AllReachable(schema, requested, AllRefs(d))
      requires |Untaken(schema, files1)| <= |Untaken(schema, files0)|
      modifies this
      ensures Harvested(files1, NestedRefs(d, k + 1))
      decreases |Untaken(schema, files0)|, 4, d, 0
    {
      ghost var before := files;
      UntakenShrinks(schema, files1, files);
      NestedAmong(d, k);
      HarvestMessageDeps(d.nested[k]);
      GrewTrans(schema, files1, before, files);
      HasBoth(schema, before, files, NestedRefs(d, k), AllRefs(d.nested[k]));
    }
  }

  ghost predicate HasAll(schema: Schema, files: Files, refs: seq<Ref>)
    requires WellFormed(schema)
  {
    forall r | r in refs :: KnownRef(schema, r) && Has(schema, files, ItemOf(schema, r))
  }

  lemma HasOneMore(schema: Schema, files0: Files, files: Files, refs: seq<Ref>, i: nat)
    requires WellFormed(schema) && i < |refs| && Grew(schema, files0, files) && HasAll(schema, files0, refs[..i])
    requires KnownRef(schema, refs[i]) && Has(schema, files, ItemOf(schema, refs[i]))
    ensures HasAll(schema, files, refs[..i + 1])
  {
    assert refs[..i + 1] == refs[..i] + [refs[i]];
    HasBoth(schema, files0, files, refs[..i], [refs[i]]);
  }

  lemma HasBoth(schema: Schema, files0: Files, files: Files, a: seq<Ref>, b: seq<Ref>)
    requires WellFormed(schema) && Grew(schema, files0, files) && HasAll(schema, files0, a) && HasAll(schema, files, b)
    ensures HasAll(schema, files, a + b)
  {
  }

  ghost predicate AllReachable(schema: Schema, requested: set<Item>, refs: seq<Ref>)
    requires WellFormed(schema)
  {
    forall r | r in refs :: KnownRef(schema, r) && Reachable(schema, requested, ItemOf(schema, r))
  }

  lemma TopRefs(schema: Schema, requested: set<Item>, m: string)
    requires WellFormed(schema) && m in schema.tops && Reachable(schema, requested, TopMessage(m))
    ensures AllReachable(schema, requested, AllRefs(schema.tops[m].desc))
  {
    forall r | r in AllRefs(schema.tops[m].desc)
      ensures KnownRef(schema, r) && Reachable(schema, requested, ItemOf(schema, r)) {
      assert Uses(schema, TopMessage(m), ItemOf(schema, r));
      UsedReachable(schema, requested, TopMessage(m), ItemOf(schema, r));
    }
  }

  lemma TakenGrows(schema: Schema, files0: Files, files: Files, item: Item)
    requires (forall a :: Has(schema, files, a) <==> Has(schema, files0, a)) && IsItem(schema, item)
             && FileOf(schema, item) in files
    ensures forall a | Has(schema, files0, a) :: Has(schema, Taken(schema, files, item), a)
  {
    forall a | Has(schema, files0, a) ensures Has(schema, Taken(schema, files, item), a) {
      TakenHas(schema, files, item, a);
    }
  }

  // ------------------------------------------------------------------------
  // After harvesting

  function UsedMap(schema: Schema, files: Files): (used: map<string, set<string>>)
    requires WellFormed(schema) && FilesOk(schema, files)
    ensures used.Keys == files.Keys
  {
    map p | p in files :: assert FileOk(schema, p, files[p]); UsedFiles(schema, p, files[p].messageType)
  }

  /** `used` are the files that the messages taken into the file at `p` use. */
  ghost predicate UsesIn(schema: Schema, p: string, f: FileState, used: set<string>)
    requires WellFormed(schema)
  {
    (forall m | m in f.messageType :: m in schema.tops) && used == UsedFiles(schema, p, f.messageType)
  }

  ghost predicate IsUsedMap(schema: Schema, files: Files, used: map<string, set<string>>)
    requires WellFormed(schema) && files.Keys <= used.Keys
  {
    forall p | p in files :: UsesIn(schema, p, files[p], used[p])
  }

  ghost predicate Divides(all: set<string>, done: set<string>, todo: set<string>) { done == all - todo && todo <= all }

  lemma DividesStep(all: set<string>, done: set<string>, todo: set<string>, p: string)
    requires Divides(all, done, todo) && p in todo
    ensures Divides(all, done + {p}, todo - {p}) && p !in done && p in all
  {
  }

  lemma FilesRanked(schema: Schema, rank: string -> nat, files: Files)
    requires ImportsRanked(schema, rank) && FilesOk(schema, files)
    ensures Ranked(files, rank)
  {
    forall p, d | p in files && d in files[p].dependency ensures rank(d) < rank(p) {
      assert FileOk(schema, p, files[p]);
      var i :| 0 <= i < |schema.imports[p]| && schema.imports[p][i].path == d;
      assert schema.imports[p][i] in schema.imports[p];
    }
  }

  /** `files` are the needed ones of `files0` that are not well known. */
  ghost predicate Narrowed(files0: Files, files: Files) {
    && (forall p :: p in files <==> p in files0 && Needed(files0, p) && p !in WELL_KNOWN_FILES)
    && (forall p | p in files :: files[p] == files0[p])
  }

  function Requests(msgs: seq<string>, enums: seq<string>): seq<Ref> {
    seq(|msgs|, i requires 0 <= i < |msgs| => ToMessage(msgs[i]))
        + seq(|enums|, i requires 0 <= i < |enums| => ToEnum(enums[i]))
  }

  function RequestedItems(schema: Schema, refs: seq<Ref>): set<Item>
    requires WellFormed(schema) && KnownRefs(schema, refs)
  {
    set r | r in refs :: ItemOf(schema, r)
  }

  lemma RequestsReachable(schema: Schema, refs: seq<Ref>)
    requires WellFormed(schema) && KnownRefs(schema, refs)
    ensures AllReachable(schema, RequestedItems(schema, refs), refs)
  {
    forall r | r in refs ensures Reachable(schema, RequestedItems(schema, refs), ItemOf(schema, r)) {
      RequestedReachable(schema, RequestedItems(schema, refs), ItemOf(schema, r));
    }
  }

  lemma HarvestComplete(schema: Schema, requested: set<Item>, refs: seq<Ref>, files: Files, a: Item)
    requires WellFormed(schema) && KnownRefs(schema, refs) && requested == RequestedItems(schema, refs)
    requires ShakeOk(schema, requested, files) && Grew(schema, map[], files) && HasAll(schema, files, refs)
    ensures Has(schema, files, a) <==> Reachable(schema, requested, a)
  {
    if Reachable(schema, requested, a) {
      var p :| IsChain(schema, requested, p) && Last(p) == a;
      ClosedCovers(schema, files, requested, p);
    }
  }

  /** Pruning imports and dropping files loses no taken item, but for those in well-known files;
      what the files left import is left or well known. */
  lemma ShakenFiles(schema: Schema, rank: string -> nat, harvested: Files, pruned: Files, files: Files)
    requires WellFormed(schema) && FilesOk(schema, harvested) && ImportClosed(schema, harvested)
             && Ranked(harvested, rank)
    requires pruned == PrunedAll(harvested, rank, UsedMap(schema, harvested)) && Narrowed(pruned, files)
    ensures forall a | IsItem(schema, a) ::
            Has(schema, files, a) <==> Has(schema, harvested, a) && FileOf(schema, a) !in WELL_KNOWN_FILES
    ensures Ranked(files, rank) && forall p, d | Imports(files, p, d) :: d in files || d in WELL_KNOWN_FILES
  {
    PartlyRanked(harvested, rank, UsedMap(schema, harvested), harvested.Keys, pruned);
    forall a | IsItem(schema, a)
      ensures Has(schema, files, a) <==> Has(schema, harvested, a) && FileOf(schema, a) !in WELL_KNOWN_FILES {
      ItemLeft(schema, pruned, files, a);
    }
    forall p, d | Imports(files, p, d) ensures d in files || d in WELL_KNOWN_FILES {
      ImportLeft(schema, rank, harvested, pruned, files, p, d);
    }
  }

  /** Nothing that a message refers to is lost from sight. */
  lemma ShakenSees(schema: Schema, rank: string -> nat, harvested: Files, pruned: Files, files: Files)
    requires WellFormed(schema) && ImportsRanked(schema, rank)
    requires FilesOk(schema, harvested) && ImportClosed(schema, harvested) && Ranked(harvested, rank)
    requires pruned == PrunedAll(harvested, rank, UsedMap(schema, harvested)) && Narrowed(pruned, files)
    ensures SeesAsBefore(schema, rank, files)
    ensures forall p | p in files :: p in schema.imports && PrunedWell(schema, rank, p, files[p])
  {
    var used := UsedMap(schema, harvested);
    NarrowedIsShaken(schema, rank, harvested, used, pruned, files);
    forall p | p in harvested ensures UsesIn(schema, p, harvested[p], used[p]) {
      assert FileOk(schema, p, harvested[p]);
    }
    OutputSeesAsBefore(schema, rank, harvested, used, files);
    forall p | p in files ensures p in schema.imports && PrunedWell(schema, rank, p, files[p]) {
      assert UsesIn(schema, p, harvested[p], used[p]);
      OutputPrunedWell(schema, rank, harvested, used, files, p);
    }
  }

  /** What was harvested for a request, and what is left of it in the end. */
  ghost predicate ShakeResult(schema: Schema, rank: string -> nat, requested: set<Item>, harvested: Files, files: Files)
    requires WellFormed(schema)
  {
    && FilesOk(schema, harvested) && ImportClosed(schema, harvested) && Ranked(harvested, rank)
    && (forall a :: Has(schema, harvested, a) <==> Reachable(schema, requested, a))
    && Narrowed(PrunedAll(harvested, rank, UsedMap(schema, harvested)), files)
  }

  lemma NarrowedIsShaken(schema: Schema, rank: string -> nat, harvested: Files, used: map<string, set<string>>,
                         pruned: Files, files: Files)
    requires FilesOk(schema, harvested) && ImportClosed(schema, harvested) && Ranked(harvested, rank)
             && harvested.Keys <= used.Keys
    requires pruned == PrunedAll(harvested, rank, used) && Narrowed(pruned, files)
    ensures Shaken(schema, rank, harvested, used, files)
  {
  }

  lemma ItemLeft(schema: Schema, pruned: Files, files: Files, a: Item)
    requires IsItem(schema, a) && Narrowed(pruned, files)
    ensures Has(schema, files, a) <==> Has(schema, pruned, a) && FileOf(schema, a) !in WELL_KNOWN_FILES
  {
    if Has(schema, pruned, a) {
      LeadsToItself(pruned, FileOf(schema, a));
      assert Holds(pruned[FileOf(schema, a)]);
    }
  }

  lemma ImportLeft(schema: Schema, rank: string -> nat, harvested: Files, pruned: Files, files: Files, p: string,
                   d: string)
    requires WellFormed(schema) && FilesOk(schema, harvested) && ImportClosed(schema, harvested)
             && Ranked(harvested, rank)
    requires pruned == PrunedAll(harvested, rank, UsedMap(schema, harvested)) && Narrowed(pruned, files)
             && Imports(files, p, d)
    ensures d in files || d in WELL_KNOWN_FILES
  {
    assert Imports(pruned, p, d);
    NeededOn(pruned, p, d);
    assert d in harvested[p].dependency;
    assert FileOk(schema, p, harvested[p]) && ImportsIn(schema, harvested, p);
    var i :| 0 <= i < |schema.imports[p]| && schema.imports[p][i].path == d;
    assert schema.imports[p][i] in schema.imports[p];
  }

  lemma ImportsPrecede(files: Files, paths: seq<string>)
    requires ImportsFirst(files, paths) && (forall p, d | Imports(files, p, d) :: d in files || d in WELL_KNOWN_FILES)
    ensures forall i, d | 0 <= i < |paths| && Imports(files, paths[i], d) :: d in WELL_KNOWN_FILES || d in paths[..i]
  {
  }
}
