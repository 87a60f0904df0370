/** Schema files: imports, messages with their nested messages, enums, and which of them a
    message reaches. */
module Descriptors {
  import opened Wrappers
  import opened Visibility

  /** What a field refers to; fields of scalar type are left out. */
  datatype Ref = ToMessage(message: string) | ToEnum(enumName: string)
  datatype Desc = Desc(fields: seq<Ref>, nested: seq<Desc>)
  datatype Top = Top(file: string, desc: Desc)
  datatype Import = Import(path: string, isPublic: bool)
  datatype EnumHome = InFile(path: string) | InMessage(message: string)

  /** Names are full names: `tops` are the top-level messages, `parents` gives the message around
      each nested one. */
  datatype Schema = Schema(imports: map<string, seq<Import>>, tops: map<string, Top>, parents: map<string, string>,
      enums: map<string, EnumHome>)

  predicate KnownMessage(schema: Schema, m: string) { m in schema.tops || m in schema.parents }

  predicate KnownRef(schema: Schema, r: Ref) {
    match r
    case ToMessage(m) => KnownMessage(schema, m)
    case ToEnum(e) => e in schema.enums
  }

  /** All references of a message and the messages nested in it. */
  function AllRefs(d: Desc): seq<Ref>
    decreases d, 1
  {
    d.fields + NestedRefs(d, |d.nested|)
  }

  function NestedRefs(d: Desc, k: nat): seq<Ref>
    requires k <= |d.nested|
    decreases d, 0, k
  {
    if k == 0 then [] else NestedRefs(d, k - 1) + AllRefs(d.nested[k - 1])
  }

  lemma {:induction false} NestedAmong(d: Desc, k: nat)
    requires k < |d.nested|
    ensures forall r | r in AllRefs(d.nested[k]) :: r in AllRefs(d)
  {
    NestedUpTo(d, k, |d.nested|);
  }

  lemma {:induction false} NestedUpTo(d: Desc, k: nat, n: nat)
    requires k < n <= |d.nested|
    ensures forall r | r in AllRefs(d.nested[k]) :: r in NestedRefs(d, n)
  {
    if k < n - 1 {
      NestedUpTo(d, k, n - 1);
    }
  }

  /** Names resolve, nesting goes inward, and imported files exist. */
  ghost predicate WellFormed(schema: Schema) {
    && (forall m | m in schema.parents :: |schema.parents[m]| < |m| && KnownMessage(schema, schema.parents[m]))
    && (forall t | t in schema.tops ::
          schema.tops[t].file in schema.imports && forall r | r in AllRefs(schema.tops[t].desc) :: KnownRef(schema, r))
    && (forall e | e in schema.enums :: HomeKnown(schema, schema.enums[e]))
    && (forall p, i | p in schema.imports && i in schema.imports[p] :: i.path in schema.imports)
  }

  predicate HomeKnown(schema: Schema, h: EnumHome) {
    match h
    case InFile(p) => p in schema.imports
    case InMessage(m) => KnownMessage(schema, m)
  }

  /** `inner` is `outer`, or lies in it, however deeply. */
  ghost predicate Encloses(schema: Schema, outer: string, inner: string) {
    exists p :: IsNesting(schema, p, outer, inner)
  }

  ghost predicate IsNesting(schema: Schema, p: seq<string>, outer: string, inner: string) {
    p != [] && p[0] == outer && Last(p) == inner && forall k | 0 < k < |p| :: NestedIn(schema, p[k], p[k - 1])
  }

  predicate NestedIn(schema: Schema, m: string, parent: string) { m in schema.parents && schema.parents[m] == parent }

  lemma EnclosesInner(schema: Schema, outer: string, m: string)
    requires m in schema.parents && Encloses(schema, outer, schema.parents[m])
    ensures Encloses(schema, outer, m)
  {
    var p :| IsNesting(schema, p, outer, schema.parents[m]);
    assert IsNesting(schema, p + [m], outer, m);
  }

  lemma EnclosesItself(schema: Schema, m: string)
    ensures Encloses(schema, m, m)
  {
    assert IsNesting(schema, [m], m, m);
  }

  /** The top-level message around `m`. */
  function GetRootMessage(schema: Schema, m: string): (r: string)
    requires WellFormed(schema) && KnownMessage(schema, m)
    ensures r in schema.tops && r !in schema.parents && Encloses(schema, r, m)
    decreases |m|
  {
    if m in schema.parents then
      var r := GetRootMessage(schema, schema.parents[m]);
      EnclosesInner(schema, r, m);
      r
    else
      EnclosesItself(schema, m);
      m
  }

  /** There is just one. */
  lemma {:induction false} RootIsUnique(schema: Schema, outer: string, m: string)
    requires WellFormed(schema) && KnownMessage(schema, m) && Encloses(schema, outer, m) && outer !in schema.parents
    ensures outer == GetRootMessage(schema, m)
    decreases |m|
  {
    var p :| IsNesting(schema, p, outer, m);
    if |p| > 1 {
      var q := Front(p);
      assert NestedIn(schema, p[|p| - 1], p[|p| - 2]);
      forall k | 0 < k < |q| ensures NestedIn(schema, q[k], q[k - 1]) {
        assert NestedIn(schema, p[k], p[k - 1]);
      }
      assert IsNesting(schema, q, outer, schema.parents[m]);
      RootIsUnique(schema, outer, schema.parents[m]);
    }
  }

  /** What is taken as a whole: a top-level message with all it nests, or a top-level enum. */
  datatype Item = TopMessage(name: string) | TopEnum(name: string)

  predicate IsItem(schema: Schema, item: Item) {
    match item
    case TopMessage(m) => m in schema.tops
    case TopEnum(e) => e in schema.enums && schema.enums[e].InFile?
  }

  function FileOf(schema: Schema, item: Item): string
    requires IsItem(schema, item)
  {
    match item
    case TopMessage(m) => schema.tops[m].file
    case TopEnum(e) => schema.enums[e].path
  }

  function ItemOf(schema: Schema, r: Ref): (item: Item)
    requires WellFormed(schema) && KnownRef(schema, r)
    ensures IsItem(schema, item)
  {
    match r
    case ToMessage(m) => TopMessage(GetRootMessage(schema, m))
    case ToEnum(e) =>
      assert HomeKnown(schema, schema.enums[e]);
      match schema.enums[e]
      case InFile(_) => TopEnum(e)
      case InMessage(m) => TopMessage(GetRootMessage(schema, m))
  }

  /** `a` directly refers to `b`. */
  predicate Uses(schema: Schema, a: Item, b: Item)
    requires WellFormed(schema)
  {
    a.TopMessage? && a.name in schema.tops && exists r | r in AllRefs(schema.tops[a.name].desc) ::
          ItemOf(schema, r) == b
  }

  ghost predicate IsChain(schema: Schema, requested: set<Item>, p: seq<Item>)
    requires WellFormed(schema)
  {
    p != [] && p[0] in requested && forall k | 0 <= k < |p| - 1 :: Uses(schema, p[k], p[k + 1])
  }

  /** `item` is requested, or reached from a requested item through references. */
  ghost predicate Reachable(schema: Schema, requested: set<Item>, item: Item)
    requires WellFormed(schema)
  {
    exists p :: IsChain(schema, requested, p) && Last(p) == item
  }

  lemma RequestedReachable(schema: Schema, requested: set<Item>, item: Item)
    requires WellFormed(schema) && item in requested
    ensures Reachable(schema, requested, item)
  {
    assert IsChain(schema, requested, [item]);
  }

  lemma UsedReachable(schema: Schema, requested: set<Item>, a: Item, b: Item)
    requires WellFormed(schema) && Reachable(schema, requested, a) && Uses(schema, a, b)
    ensures Reachable(schema, requested, b)
  {
    var p :| IsChain(schema, requested, p) && Last(p) == a;
    var q := p + [b];
    forall k | 0 <= k < |q| - 1 ensures Uses(schema, q[k], q[k + 1]) {
      if k < |p| - 1 {
        assert Uses(schema, p[k], p[k + 1]);
      }
    }
    assert IsChain(schema, requested, q) && Last(q) == b;
  }

  // ------------------------------------------------------------------------
  // The files built so far

  function ImportPaths(imports: seq<Import>): seq<string> {
    seq(|imports|, i requires 0 <= i < |imports| => imports[i].path)
  }

  function PublicIndices(imports: seq<Import>): seq<nat> {
    if imports == [] then [] else PublicIndices(Front(imports)) + if Last(imports).isPublic then [|imports| - 1] else []
  }

  /** A file with all its imports and nothing taken yet. */
  function Initial(schema: Schema, path: string): FileState
    requires path in schema.imports
  {
    FileState(ImportPaths(schema.imports[path]), PublicIndices(schema.imports[path]), [], [])
  }

  predicate Has(schema: Schema, files: Files, item: Item) {
    && IsItem(schema, item) && FileOf(schema, item) in files
    && match item
       case TopMessage(m) => m in files[FileOf(schema, item)].messageType
       case TopEnum(e) => e in files[FileOf(schema, item)].enumType
  }

  /** A file keeps its imports, and holds only its own messages and enums, each once. */
  ghost predicate FileOk(schema: Schema, path: string, f: FileState) {
    && path in schema.imports
    && f.dependency == ImportPaths(schema.imports[path]) && f.public == PublicIndices(schema.imports[path])
    && (forall m | m in f.messageType :: m in schema.tops && schema.tops[m].file == path)
    && (forall e | e in f.enumType :: e in schema.enums && schema.enums[e] == InFile(path))
    && Unique(f.messageType) && Unique(f.enumType)
  }

  ghost predicate Unique(s: seq<string>) { forall i, j | 0 <= i < j < |s| :: s[i] != s[j] }

  ghost predicate FilesOk(schema: Schema, files: Files) { forall p | p in files :: FileOk(schema, p, files[p]) }

  /** Imported files are there too. */
  ghost predicate ImportsIn(schema: Schema, files: Files, p: string) {
    p in schema.imports && forall i | i in schema.imports[p] :: i.path in files
  }

  ghost predicate ImportClosed(schema: Schema, files: Files) { forall p | p in files :: ImportsIn(schema, files, p) }

  /** What was there is there, and every file added since has its imports. */
  ghost predicate Opened(schema: Schema, files0: Files, files: Files) {
    && (forall p | p in files0 :: p in files && files[p] == files0[p])
    && (forall p | p in files && p !in files0 :: p in schema.imports && files[p] == Initial(schema, p))
  }

  /** Everything a taken item uses is taken too. */
  ghost predicate Settled(schema: Schema, files: Files, item: Item)
    requires WellFormed(schema)
  {
    forall b | Uses(schema, item, b) :: Has(schema, files, b)
  }

  lemma ClosedCovers(schema: Schema, files: Files, requested: set<Item>, p: seq<Item>)
    requires WellFormed(schema) && IsChain(schema, requested, p)
    requires (forall a | a in requested :: Has(schema, files, a))
             && (forall a | Has(schema, files, a) :: Settled(schema, files, a))
    ensures Has(schema, files, Last(p))
    decreases |p|
  {
    if |p| > 1 {
      var q := Front(p);
      forall k | 0 <= k < |q| - 1 ensures Uses(schema, q[k], q[k + 1]) {
        assert Uses(schema, p[k], p[k + 1]);
      }
      ClosedCovers(schema, files, requested, q);
      assert Uses(schema, p[|p| - 2], p[|p| - 1]);
    }
  }
}
