/** What one file shows another, told by chains of public imports: as the files of the schema were
    supplied, and in the output of tree shaking. */
module Sight {
  import opened Wrappers
  import opened Visibility
  import opened Descriptors
  import opened Pruning
  import opened Keeping
  import opened OutputVisibility

  // ------------------------------------------------------------------------
  // Visibility follows public imports

  /** `f` lists a position at which it imports `d` among its public ones. */
  predicate ListsPublic(f: FileState, d: string) {
    exists k | 0 <= k < |f.public| :: f.public[k] < |f.dependency| && f.dependency[f.public[k]] == d
  }

  ghost predicate IsPublicChain(files: Files, c: seq<string>, path: string, target: string) {
    && c != [] && c[0] == path && Last(c) == target
    && forall k | 0 <= k < |c| - 1 :: PublicLink(files, c[k], c[k + 1])
  }

  predicate PublicLink(files: Files, a: string, b: string) { a in files && ListsPublic(files[a], b) }

  lemma {:induction false} PublicPathsAt(deps: seq<string>, public: seq<nat>, d: string)
    ensures d in PublicPaths(deps, public)
       <==> exists k | 0 <= k < |public| :: public[k] < |deps| && deps[public[k]] == d
  {
    if public != [] {
      PublicPathsAt(deps, Front(public), d);
      forall k | 0 <= k < |public| - 1 ensures Front(public)[k] == public[k] {
      }
    }
  }

  lemma PublicOfAt(f: FileState, d: string)
    ensures d in PublicOf(f) <==> ListsPublic(f, d)
  {
    PublicPathsAt(f.dependency, f.public, d);
  }

  lemma {:induction false} GrantsChain(files: Files, rank: string -> nat, path: string, target: string)
    returns (c: seq<string>)
    requires Ranked(files, rank) && GrantsVisibilityTo(files, rank, path, target)
    ensures IsPublicChain(files, c, path, target)
    decreases rank(path)
  {
    if path == target {
      c := [path];
    } else {
      var d :| d in PublicOf(files[path]) && GrantsVisibilityTo(files, rank, d, target);
      PublicOfAt(files[path], d);
      var rest := GrantsChain(files, rank, d, target);
      c := [path] + rest;
      forall k | 0 <= k < |c| - 1 ensures PublicLink(files, c[k], c[k + 1]) {
        assert k > 0 ==> PublicLink(files, rest[k - 1], rest[k]);
      }
    }
  }

  lemma {:induction false} ChainGrants(files: Files, rank: string -> nat, c: seq<string>, path: string, target: string)
    requires Ranked(files, rank) && IsPublicChain(files, c, path, target)
    ensures GrantsVisibilityTo(files, rank, path, target)
    decreases |c|
  {
    if |c| > 1 {
      var rest := c[1..];
      assert PublicLink(files, c[0], c[1]);
      PublicOfAt(files[c[0]], c[1]);
      forall k | 0 <= k < |rest| - 1 ensures PublicLink(files, rest[k], rest[k + 1]) {
        assert PublicLink(files, c[k + 1], c[k + 2]);
      }
      ChainGrants(files, rank, rest, c[1], target);
    }
  }

  /** Importing a file makes visible just what a chain of public imports leads to from there. */
  lemma {:induction false} GrantsJustWhen(files: Files, rank: string -> nat, path: string, target: string)
    requires Ranked(files, rank)
    ensures GrantsVisibilityTo(files, rank, path, target) <==> exists c :: IsPublicChain(files, c, path, target)
  {
    if GrantsVisibilityTo(files, rank, path, target) {
      var c := GrantsChain(files, rank, path, target);
    }
    if c :| IsPublicChain(files, c, path, target) {
      ChainGrants(files, rank, c, path, target);
    }
  }

  // ------------------------------------------------------------------------
  // The files as they were supplied

  predicate SuppliedImport(schema: Schema, p: string, d: string) {
    p in schema.imports && exists i | i in schema.imports[p] :: i.path == d
  }

  predicate SuppliedPublic(schema: Schema, p: string, d: string) {
    p in schema.imports && Import(d, true) in schema.imports[p]
  }

  lemma {:induction false} PublicIndexed(imports: seq<Import>, k: nat)
    ensures k in PublicIndices(imports) <==> k < |imports| && imports[k].isPublic
  {
    if imports != [] {
      PublicIndexed(Front(imports), k);
    }
  }

  /** A file is opened with the imports it was supplied with, and these are public as supplied. */
  lemma {:induction false} InitialImports(schema: Schema, p: string, d: string)
    requires p in schema.imports
    ensures d in Initial(schema, p).dependency <==> SuppliedImport(schema, p, d)
    ensures ListsPublic(Initial(schema, p), d) <==> SuppliedPublic(schema, p, d)
  {
    var imports, f := schema.imports[p], Initial(schema, p);
    if d in f.dependency {
      InitialDeps(schema, p, d);
    }
    if i :| i in imports && i.path == d {
      var k :| 0 <= k < |imports| && imports[k] == i;
      assert f.dependency[k] == d;
    }
    if ListsPublic(f, d) {
      var k :| 0 <= k < |f.public| && f.public[k] < |f.dependency| && f.dependency[f.public[k]] == d;
      PublicIndexed(imports, f.public[k]);
      assert imports[f.public[k]] == Import(d, true);
    }
    if SuppliedPublic(schema, p, d) {
      var k :| 0 <= k < |imports| && imports[k] == Import(d, true);
      PublicIndexed(imports, k);
      var j :| 0 <= j < |f.public| && f.public[j] == k;
      assert f.dependency[f.public[j]] == d;
    }
  }

  ghost predicate SuppliedChain(schema: Schema, c: seq<string>, path: string, target: string) {
    && c != [] && c[0] == path && Last(c) == target
    && forall k | 0 <= k < |c| - 1 :: SuppliedPublic(schema, c[k], c[k + 1])
  }

  /** As supplied, importing `d` shows `t`. */
  ghost predicate SuppliedShows(schema: Schema, d: string, t: string) { exists c :: SuppliedChain(schema, c, d, t) }

  /** As supplied, `p` sees `t`. */
  ghost predicate SuppliedSees(schema: Schema, p: string, t: string) {
    exists d | SuppliedImport(schema, p, d) :: SuppliedShows(schema, d, t)
  }

  lemma {:induction false} ChainsSupplied(schema: Schema, c: seq<string>, path: string, target: string)
    ensures IsPublicChain(Supplied(schema), c, path, target) <==> SuppliedChain(schema, c, path, target)
  {
    var files := Supplied(schema);
    forall a, b ensures PublicLink(files, a, b) <==> SuppliedPublic(schema, a, b) {
      if a in schema.imports {
        assert files[a] == Initial(schema, a);
        InitialImports(schema, a, b);
      }
    }
    if IsPublicChain(files, c, path, target) {
      forall k | 0 <= k < |c| - 1 ensures SuppliedPublic(schema, c[k], c[k + 1]) {
        assert PublicLink(files, c[k], c[k + 1]);
      }
    }
  }

  lemma {:induction false} GrantsSupplied(schema: Schema, rank: string -> nat, d: string, t: string)
    requires Ranked(Supplied(schema), rank)
    ensures GrantsVisibilityTo(Supplied(schema), rank, d, t) <==> SuppliedShows(schema, d, t)
  {
    GrantsJustWhen(Supplied(schema), rank, d, t);
    forall c ensures IsPublicChain(Supplied(schema), c, d, t) <==> SuppliedChain(schema, c, d, t) {
      ChainsSupplied(schema, c, d, t);
    }
  }

  lemma {:induction false} SeesSupplied(schema: Schema, rank: string -> nat, p: string, t: string)
    requires Ranked(Supplied(schema), rank) && p in schema.imports
    ensures Sees(Supplied(schema), rank, p, t) <==> SuppliedSees(schema, p, t)
  {
    assert Supplied(schema)[p] == Initial(schema, p);
    forall d ensures d in Initial(schema, p).dependency <==> SuppliedImport(schema, p, d) {
      InitialImports(schema, p, d);
    }
    forall d ensures GrantsVisibilityTo(Supplied(schema), rank, d, t) <==> SuppliedShows(schema, d, t) {
      GrantsSupplied(schema, rank, d, t);
    }
  }

  // ------------------------------------------------------------------------
  // The files that are given out, with the well-known ones

  /** Between files given out a link is what the importing file lists; a well-known file that is not
      given out imports as supplied. */
  predicate OutputLink(schema: Schema, files: Files, a: string, b: string) {
    if a in files then ListsPublic(files[a], b) else a in WELL_KNOWN_FILES && SuppliedPublic(schema, a, b)
  }

  ghost predicate OutputChain(schema: Schema, files: Files, c: seq<string>, path: string, target: string) {
    && c != [] && c[0] == path && Last(c) == target
    && forall k | 0 <= k < |c| - 1 :: OutputLink(schema, files, c[k], c[k + 1])
  }

  ghost predicate OutputShows(schema: Schema, files: Files, d: string, t: string) {
    exists c :: OutputChain(schema, files, c, d, t)
  }

  /** In the output, `p` sees `t`. */
  ghost predicate SeesInOutput(schema: Schema, files: Files, p: string, t: string) {
    p in files && exists d | d in files[p].dependency :: OutputShows(schema, files, d, t)
  }

  lemma {:induction false} SeesOutput(schema: Schema, rank: string -> nat, files: Files, p: string, t: string)
    requires Ranked(WithWellKnown(schema, files), rank) && p in files && forall q | q in files :: q in schema.imports
    ensures Sees(WithWellKnown(schema, files), rank, p, t) <==> SeesInOutput(schema, files, p, t)
  {
    var all := WithWellKnown(schema, files);
    assert all[p] == files[p];
    forall d ensures GrantsVisibilityTo(all, rank, d, t) <==> OutputShows(schema, files, d, t) {
      GrantsJustWhen(all, rank, d, t);
      forall c ensures IsPublicChain(all, c, d, t) <==> OutputChain(schema, files, c, d, t) {
        ChainsOutput(schema, files, c, d, t);
      }
    }
  }

  lemma {:induction false} ChainsOutput(schema: Schema, files: Files, c: seq<string>, path: string, target: string)
    requires forall q | q in files :: q in schema.imports
    ensures IsPublicChain(WithWellKnown(schema, files), c, path, target)
       <==> OutputChain(schema, files, c, path, target)
  {
    var all := WithWellKnown(schema, files);
    forall a, b ensures PublicLink(all, a, b) <==> OutputLink(schema, files, a, b) {
      if a in schema.imports {
        InitialImports(schema, a, b);
      }
    }
    if IsPublicChain(all, c, path, target) {
      forall k | 0 <= k < |c| - 1 ensures OutputLink(schema, files, c[k], c[k + 1]) {
        assert PublicLink(all, c[k], c[k + 1]);
      }
    }
  }

  // ------------------------------------------------------------------------
  // What a message refers to

  /** `c` leads from `d` inward. */
  ghost predicate IsDescent(c: seq<Desc>, d: Desc) {
    c != [] && c[0] == d && forall k | 0 < k < |c| :: c[k] in c[k - 1].nested
  }

  /** A field of `d`, or of a message nested in it, refers to `r`. */
  ghost predicate Mentions(d: Desc, r: Ref) { exists c :: IsDescent(c, d) && r in Last(c).fields }

  lemma {:induction false} RefMentioned(d: Desc, r: Ref)
    requires r in AllRefs(d)
    ensures Mentions(d, r)
    decreases d
  {
    if r in d.fields {
      assert IsDescent([d], d) && Last([d]) == d;
    } else {
      var k := NestedHolder(d, r, |d.nested|);
      RefMentioned(d.nested[k], r);
      var c :| IsDescent(c, d.nested[k]) && r in Last(c).fields;
      assert IsDescent([d] + c, d) && Last([d] + c) == Last(c);
    }
  }

  lemma {:induction false} NestedHolder(d: Desc, r: Ref, n: nat) returns (k: nat)
    requires n <= |d.nested| && r in NestedRefs(d, n)
    ensures k < n && r in AllRefs(d.nested[k])
  {
    if r in AllRefs(d.nested[n - 1]) {
      k := n - 1;
    } else {
      k := NestedHolder(d, r, n - 1);
    }
  }

  lemma {:induction false} MentionedRef(d: Desc, r: Ref, c: seq<Desc>)
    requires IsDescent(c, d) && r in Last(c).fields
    ensures r in AllRefs(d)
    decreases |c|
  {
    if |c| > 1 {
      var rest := c[1..];
      assert c[1] in c[0].nested;
      forall k | 0 < k < |rest| ensures rest[k] in rest[k - 1].nested {
        assert c[k + 1] in c[k].nested;
      }
      MentionedRef(c[1], r, rest);
      var k :| 0 <= k < |d.nested| && d.nested[k] == c[1];
      NestedAmong(d, k);
    }
  }

  /** The references gathered for a message are those of its fields and of the messages in it. */
  lemma {:induction false} AllRefsMentioned(d: Desc, r: Ref)
    ensures r in AllRefs(d) <==> Mentions(d, r)
  {
    if r in AllRefs(d) {
      RefMentioned(d, r);
    }
    if c :| IsDescent(c, d) && r in Last(c).fields {
      MentionedRef(d, r, c);
    }
  }

  /** `top` is the outermost message around `m`. */
  ghost predicate Outermost(schema: Schema, top: string, m: string) {
    top in schema.tops && top !in schema.parents && Encloses(schema, top, m)
  }

  /** What has to be taken for a reference: the outermost message around what it names, or the enum
      itself if no message is around it. */
  ghost predicate Calls(schema: Schema, r: Ref, item: Item) {
    match r
    case ToMessage(m) => item.TopMessage? && Outermost(schema, item.name, m)
    case ToEnum(e) =>
      && e in schema.enums
      && match schema.enums[e]
         case InFile(_) => item == TopEnum(e)
         case InMessage(m) => item.TopMessage? && Outermost(schema, item.name, m)
  }

  lemma {:induction false} CallsItem(schema: Schema, r: Ref, item: Item)
    requires WellFormed(schema) && KnownRef(schema, r)
    ensures ItemOf(schema, r) == item <==> Calls(schema, r, item)
  {
    if item.TopMessage? {
      if r.ToMessage? {
        OutermostIsRoot(schema, item.name, r.message);
      } else {
        assert HomeKnown(schema, schema.enums[r.enumName]);
        if schema.enums[r.enumName].InMessage? {
          OutermostIsRoot(schema, item.name, schema.enums[r.enumName].message);
        }
      }
    }
  }

  lemma {:induction false} OutermostIsRoot(schema: Schema, top: string, m: string)
    requires WellFormed(schema) && KnownMessage(schema, m)
    ensures Outermost(schema, top, m) <==> top == GetRootMessage(schema, m)
  {
    if Outermost(schema, top, m) {
      RootIsUnique(schema, top, m);
    }
  }

  /** One item uses another just when a field in it calls for the other. */
  lemma {:induction false} UsesJustWhen(schema: Schema, a: Item, b: Item)
    requires WellFormed(schema)
    ensures Uses(schema, a, b)
       <==> a.TopMessage? && a.name in schema.tops
            && exists r | Mentions(schema.tops[a.name].desc, r) :: Calls(schema, r, b)
  {
    if a.TopMessage? && a.name in schema.tops {
      var d := schema.tops[a.name].desc;
      forall r ensures r in AllRefs(d) <==> Mentions(d, r) {
        AllRefsMentioned(d, r);
      }
      forall r | r in AllRefs(d) ensures ItemOf(schema, r) == b <==> Calls(schema, r, b) {
        CallsItem(schema, r, b);
      }
    }
  }

  predicate LiesIn(schema: Schema, item: Item, path: string) {
    match item
    case TopMessage(m) => m in schema.tops && schema.tops[m].file == path
    case TopEnum(e) => e in schema.enums && schema.enums[e] == InFile(path)
  }

  /** A message of the file refers to a type that lies in the file at `t`. */
  ghost predicate Needs(schema: Schema, f: FileState, t: string) {
    exists m, r, item :: m in f.messageType && m in schema.tops && NeedsFor(schema, m, r, item, t)
  }

  ghost predicate NeedsFor(schema: Schema, m: string, r: Ref, item: Item, t: string)
    requires m in schema.tops
  {
    Mentions(schema.tops[m].desc, r) && Calls(schema, r, item) && LiesIn(schema, item, t)
  }

  lemma {:induction false} RefersNeeds(schema: Schema, f: FileState, t: string)
    requires WellFormed(schema)
    ensures RefersTo(schema, f, t) <==> Needs(schema, f, t)
  {
    if RefersTo(schema, f, t) {
      var m :| m in f.messageType && m in schema.tops && t in RefFiles(schema, AllRefs(schema.tops[m].desc));
      var r :| r in AllRefs(schema.tops[m].desc) && RefFile(schema, r) == t;
      AllRefsMentioned(schema.tops[m].desc, r);
      CallsItem(schema, r, ItemOf(schema, r));
      assert NeedsFor(schema, m, r, ItemOf(schema, r), t);
    }
    if m, r, item :| m in f.messageType && m in schema.tops && NeedsFor(schema, m, r, item, t) {
      AllRefsMentioned(schema.tops[m].desc, r);
      CallsItem(schema, r, item);
      assert RefFile(schema, r) == t;
    }
  }

  // ------------------------------------------------------------------------
  // What tree shaking leaves, in these terms

  /** An import is left if it shows a file something it needs, or something it imports publicly. */
  ghost predicate Leaves(schema: Schema, p: string, f: FileState, d: string) {
    SuppliedImport(schema, p, d)
    && exists t | Needs(schema, f, t) || SuppliedPublic(schema, p, t) :: SuppliedShows(schema, d, t)
  }

  /** Each file given out has just the imports that show it something, with their public ones as
      supplied; it sees the files it needs just when it did as supplied, and sees nothing new. */
  ghost predicate ShownWell(schema: Schema, files: Files) {
    forall p | p in files :: FileShownWell(schema, files, p)
  }

  ghost predicate FileShownWell(schema: Schema, files: Files, p: string)
    requires p in files
  {
    && p in schema.imports
    && (forall d :: d in files[p].dependency <==> Leaves(schema, p, files[p], d))
    && (forall d :: ListsPublic(files[p], d) <==> SuppliedPublic(schema, p, d))
    && (forall t | Needs(schema, files[p], t) :: SuppliedSees(schema, p, t) ==> SeesInOutput(schema, files, p, t))
    && (forall t | SeesInOutput(schema, files, p, t) :: SuppliedSees(schema, p, t))
  }

  lemma {:induction false} JustifiedLeaves(schema: Schema, rank: string -> nat, p: string, f: FileState, d: string)
    requires WellFormed(schema) && Ranked(Supplied(schema), rank) && p in schema.imports
    requires PublicOf(f) == PublicOf(Initial(schema, p))
    ensures d in Initial(schema, p).dependency && Justified(schema, rank, f, d) <==> Leaves(schema, p, f, d)
  {
    InitialImports(schema, p, d);
    forall t ensures MustSee(schema, f, t) <==> Needs(schema, f, t) || SuppliedPublic(schema, p, t) {
      RefersNeeds(schema, f, t);
      PublicOfAt(Initial(schema, p), t);
      InitialImports(schema, p, t);
    }
    forall t ensures GrantsVisibilityTo(Supplied(schema), rank, d, t) <==> SuppliedShows(schema, d, t) {
      GrantsSupplied(schema, rank, d, t);
    }
  }

  /** What `SeesAsBefore` and `PrunedWell` say, in terms of the imports of the schema. */
  lemma {:induction false} OutputShownWell(schema: Schema, rank: string -> nat, files: Files)
    requires WellFormed(schema) && SeesAsBefore(schema, rank, files)
    requires forall p | p in files :: p in schema.imports && PrunedWell(schema, rank, p, files[p])
    ensures ShownWell(schema, files)
  {
    forall p | p in files ensures FileShownWell(schema, files, p) {
      forall d ensures d in files[p].dependency <==> Leaves(schema, p, files[p], d) {
        JustifiedLeaves(schema, rank, p, files[p], d);
      }
      forall d ensures ListsPublic(files[p], d) <==> SuppliedPublic(schema, p, d) {
        PublicOfAt(files[p], d);
        PublicOfAt(Initial(schema, p), d);
        InitialImports(schema, p, d);
      }
      forall t ensures Needs(schema, files[p], t) && SuppliedSees(schema, p, t) ==> SeesInOutput(schema, files, p, t)
               ensures SeesInOutput(schema, files, p, t) ==> SuppliedSees(schema, p, t) {
        SeesSupplied(schema, rank, p, t);
        SeesOutput(schema, rank, files, p, t);
        RefersNeeds(schema, files[p], t);
      }
    }
  }
}
