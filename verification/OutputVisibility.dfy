/** What a file of the output sees: through the other files of the output, and through well-known
    files, which are not given out. */
module OutputVisibility {
  import opened Wrappers
  import opened Visibility
  import opened Descriptors
  import opened Pruning
  import opened Keeping

  /** All files with all their imports, as they were supplied. */
  function Supplied(schema: Schema): Files {
    map p | p in schema.imports :: Initial(schema, p)
  }

  /** The files of the output, and the well-known ones as they were supplied. */
  function WithWellKnown(schema: Schema, files: Files): Files {
    map p | p in schema.imports && (p in files || p in WELL_KNOWN_FILES) ::
          if p in files then files[p] else Initial(schema, p)
  }

  /** Among the files of `s`, which import each other publicly the same way in `a` and in `b`. */
  ghost predicate SamePublicIn(a: Files, b: Files, s: set<string>) {
    forall p | p in s ::
          p in a && p in b && PublicOf(a[p]) == PublicOf(b[p]) && forall d | d in PublicOf(a[p]) :: d in s
  }

  lemma {:induction false} GrantsWithin(a: Files, b: Files, rank: string -> nat, s: set<string>, path: string,
                                        target: string)
    requires Ranked(a, rank) && Ranked(b, rank) && SamePublicIn(a, b, s) && path in s
    ensures GrantsVisibilityTo(a, rank, path, target) <==> GrantsVisibilityTo(b, rank, path, target)
    decreases rank(path)
  {
    forall d | d in PublicOf(a[path])
      ensures GrantsVisibilityTo(a, rank, d, target) <==> GrantsVisibilityTo(b, rank, d, target) {
      GrantsWithin(a, b, rank, s, d, target);
    }
  }

  /** The imports of a file and those it makes public, as they were supplied. */
  lemma InitialDeps(schema: Schema, p: string, d: string)
    requires p in schema.imports && d in Initial(schema, p).dependency
    ensures exists i | i in schema.imports[p] :: i.path == d
  {
    var i :| 0 <= i < |schema.imports[p]| && schema.imports[p][i].path == d;
    assert schema.imports[p][i] in schema.imports[p];
  }

  ghost predicate ImportsRanked(schema: Schema, rank: string -> nat) {
    forall p, i | p in schema.imports && i in schema.imports[p] :: rank(i.path) < rank(p)
  }

  lemma SuppliedRanked(schema: Schema, rank: string -> nat)
    requires ImportsRanked(schema, rank)
    ensures Ranked(Supplied(schema), rank)
  {
    forall p, d | p in schema.imports && d in Initial(schema, p).dependency ensures rank(d) < rank(p) {
      InitialDeps(schema, p, d);
    }
  }

  /** How the output comes about: from harvested files with all their imports, pruned and narrowed. */
  ghost predicate Shaken(schema: Schema, rank: string -> nat, harvested: Files, used: map<string, set<string>>,
                         files: Files)
    requires Ranked(harvested, rank) && harvested.Keys <= used.Keys
  {
    && FilesOk(schema, harvested) && ImportClosed(schema, harvested)
    && (forall p | p in files :: p in harvested && files[p] == PrunedAll(harvested, rank, used)[p])
    && (forall p | p in harvested && Needed(PrunedAll(harvested, rank, used), p) :: p in files || p in WELL_KNOWN_FILES)
    && (forall p | p in files :: Needed(PrunedAll(harvested, rank, used), p))
  }

  /** The files that something taken leads to. */
  ghost function NeededFiles(pruned: Files): set<string> { set p | p in pruned && Needed(pruned, p) }

  lemma OutputRanked(schema: Schema, rank: string -> nat, harvested: Files, used: map<string, set<string>>,
                     files: Files)
    requires ImportsRanked(schema, rank) && Ranked(harvested, rank) && harvested.Keys <= used.Keys
             && Shaken(schema, rank, harvested, used, files)
    ensures Ranked(WithWellKnown(schema, files), rank)
  {
    SuppliedRanked(schema, rank);
    var out := WithWellKnown(schema, files);
    forall p, d | p in out && d in out[p].dependency ensures rank(d) < rank(p) {
      if p in files {
        assert d in harvested[p].dependency;
      } else {
        assert Supplied(schema)[p] == Initial(schema, p);
      }
    }
  }

  /** A harvested file imports publicly what it was supplied with, and those files are harvested. */
  lemma HarvestedPublic(schema: Schema, harvested: Files)
    requires FilesOk(schema, harvested) && ImportClosed(schema, harvested)
    ensures SamePublicIn(harvested, Supplied(schema), harvested.Keys)
  {
    forall p | p in harvested
      ensures p in schema.imports && PublicOf(harvested[p]) == PublicOf(Initial(schema, p))
              && forall d | d in PublicOf(harvested[p]) :: d in harvested
    {
      assert FileOk(schema, p, harvested[p]) && ImportsIn(schema, harvested, p);
      forall d | d in PublicOf(harvested[p]) ensures d in harvested {
        InitialDeps(schema, p, d);
      }
    }
  }

  /** A needed file imports publicly, in the output, what it was supplied with. */
  lemma NeededPublicAt(schema: Schema, rank: string -> nat, harvested: Files, used: map<string, set<string>>,
                       files: Files, p: string)
    requires Ranked(harvested, rank) && harvested.Keys <= used.Keys && Shaken(schema, rank, harvested, used, files)
    requires p in PrunedAll(harvested, rank, used) && Needed(PrunedAll(harvested, rank, used), p)
    ensures p in schema.imports && p in WithWellKnown(schema, files)
    ensures PublicOf(WithWellKnown(schema, files)[p]) == PublicOf(Initial(schema, p))
            == PublicOf(PrunedAll(harvested, rank, used)[p])
  {
    assert FileOk(schema, p, harvested[p]);
    assert PublicOf(harvested[p]) == PublicOf(Initial(schema, p));
    PublicKept(harvested, rank, used[p], harvested[p]);
  }

  /** So it makes the same files visible as it was supplied to. */
  lemma NeededPublic(schema: Schema, rank: string -> nat, harvested: Files, used: map<string, set<string>>,
                     files: Files)
    requires Ranked(harvested, rank) && harvested.Keys <= used.Keys && Shaken(schema, rank, harvested, used, files)
    ensures SamePublicIn(WithWellKnown(schema, files), Supplied(schema), NeededFiles(PrunedAll(harvested, rank, used)))
  {
    var out, all, pruned := WithWellKnown(schema, files), Supplied(schema), PrunedAll(harvested, rank, used);
    forall p | p in NeededFiles(pruned)
      ensures p in out && p in all && PublicOf(out[p]) == PublicOf(all[p]) && forall d | d in PublicOf(out[p]) ::
              d in NeededFiles(pruned)
    {
      NeededPublicAt(schema, rank, harvested, used, files, p);
      assert all[p] == Initial(schema, p);
      forall d | d in PublicOf(pruned[p]) ensures d in NeededFiles(pruned) {
        NeededOn(pruned, p, d);
        ImportHarvested(schema, harvested, p, d);
        assert d in harvested[p].dependency;
      }
    }
  }

  lemma ImportHarvested(schema: Schema, harvested: Files, p: string, d: string)
    requires FilesOk(schema, harvested) && ImportClosed(schema, harvested) && p in harvested
    ensures d in harvested[p].dependency ==> d in harvested
  {
    assert FileOk(schema, p, harvested[p]) && ImportsIn(schema, harvested, p);
    if d in harvested[p].dependency {
      InitialDeps(schema, p, d);
    }
  }

  /** A file of the output sees a file it uses just when it did as supplied, and sees nothing new. */
  lemma {:induction false} OutputSees(schema: Schema, rank: string -> nat, harvested: Files,
                                      used: map<string, set<string>>, files: Files, p: string, t: string)
    requires ImportsRanked(schema, rank) && Ranked(harvested, rank) && harvested.Keys <= used.Keys
             && Shaken(schema, rank, harvested, used, files)
    requires p in files
    ensures Ranked(WithWellKnown(schema, files), rank) && Ranked(Supplied(schema), rank)
    ensures Sees(WithWellKnown(schema, files), rank, p, t) ==> Sees(Supplied(schema), rank, p, t)
    ensures t in used[p] && Sees(Supplied(schema), rank, p, t) ==> Sees(WithWellKnown(schema, files), rank, p, t)
  {
    var out, all, pruned := WithWellKnown(schema, files), Supplied(schema), PrunedAll(harvested, rank, used);
    SuppliedRanked(schema, rank);
    OutputRanked(schema, rank, harvested, used, files);
    HarvestedPublic(schema, harvested);
    NeededPublic(schema, rank, harvested, used, files);
    assert FileOk(schema, p, harvested[p]) && ImportsIn(schema, harvested, p);
    assert all[p].dependency == harvested[p].dependency && out[p] == pruned[p];
    forall d | d in pruned[p].dependency
      ensures GrantsVisibilityTo(out, rank, d, t) <==> GrantsVisibilityTo(all, rank, d, t) {
      InitialDeps(schema, p, d);
      NeededOn(pruned, p, d);
      GrantsWithin(out, all, rank, NeededFiles(pruned), d, t);
    }
    if t in used[p] && Sees(all, rank, p, t) {
      var d :| d in all[p].dependency && GrantsVisibilityTo(all, rank, d, t);
      InitialDeps(schema, p, d);
      GrantsWithin(harvested, all, rank, harvested.Keys, d, t);
      assert Keeps(harvested, rank, Required(used[p], harvested[p]), d);
    }
  }

  // ------------------------------------------------------------------------

  /** A message of the file refers to a type in the file at `t`. */
  predicate RefersTo(schema: Schema, f: FileState, t: string)
    requires WellFormed(schema)
  {
    exists m | m in f.messageType :: m in schema.tops && t in RefFiles(schema, AllRefs(schema.tops[m].desc))
  }

  lemma {:induction false} RefersToUsed(schema: Schema, p: string, messages: seq<string>, m: string, t: string)
    requires WellFormed(schema) && (forall x | x in messages :: x in schema.tops)
    requires m in messages && t in RefFiles(schema, AllRefs(schema.tops[m].desc))
    ensures t in UsedFiles(schema, p, messages)
  {
    if m != Last(messages) {
      assert messages == Front(messages) + [Last(messages)];
      RefersToUsed(schema, p, Front(messages), m, t);
    }
  }

  /** For every type that a message of the output refers to: the message's file sees the file of the
      type, through the output and well-known files, just when it did as supplied. */
  ghost predicate SeesAsBefore(schema: Schema, rank: string -> nat, files: Files)
    requires WellFormed(schema)
  {
    && Ranked(WithWellKnown(schema, files), rank) && Ranked(Supplied(schema), rank)
    && (forall p, t | p in files && RefersTo(schema, files[p], t) ::
          Sees(WithWellKnown(schema, files), rank, p, t) <==> Sees(Supplied(schema), rank, p, t))
    && (forall p, t | p in files && Sees(WithWellKnown(schema, files), rank, p, t) ::
          Sees(Supplied(schema), rank, p, t))
  }

  lemma {:induction false} OutputSeesAsBefore(schema: Schema, rank: string -> nat, harvested: Files,
                                              used: map<string, set<string>>, files: Files)
    requires WellFormed(schema) && ImportsRanked(schema, rank) && Ranked(harvested, rank) && harvested.Keys <= used.Keys
    requires Shaken(schema, rank, harvested, used, files)
    requires forall p | p in harvested ::
             (forall m | m in harvested[p].messageType :: m in schema.tops)
             && used[p] == UsedFiles(schema, p, harvested[p].messageType)
    ensures SeesAsBefore(schema, rank, files)
  {
    SuppliedRanked(schema, rank);
    OutputRanked(schema, rank, harvested, used, files);
    forall p, t | p in files
      ensures Sees(WithWellKnown(schema, files), rank, p, t) ==> Sees(Supplied(schema), rank, p, t)
      ensures RefersTo(schema, files[p], t) && Sees(Supplied(schema), rank, p, t) ==>
              Sees(WithWellKnown(schema, files), rank, p, t)
    {
      OutputSees(schema, rank, harvested, used, files, p, t);
      if RefersTo(schema, files[p], t) {
        var m :| m in files[p].messageType && m in schema.tops && t in RefFiles(schema, AllRefs(schema.tops[m].desc));
        RefersToUsed(schema, p, harvested[p].messageType, m, t);
      }
    }
  }

  // ------------------------------------------------------------------------
  // Which imports are left

  /** A file must see the files of the types its messages refer to, and what it imports publicly. */
  ghost predicate MustSee(schema: Schema, f: FileState, t: string)
    requires WellFormed(schema)
  {
    RefersTo(schema, f, t) || t in PublicOf(f)
  }

  /** The import of `d` shows `f` something that it must see. */
  ghost predicate Justified(schema: Schema, rank: string -> nat, f: FileState, d: string)
    requires WellFormed(schema) && Ranked(Supplied(schema), rank)
  {
    exists t | MustSee(schema, f, t) :: GrantsVisibilityTo(Supplied(schema), rank, d, t)
  }

  /** Of the imports a file was supplied with, just the justified ones are left; the public ones,
      which always are, in order. */
  ghost predicate PrunedWell(schema: Schema, rank: string -> nat, p: string, f: FileState)
    requires WellFormed(schema) && Ranked(Supplied(schema), rank) && p in schema.imports
  {
    && (forall d :: d in f.dependency <==> d in Initial(schema, p).dependency && Justified(schema, rank, f, d))
    && PublicOf(f) == PublicOf(Initial(schema, p))
  }

  lemma {:induction false} UsedRefersTo(schema: Schema, p: string, f: FileState, messages: seq<string>, t: string)
    requires WellFormed(schema) && (forall x | x in messages :: x in schema.tops && x in f.messageType)
    requires t in UsedFiles(schema, p, messages)
    ensures t == p || RefersTo(schema, f, t)
  {
    var m := Last(messages);
    if t in UsedFiles(schema, p, Front(messages)) {
      assert messages == Front(messages) + [m];
      UsedRefersTo(schema, p, f, Front(messages), t);
    } else {
      assert t in MessageDeps(schema, p, schema.tops[m].desc);
    }
  }

  lemma {:induction false} OutputPrunedWell(schema: Schema, rank: string -> nat, harvested: Files,
                                            used: map<string, set<string>>, files: Files, p: string)
    requires WellFormed(schema) && ImportsRanked(schema, rank) && Ranked(harvested, rank) && harvested.Keys <= used.Keys
    requires Shaken(schema, rank, harvested, used, files) && p in files
    requires forall m | m in harvested[p].messageType :: m in schema.tops
    requires used[p] == UsedFiles(schema, p, harvested[p].messageType)
    ensures p in schema.imports && Ranked(Supplied(schema), rank) && PrunedWell(schema, rank, p, files[p])
  {
    var f, required := files[p], Required(used[p], harvested[p]);
    SuppliedRanked(schema, rank);
    assert FileOk(schema, p, harvested[p]) && ImportsIn(schema, harvested, p);
    PublicKept(harvested, rank, used[p], harvested[p]);
    assert PublicOf(harvested[p]) == PublicOf(Initial(schema, p));
    forall d | d in harvested[p].dependency
      ensures Keeps(harvested, rank, required, d) <==> Justified(schema, rank, f, d)
    {
      KeepsJustified(schema, rank, harvested, used, p, f, d);
    }
  }

  lemma {:induction false} KeepsJustified(schema: Schema, rank: string -> nat, harvested: Files,
                                          used: map<string, set<string>>, p: string, f: FileState, d: string)
    requires WellFormed(schema) && ImportsRanked(schema, rank) && Ranked(harvested, rank)
             && Ranked(Supplied(schema), rank)
    requires FilesOk(schema, harvested) && ImportClosed(schema, harvested) && harvested.Keys <= used.Keys
    requires p in harvested && d in harvested[p].dependency
    requires f.messageType == harvested[p].messageType && PublicOf(f) == PublicOf(harvested[p])
    requires forall m | m in harvested[p].messageType :: m in schema.tops
    requires used[p] == UsedFiles(schema, p, harvested[p].messageType)
    ensures Keeps(harvested, rank, Required(used[p], harvested[p]), d) <==> Justified(schema, rank, f, d)
  {
    var required := Required(used[p], harvested[p]);
    HarvestedPublic(schema, harvested);
    ImportHarvested(schema, harvested, p, d);
    if Keeps(harvested, rank, required, d) {
      var t :| t in required && GrantsVisibilityTo(harvested, rank, d, t);
      GrantsWithin(harvested, Supplied(schema), rank, harvested.Keys, d, t);
      GrantsDescends(harvested, rank, d, t);
      if t in used[p] {
        UsedRefersTo(schema, p, f, harvested[p].messageType, t);
      }
      assert MustSee(schema, f, t);
    }
    if Justified(schema, rank, f, d) {
      var t :| MustSee(schema, f, t) && GrantsVisibilityTo(Supplied(schema), rank, d, t);
      GrantsWithin(harvested, Supplied(schema), rank, harvested.Keys, d, t);
      if RefersTo(schema, f, t) {
        var m :| m in f.messageType && m in schema.tops && t in RefFiles(schema, AllRefs(schema.tops[m].desc));
        RefersToUsed(schema, p, harvested[p].messageType, m, t);
      }
      assert t in required;
    }
  }
}
