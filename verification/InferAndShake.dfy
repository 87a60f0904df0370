/** Inference, then tree shaking: when the files that the generated messages import have been given
    out before them. */
module InferAndShake {
  import opened Wrappers
  import opened Sorting
  import Resolution
  import Schemas
  import Inference
  import InferenceSteps
  import InferenceRun
  import InferenceGraph
  import FieldTypes
  import Configuration
  import Dependencies
  import Graphs
  import opened Descriptors
  import opened Visibility
  import opened Pruning
  import opened Keeping
  import opened OutputVisibility
  import opened TreeShaker
  import Sight

  /** The resolver that inference asks, and the schema that is shaken, come from the same files; none
      of them belongs to the ad-hoc package. */
  ghost predicate SameTypes(schema: Schema, resolver: Schemas.TypeResolver)
    requires WellFormed(schema)
  {
    && (forall n | n in resolver.messages ::
          KnownRef(schema, ToMessage(n)) && resolver.messages[n].file == RefFile(schema, ToMessage(n)))
    && (forall n | n in resolver.enums ::
          KnownRef(schema, ToEnum(n)) && resolver.enums[n] == RefFile(schema, ToEnum(n)))
    && (forall n :: Schemas.Qualified(n) !in resolver.messages)
  }

  // ------------------------------------------------------------------------
  // What inference asks for

  predicate IsAsked(st: InferenceSteps.RunState, r: Ref) {
    match r
    case ToMessage(n) => n in st.now.referenced
    case ToEnum(e) => e in st.enums
  }

  /** The items of the types referenced in a run. */
  ghost function Asked(schema: Schema, st: InferenceSteps.RunState): (items: set<Item>)
    requires WellFormed(schema)
  {
    (set n | n in st.now.referenced && KnownRef(schema, ToMessage(n)) :: ItemOf(schema, ToMessage(n)))
    + (set e | e in st.enums && KnownRef(schema, ToEnum(e)) :: ItemOf(schema, ToEnum(e)))
  }

  lemma RequestedMessage(msgs: seq<string>, enums: seq<string>, n: string)
    requires n in msgs
    ensures ToMessage(n) in Requests(msgs, enums)
  {
    var k :| 0 <= k < |msgs| && msgs[k] == n;
    assert Requests(msgs, enums)[k] == ToMessage(n);
  }

  lemma RequestedEnum(msgs: seq<string>, enums: seq<string>, n: string)
    requires n in enums
    ensures ToEnum(n) in Requests(msgs, enums)
  {
    var k :| 0 <= k < |enums| && enums[k] == n;
    assert Requests(msgs, enums)[|msgs| + k] == ToEnum(n);
  }

  lemma RequestIsKnown(schema: Schema, resolver: Schemas.TypeResolver, msgs: seq<string>, enums: seq<string>, r: Ref)
    requires WellFormed(schema) && SameTypes(schema, resolver) && r in Requests(msgs, enums)
    requires (forall n | n in msgs :: n in resolver.messages) && (forall n | n in enums :: n in resolver.enums)
    ensures KnownRef(schema, r)
  {
    var refs := Requests(msgs, enums);
    var k :| 0 <= k < |refs| && refs[k] == r;
    if k < |msgs| {
      assert r == ToMessage(msgs[k]);
    } else {
      assert r == ToEnum(enums[k - |msgs|]);
    }
  }

  lemma RequestsKnown(schema: Schema, resolver: Schemas.TypeResolver, msgs: set<string>, enums: set<string>,
                      leq: (string, string) -> bool)
    requires WellFormed(schema) && SameTypes(schema, resolver) && msgs <= resolver.messages.Keys
             && enums <= resolver.enums.Keys && TotalOrder(leq)
    ensures KnownRefs(schema, Requests(Sorted(leq, msgs), Sorted(leq, enums)))
    ensures forall n | n in msgs :: ToMessage(n) in Requests(Sorted(leq, msgs), Sorted(leq, enums))
    ensures forall n | n in enums :: ToEnum(n) in Requests(Sorted(leq, msgs), Sorted(leq, enums))
  {
    var ms, es := Sorted(leq, msgs), Sorted(leq, enums);
    forall r | r in Requests(ms, es) ensures KnownRef(schema, r) {
      RequestIsKnown(schema, resolver, ms, es, r);
    }
    forall n | n in msgs ensures ToMessage(n) in Requests(ms, es) {
      RequestedMessage(ms, es, n);
    }
    forall n | n in enums ensures ToEnum(n) in Requests(ms, es) {
      RequestedEnum(ms, es, n);
    }
  }

  lemma RequestIsAsked(st: InferenceSteps.RunState, msgs: seq<string>, enums: seq<string>, r: Ref)
    requires r in Requests(msgs, enums)
    requires (forall n | n in msgs :: n in st.now.referenced) && (forall e | e in enums :: e in st.enums)
    ensures IsAsked(st, r)
  {
    var refs := Requests(msgs, enums);
    var k :| 0 <= k < |refs| && refs[k] == r;
    if k < |msgs| {
      assert r == ToMessage(msgs[k]);
    } else {
      assert r == ToEnum(enums[k - |msgs|]);
    }
  }

  /** The requests that a run leads to are known, and ask for just what the run has referenced. */
  lemma AskedAreRequested(schema: Schema, st: InferenceSteps.RunState, leq: (string, string) -> bool)
    requires WellFormed(schema) && SameTypes(schema, st.now.resolver) && InferenceSteps.NotesOk(st) && TotalOrder(leq)
    ensures
      var refs := Requests(Sorted(leq, st.now.referenced), Sorted(leq, st.enums));
      KnownRefs(schema, refs) && RequestedItems(schema, refs) == Asked(schema, st)
  {
    RequestsKnown(schema, st.now.resolver, st.now.referenced, st.enums, leq);
    RequestsAre(schema, st, Sorted(leq, st.now.referenced), Sorted(leq, st.enums));
    AskedItems(schema, st, Requests(Sorted(leq, st.now.referenced), Sorted(leq, st.enums)));
  }

  lemma RequestsAre(schema: Schema, st: InferenceSteps.RunState, msgs: seq<string>, enums: seq<string>)
    requires (forall n :: n in msgs <==> n in st.now.referenced) && (forall e :: e in enums <==> e in st.enums)
    ensures forall r :: r in Requests(msgs, enums) <==> IsAsked(st, r)
  {
    forall r ensures r in Requests(msgs, enums) <==> IsAsked(st, r) {
      if r in Requests(msgs, enums) {
        RequestIsAsked(st, msgs, enums, r);
      }
      if IsAsked(st, r) {
        match r
        case ToMessage(n) => RequestedMessage(msgs, enums, n);
        case ToEnum(e) => RequestedEnum(msgs, enums, e);
      }
    }
  }

  lemma AskedItems(schema: Schema, st: InferenceSteps.RunState, refs: seq<Ref>)
    requires WellFormed(schema) && KnownRefs(schema, refs) && forall r :: r in refs <==> IsAsked(st, r)
    ensures RequestedItems(schema, refs) == Asked(schema, st)
  {
    forall item ensures item in RequestedItems(schema, refs) <==> item in Asked(schema, st) {
      ItemAsked(schema, st, refs, item);
    }
  }

  lemma ItemAsked(schema: Schema, st: InferenceSteps.RunState, refs: seq<Ref>, item: Item)
    requires WellFormed(schema) && KnownRefs(schema, refs) && forall r :: r in refs <==> IsAsked(st, r)
    ensures item in RequestedItems(schema, refs) <==> item in Asked(schema, st)
  {
    if item in RequestedItems(schema, refs) {
      var r :| r in refs && ItemOf(schema, r) == item;
      assert IsAsked(st, r) && KnownRef(schema, r);
    }
    if n :| n in st.now.referenced && KnownRef(schema, ToMessage(n)) && ItemOf(schema, ToMessage(n)) == item {
      assert IsAsked(st, ToMessage(n));
    }
    if e :| e in st.enums && KnownRef(schema, ToEnum(e)) && ItemOf(schema, ToEnum(e)) == item {
      assert IsAsked(st, ToEnum(e));
    }
  }

  // ------------------------------------------------------------------------
  // Files that are not given out

  /** A file that nobody has, unless it is in the output. */
  predicate Missing(files: Files, file: string) { file !in WELL_KNOWN_FILES && file !in files }

  /** The file of a message whose name makes it count as known to everyone, though the file does
      not. */
  ghost predicate Stray(resolver: Schemas.TypeResolver, file: string) {
    && file !in WELL_KNOWN_FILES
    && exists n | n in resolver.messages :: Schemas.WELL_KNOWN <= n && resolver.messages[n].file == file
  }

  /** Something that was harvested leads to `file`, when imports have been pruned. */
  ghost predicate LedTo(schema: Schema, rank: string -> nat, harvested: Files, file: string)
    requires WellFormed(schema) && FilesOk(schema, harvested) && Ranked(harvested, rank)
  {
    Needed(PrunedAll(harvested, rank, UsedMap(schema, harvested)), file)
  }

  /** The file of a type that is asked for is not missing. */
  lemma AskedFile(schema: Schema, rank: string -> nat, st: InferenceSteps.RunState, harvested: Files, files: Files,
                  r: Ref)
    requires WellFormed(schema) && ShakeResult(schema, rank, Asked(schema, st), harvested, files)
    requires IsAsked(st, r) && KnownRef(schema, r)
    ensures !Missing(files, RefFile(schema, r))
  {
    var item := ItemOf(schema, r);
    RequestedReachable(schema, Asked(schema, st), item);
    assert Has(schema, harvested, item);
    assert Has(schema, PrunedAll(harvested, rank, UsedMap(schema, harvested)), item);
    ItemLeft(schema, PrunedAll(harvested, rank, UsedMap(schema, harvested)), files, item);
  }

  /** `f` is the file of the supplied message `n`, which is in the output. */
  predicate IsFileOf(st: InferenceSteps.RunState, n: string, f: string)
    requires n in st.now.resolver.messages
  {
    st.now.resolver.messages[n].file == f && Schemas.IsTypeInOutput(st.now.adhoc, st.now.referenced, n)
  }

  /** A noted file is stray, or not missing. */
  lemma NotedFile(schema: Schema, rank: string -> nat, st: InferenceSteps.RunState, harvested: Files, files: Files,
                  f: string)
    requires WellFormed(schema) && SameTypes(schema, st.now.resolver) && InferenceSteps.NotesOk(st)
    requires ShakeResult(schema, rank, Asked(schema, st), harvested, files) && f in st.files
    ensures !Missing(files, f) || Stray(st.now.resolver, f)
  {
    var resolver, s := st.now.resolver, st.now;
    assert Schemas.FileOk(resolver, s.adhoc, s.referenced, st.enums, f);
    if f != Schemas.ANY_FILE {
      if n :| n in resolver.messages && IsFileOf(st, n, f) {
        FieldTypes.SuppliedIsNotAdhoc(resolver, s.adhoc, n);
        if !(Schemas.WELL_KNOWN <= n) {
          AskedFile(schema, rank, st, harvested, files, ToMessage(n));
        }
      } else {
        var e :| e in st.enums && e in resolver.enums && resolver.enums[e] == f;
        AskedFile(schema, rank, st, harvested, files, ToEnum(e));
      }
    }
  }

  lemma LedToHarvested(schema: Schema, rank: string -> nat, harvested: Files, f: string)
    requires WellFormed(schema) && FilesOk(schema, harvested) && ImportClosed(schema, harvested)
             && Ranked(harvested, rank)
    requires LedTo(schema, rank, harvested, f)
    ensures f in harvested
  {
    var pruned := PrunedAll(harvested, rank, UsedMap(schema, harvested));
    var a :| a in pruned && Holds(pruned[a]) && Leads(pruned, a, f);
    var p :| IsImportChain(pruned, p, a, f);
    forall x, y | x in harvested.Keys && Imports(pruned, x, y) ensures y in harvested.Keys {
      assert y in harvested[x].dependency;
      ImportHarvested(schema, harvested, x, y);
    }
    ChainKept(pruned, harvested.Keys, p, a, f);
  }

  /** A noted file is missing just when it is stray and nothing harvested leads to it. */
  lemma MissingJustWhen(schema: Schema, rank: string -> nat, st: InferenceSteps.RunState, harvested: Files,
                        files: Files, f: string)
    requires WellFormed(schema) && SameTypes(schema, st.now.resolver) && InferenceSteps.NotesOk(st)
    requires ShakeResult(schema, rank, Asked(schema, st), harvested, files) && f in st.files
    ensures Missing(files, f) <==> Stray(st.now.resolver, f) && !LedTo(schema, rank, harvested, f)
  {
    NotedFile(schema, rank, st, harvested, files, f);
    if LedTo(schema, rank, harvested, f) {
      LedToHarvested(schema, rank, harvested, f);
    }
  }

  // ------------------------------------------------------------------------
  // Both together

  /** What is given out after a run: just what is reached from the types it referenced, outside
      well-known files, imports first, each file with the imports it needs and seeing what it uses.
      Of the files that the generated messages need, just the stray ones are missing that nothing
      harvested leads to. */
  ghost predicate GivenOut(schema: Schema, rank: string -> nat, st: InferenceSteps.RunState, harvested: Files,
                           files: Files, paths: seq<string>)
    requires WellFormed(schema)
  {
    && Graphs.Distinct(paths) && Graphs.ListsSet(paths, files.Keys) && ImportsBefore(files, paths)
    && ShakeResult(schema, rank, Asked(schema, st), harvested, files)
    && HoldsReached(schema, Asked(schema, st), files) && SeesAsBefore(schema, rank, files)
    && (forall p | p in files :: p in schema.imports && PrunedWell(schema, rank, p, files[p]))
    && Sight.ShownWell(schema, files)
    && (forall f | f in st.files ::
          Missing(files, f) <==> Stray(st.now.resolver, f) && !LedTo(schema, rank, harvested, f))
  }

  /** Gives out the files of the types in use, imports first. */
  method ShakeTypes(t: InferenceRun.TypeInference, schema: Schema, ghost rank: string -> nat,
                    leq: (string, string) -> bool)
    returns (paths: seq<string>, ghost files: Files, ghost harvested: Files)
    requires TotalOrder(leq) && InferenceSteps.NotesOk(t.State())
    requires WellFormed(schema) && ImportsRanked(schema, rank) && SameTypes(schema, t.resolver)
    ensures GivenOut(schema, rank, t.State(), harvested, files, paths)
  {
    AskedAreRequested(schema, t.State(), leq);
    var shaker := new Shaker(schema, rank, Asked(schema, t.State()));
    paths, harvested := shaker.TreeShake(t.referenced, t.referencedEnums, leq);
    files := shaker.files;
    forall f | f in t.dependency
      ensures Missing(files, f) <==> Stray(t.resolver, f) && !LedTo(schema, rank, harvested, f)
    {
      MissingJustWhen(schema, rank, t.State(), harvested, files, f);
    }
  }

  /** Infers all types, then gives out the files of the types in use. */
  method InferTypes(t: InferenceRun.TypeInference, schema: Schema, ghost rank: string -> nat,
                    leqE: (Dependencies.Entity, Dependencies.Entity) -> bool, leq: (string, string) -> bool)
    returns (r: Result<seq<InferenceSteps.Failure>, seq<Dependencies.Entity>>, paths: seq<string>,
             ghost files: Files, ghost harvested: Files, ghost todo: seq<Dependencies.Entity>,
             ghost adj: Graphs.Adjacency<Dependencies.Entity>)
    requires TotalOrder(leqE) && TotalOrder(leq) && Inference.WellIndexed(t.config)
    requires t.State() == InferenceSteps.Initial(t.config, t.resolver, t.dataTypes)
    requires WellFormed(schema) && ImportsRanked(schema, rank) && SameTypes(schema, t.resolver)
    modifies t
    ensures InferenceGraph.Pictures(adj, t.config.nodes, InferenceGraph.Owners(t.config))
    ensures r.Ok? <==> Graphs.Acyclic(adj)
    ensures r.Err? ==> paths == [] && t.State() == old(t.State())
    ensures r.Ok? ==> InferenceRun.Complete(t.config, todo)
    ensures r.Ok? ==> InferenceSteps.Outcome(t.State(), r.value) == InferenceSteps.Run(old(t.State()), todo)
    ensures r.Ok? ==> GivenOut(schema, rank, t.State(), harvested, files, paths)
  {
    r, adj, todo := t.Infer(leqE);
    paths, files, harvested := [], map[], map[];
    if r.Ok? {
      InferenceSteps.RunNotes(old(t.State()), todo);
      paths, files, harvested := ShakeTypes(t, schema, rank, leq);
    }
  }

  /** Whatever a file imports is well known or comes before it. */
  ghost predicate ImportsBefore(files: Files, paths: seq<string>) {
    forall i, d | 0 <= i < |paths| && Imports(files, paths[i], d) :: d in WELL_KNOWN_FILES || d in paths[..i]
  }

  /** The output holds what is reached from what was asked for, but for well-known files. */
  ghost predicate HoldsReached(schema: Schema, asked: set<Item>, files: Files)
    requires WellFormed(schema)
  {
    forall a | IsItem(schema, a) ::
      Has(schema, files, a) <==> Reachable(schema, asked, a) && FileOf(schema, a) !in WELL_KNOWN_FILES
  }

  // ------------------------------------------------------------------------
  // Resolvers for which nothing is ever missing

  /** Whatever is shaken off, no noted file is missing. */
  ghost predicate AllGivenOut(schema: Schema, rank: string -> nat, st: InferenceSteps.RunState)
    requires WellFormed(schema)
  {
    forall harvested, files | ShakeResult(schema, rank, Asked(schema, st), harvested, files) ::
      forall f | f in st.files :: !Missing(files, f)
  }

  ghost predicate CanRun(config: Configuration.MetricsConfig, todo: seq<Dependencies.Entity>) {
    Inference.WellIndexed(config) && InferenceRun.Complete(config, todo)
  }

  ghost predicate GivesOutFor(schema: Schema, rank: string -> nat, resolver: Schemas.TypeResolver,
                              config: Configuration.MetricsConfig, dataTypes: map<string, string>,
                              todo: seq<Dependencies.Entity>)
    requires WellFormed(schema)
  {
    CanRun(config, todo) ==>
      AllGivenOut(schema, rank, InferenceSteps.Run(InferenceSteps.Initial(config, resolver, dataTypes), todo).state)
  }

  /** So it is for every run of every configuration over `resolver`. */
  ghost predicate GivesOut(schema: Schema, rank: string -> nat, resolver: Schemas.TypeResolver)
    requires WellFormed(schema)
  {
    forall config, dataTypes, todo :: GivesOutFor(schema, rank, resolver, config, dataTypes, todo)
  }

  /** Every message with a well-known name lies in a well-known file. */
  ghost predicate NoStrays(resolver: Schemas.TypeResolver) {
    forall n | n in resolver.messages && Schemas.WELL_KNOWN <= n ::
      resolver.messages[n].file == "" || resolver.messages[n].file in WELL_KNOWN_FILES
  }

  /** Nothing is ever missing just when every message with a well-known name lies in a well-known
      file. */
  lemma {:induction false} GivesOutJustWhen(schema: Schema, rank: string -> nat, resolver: Schemas.TypeResolver)
    requires WellFormed(schema) && ImportsRanked(schema, rank) && SameTypes(schema, resolver)
    ensures GivesOut(schema, rank, resolver) <==> NoStrays(resolver)
  {
    if NoStrays(resolver) {
      forall config, dataTypes, todo ensures GivesOutFor(schema, rank, resolver, config, dataTypes, todo) {
        if CanRun(config, todo) {
          NothingMissing(schema, rank, resolver, config, dataTypes, todo);
        }
      }
    } else {
      var n :| n in resolver.messages && Schemas.WELL_KNOWN <= n && resolver.messages[n].file != ""
        && resolver.messages[n].file !in WELL_KNOWN_FILES;
      StrayFound(schema, rank, resolver, n);
    }
  }

  lemma NothingMissing(schema: Schema, rank: string -> nat, resolver: Schemas.TypeResolver,
                       config: Configuration.MetricsConfig, dataTypes: map<string, string>,
                       todo: seq<Dependencies.Entity>)
    requires WellFormed(schema) && SameTypes(schema, resolver) && NoStrays(resolver) && CanRun(config, todo)
    ensures
      var st := InferenceSteps.Initial(config, resolver, dataTypes);
      AllGivenOut(schema, rank, InferenceSteps.Run(st, todo).state)
  {
    var st := InferenceSteps.Run(InferenceSteps.Initial(config, resolver, dataTypes), todo).state;
    InferenceSteps.RunNotes(InferenceSteps.Initial(config, resolver, dataTypes), todo);
    forall harvested, files, f | ShakeResult(schema, rank, Asked(schema, st), harvested, files) && f in st.files
      ensures !Missing(files, f)
    {
      NotedFile(schema, rank, st, harvested, files, f);
    }
  }

  // ------------------------------------------------------------------------
  // A stray message leaves its file missing

  /** A report of the whole message that the data source `s`, of type `n`, gives. */
  function StrayConfig(n: string): Configuration.MetricsConfig {
    Configuration.MetricsConfig([Configuration.DataSource("s", n)], [Configuration.RawField("s", None, [])],
                                [Configuration.Report("r", "", StrayAssigns())])
  }

  function StrayAssigns(): seq<Configuration.FieldAssign> {
    [Configuration.FieldAssign("x", Configuration.NoAggregation, 0)]
  }

  const STRAY_TODO: seq<Dependencies.Entity> := [Dependencies.OnReport(0)]

  lemma StrayEntities(n: string)
    ensures Inference.WellIndexed(StrayConfig(n))
    ensures forall e :: Inference.IsEntity(StrayConfig(n), e) <==> e == Dependencies.OnReport(0)
    ensures CanRun(StrayConfig(n), STRAY_TODO)
  {
    var config := StrayConfig(n);
    assert Inference.AssignsOf(config, Dependencies.OnReport(0)) == StrayAssigns();
    forall d | Dependencies.DependsOn(config.nodes, 0, d) ensures !Inference.IsEntity(config, d) {
      InferenceSteps.NoReportDependency(config.nodes, 0, d);
    }
  }

  /** The one field has the type of the message, and notes its file. */
  lemma StrayField(s: Schemas.Snapshot, n: string)
    requires s.config == StrayConfig(n) && s.dataTypes == map[] && n in s.resolver.messages && Schemas.WELL_KNOWN <= n
    requires s.resolver.messages[n].file != ""
    ensures Inference.WellIndexed(s.config) && Inference.InRange(s.config, StrayAssigns())
    ensures Inference.FieldErrors(s, StrayAssigns()) == []
    ensures Inference.FieldFiles(s, StrayAssigns()) == [s.resolver.messages[n].file]
    ensures Inference.FieldEnums(s, StrayAssigns()) == {}
  {
    StrayEntities(n);
    var assigns := StrayAssigns();
    var ty := Resolution.TypeDesc(Resolution.MessageKind, n, false);
    assert Resolution.Resolve(Schemas.EnvOf(s), s.config.nodes, 0) == Ok(ty);
    assert Front(assigns) == [] && Last(assigns) == assigns[0];
    assert Schemas.FieldOf(s, assigns[0], 1).files == [s.resolver.messages[n].file];
  }

  lemma StrayInitial(resolver: Schemas.TypeResolver, n: string)
    ensures
      var st := InferenceSteps.Initial(StrayConfig(n), resolver, map[]);
      Schemas.TypeOf(st.now.types, Dependencies.OnReport(0)) == ""
  {
    InferenceSteps.EntitiesAreAll(StrayConfig(n));
  }

  /** Inference notes the file, and references nothing. */
  lemma StrayNoted(st: InferenceSteps.RunState, n: string)
    requires st.now.config == StrayConfig(n) && st.now.dataTypes == map[] && st.now.adhoc == []
             && st.now.referenced == {}
    requires st.files == [] && st.enums == {} && Schemas.TypeOf(st.now.types, Dependencies.OnReport(0)) == ""
    requires n in st.now.resolver.messages && Schemas.WELL_KNOWN <= n && st.now.resolver.messages[n].file != ""
    ensures CanRun(StrayConfig(n), STRAY_TODO)
    ensures
      var o := InferenceSteps.Run(st, STRAY_TODO);
      && o.failures == [] && o.state.files == [st.now.resolver.messages[n].file] && o.state.enums == {}
      && o.state.now.referenced == {}
  {
    var report := Dependencies.OnReport(0);
    var placed := InferenceSteps.WithType(st, report, Schemas.Qualified("r"));
    StrayEntities(n);
    Schemas.QualifiedNotWellKnown("r");
    StrayField(placed.now, n);
    assert Inference.NameOf(StrayConfig(n), report) == "r";
    assert Inference.AssignsOf(StrayConfig(n), report) == StrayAssigns();
    assert InferenceSteps.Processed(st, report) == InferenceSteps.Filled(placed, report, "r", StrayAssigns());
    InferenceSteps.RunOne(st, report);
  }

  lemma NothingReached(schema: Schema, a: Item)
    requires WellFormed(schema)
    ensures !Reachable(schema, {}, a)
  {
  }

  lemma NothingAsked(schema: Schema, rank: string -> nat)
    requires WellFormed(schema)
    ensures ShakeResult(schema, rank, {}, map[], map[])
  {
    var none: Files := map[];
    forall a ensures Has(schema, none, a) <==> Reachable(schema, {}, a) {
      NothingReached(schema, a);
    }
    NothingNeeded(PrunedAll(none, rank, UsedMap(schema, none)), none);
  }

  lemma NothingNeeded(pruned: Files, none: Files)
    requires pruned.Keys == none.Keys == {}
    ensures Narrowed(pruned, none)
  {
  }

  /** Who asks for nothing gets nothing. */
  lemma NothingGivenOut(schema: Schema, rank: string -> nat, harvested: Files, files: Files)
    requires WellFormed(schema) && ShakeResult(schema, rank, {}, harvested, files)
    ensures files == map[]
  {
    var pruned := PrunedAll(harvested, rank, UsedMap(schema, harvested));
    forall p | p in pruned ensures !Holds(pruned[p]) {
      HoldsNothing(schema, harvested, p);
    }
    forall p ensures p !in files {
      assert p in files ==> Needed(pruned, p);
    }
  }

  lemma HoldsNothing(schema: Schema, harvested: Files, p: string)
    requires WellFormed(schema) && FilesOk(schema, harvested) && p in harvested
    requires forall a :: Has(schema, harvested, a) <==> Reachable(schema, {}, a)
    ensures !Holds(harvested[p])
  {
    var f := harvested[p];
    assert FileOk(schema, p, f);
    forall m ensures m !in f.messageType {
      NothingReached(schema, TopMessage(m));
      assert m in f.messageType ==> Has(schema, harvested, TopMessage(m));
    }
    forall e ensures e !in f.enumType {
      NothingReached(schema, TopEnum(e));
      assert e in f.enumType ==> Has(schema, harvested, TopEnum(e));
    }
    NoElements(f.messageType);
    NoElements(f.enumType);
  }

  lemma NoElements(s: seq<string>)
    requires forall x :: x !in s
    ensures s == []
  {
    if s != [] {
      HasElement(s);
    }
  }

  lemma HasElement(s: seq<string>)
    requires s != []
    ensures exists x :: x in s
  {
    assert s[0] in s;
  }

  lemma NothingFor(schema: Schema, rank: string -> nat, st: InferenceSteps.RunState, harvested: Files, files: Files)
    requires WellFormed(schema) && st.now.referenced == {} && st.enums == {}
    requires ShakeResult(schema, rank, Asked(schema, st), harvested, files)
    ensures files == map[]
  {
    assert Asked(schema, st) == {};
    NothingGivenOut(schema, rank, harvested, files);
  }

  lemma StrayFound(schema: Schema, rank: string -> nat, resolver: Schemas.TypeResolver, n: string)
    requires WellFormed(schema) && n in resolver.messages && Schemas.WELL_KNOWN <= n
    requires resolver.messages[n].file != "" && resolver.messages[n].file !in WELL_KNOWN_FILES
    ensures !GivesOut(schema, rank, resolver)
  {
    var st := InferenceSteps.Initial(StrayConfig(n), resolver, map[]);
    StrayInitial(resolver, n);
    StrayNoted(st, n);
    StrayMissing(schema, rank, InferenceSteps.Run(st, STRAY_TODO).state, resolver.messages[n].file);
    assert !GivesOutFor(schema, rank, resolver, StrayConfig(n), map[], STRAY_TODO);
  }

  lemma StrayMissing(schema: Schema, rank: string -> nat, st: InferenceSteps.RunState, f: string)
    requires WellFormed(schema) && st.files == [f] && st.now.referenced == {} && st.enums == {}
             && f !in WELL_KNOWN_FILES
    ensures !AllGivenOut(schema, rank, st)
  {
    var none: Files := map[];
    NothingAsked(schema, rank);
    assert Asked(schema, st) == {};
    assert Missing(none, f) && f in st.files;
  }

  lemma StraySchedule(n: string, todo: seq<Dependencies.Entity>)
    requires InferenceRun.Complete(StrayConfig(n), todo)
    ensures todo == STRAY_TODO
  {
    StrayEntities(n);
    InferenceRun.BuildersCount(todo);
    assert InferenceSteps.Builders(todo) == {Dependencies.OnReport(0)};
    assert todo[0] in InferenceSteps.Builders(todo);
  }

  /** For every message with a well-known name whose file is not well known: a report of that message
      imports the file, no error is raised, and no file at all is given out. */
  method StrayRun(schema: Schema, ghost rank: string -> nat, resolver: Schemas.TypeResolver, n: string,
                  leqE: (Dependencies.Entity, Dependencies.Entity) -> bool, leq: (string, string) -> bool)
    returns (t: InferenceRun.TypeInference, r: Result<seq<InferenceSteps.Failure>, seq<Dependencies.Entity>>,
        paths: seq<string>)
    requires TotalOrder(leqE) && TotalOrder(leq)
    requires WellFormed(schema) && ImportsRanked(schema, rank) && SameTypes(schema, resolver)
    requires n in resolver.messages && Schemas.WELL_KNOWN <= n
    requires resolver.messages[n].file != "" && resolver.messages[n].file !in WELL_KNOWN_FILES
    ensures fresh(t) && t.config == StrayConfig(n) && t.resolver == resolver
    ensures r == Ok([]) && t.dependency == [resolver.messages[n].file] && t.referenced == {} == t.referencedEnums
    ensures paths == []
  {
    StrayEntities(n);
    StrayInitial(resolver, n);
    t := new InferenceRun.TypeInference(StrayConfig(n), resolver, map[]);
    ghost var st, files, harvested, todo, adj := t.State(), map[], map[], [], map[];
    r, paths, files, harvested, todo, adj := InferTypes(t, schema, rank, leqE, leq);
    StrayRootless(n);
    InferenceRun.RootlessAcyclic(StrayConfig(n), adj);
    StraySchedule(n, todo);
    StrayNoted(st, n);
    NothingFor(schema, rank, t.State(), harvested, files);
    NoElements(paths);
  }

  lemma StrayRootless(n: string)
    ensures forall o | o in InferenceGraph.Owners(StrayConfig(n)) :: o.roots == []
  {
  }
}
