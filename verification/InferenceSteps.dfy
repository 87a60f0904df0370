/** One step of inference as a function of the state, the run as a fold of such steps, and what
    holds after any run. */
module InferenceSteps {
  import opened Wrappers
  import opened Sorting
  import opened Configuration
  import opened Dependencies
  import opened InferenceGraph
  import opened Resolution
  import opened Schemas
  import opened Inference
  import opened FieldTypes

  /** The snapshot in which `e` already has its own name as a placeholder for its type. */
  function Placed(s: Snapshot, e: Entity): Snapshot
    requires IsEntity(s.config, e)
  {
    s.(types := s.types[e := Qualified(NameOf(s.config, e))])
  }

  function Entities(config: MetricsConfig): (r: set<Entity>)
    ensures forall e | e in r :: IsEntity(config, e)
  {
    (set s | s in config.sources && IsEntity(config, OnSource(s.name)) :: OnSource(s.name))
    + (set i | i in Below(|config.nodes|) && IsEntity(config, OnBuilder(i)) :: OnBuilder(i))
    + (set k | k in Below(|config.reports|) :: OnReport(k))
  }

  lemma EntitiesAreAll(config: MetricsConfig)
    ensures forall e :: e in Entities(config) <==> IsEntity(config, e)
  {
    forall e | IsEntity(config, e) ensures e in Entities(config) {
      match e
      case OnSource(name) => assert SourceNamed(config.sources, name).value in config.sources;
      case OnBuilder(i) => assert i in Below(|config.nodes|);
      case OnReport(k) => assert k in Below(|config.reports|);
    }
  }

  // ------------------------------------------------------------------------
  // Where a missing type comes from

  lemma EntityOfDirect(config: MetricsConfig, root: nat, i: nat)
    requires DependsOn(config.nodes, root, OnBuilder(i))
    ensures IsEntity(config, OnBuilder(i))
  {
    var j :| Reachable(config.nodes, root, j) && OnBuilder(i) in Direct(config.nodes, j);
  }

  lemma EnvBlames(s: Snapshot)
    ensures Blames(EnvOf(s))
  {
  }

  /** If a field of `e` misses the type of `d`, then it depends on `d`, and `d` has no type. */
  lemma {:induction false} MissingDependency(s: Snapshot, e: Entity, d: Entity) returns (k: nat)
    requires WellIndexed(s.config) && IsEntity(s.config, e)
    requires Unresolved(NotInferred(d)) in FieldErrors(Placed(s, e), AssignsOf(s.config, e))
    ensures IsEntity(s.config, d) && !d.OnReport? && TypeOf(s.types, d) == ""
    ensures k < |AssignsOf(s.config, e)| && !AssignsOf(s.config, e)[k].aggregation.Count?
    ensures DependsOn(s.config.nodes, AssignsOf(s.config, e)[k].index, d)
  {
    var t, assigns := Placed(s, e), AssignsOf(s.config, e);
    k := ErrorSource(t, assigns, Unresolved(NotInferred(d)));
    FieldBlames(t, assigns[k], k + 1, d);
    EnvBlames(t);
    MissingIsDependency(EnvOf(t), s.config.nodes, assigns[k].index, d);
    if d.OnBuilder? {
      EntityOfDirect(s.config, assigns[k].index, d.index);
    }
  }

  lemma FieldBlames(s: Snapshot, fa: FieldAssign, pos: nat, d: Entity)
    requires Resolvable(s.config.nodes) && IndexOk(s.config.nodes, fa)
    requires FieldOf(s, fa, pos).field == Err(Unresolved(NotInferred(d)))
    ensures ReadsType(fa) && Resolve(EnvOf(s), s.config.nodes, fa.index) == Err(NotInferred(d))
  {
  }

  lemma {:induction false} RootOfAssign(assigns: seq<FieldAssign>, k: nat)
    requires k < |assigns| && !assigns[k].aggregation.Count?
    ensures assigns[k].index in AssignRoots(assigns)
  {
    if k < |assigns| - 1 {
      RootOfAssign(Front(assigns), k);
    }
  }

  lemma {:induction false} RootOfRaw(assigns: seq<RawAssign>, k: nat)
    requires k < |assigns| && assigns[k].index.Some?
    ensures assigns[k].index.value in RawRoots(assigns)
  {
    if k < |assigns| - 1 {
      RootOfRaw(Front(assigns), k);
    }
  }

  /** What a field of a source or an inline builder depends on, its entity needs. */
  lemma {:induction false} FieldNeeds(config: MetricsConfig, e: Entity, k: nat, d: Entity)
    requires Assigned(config) && IsEntity(config, e) && !e.OnReport? && k < |AssignsOf(config, e)|
             && !AssignsOf(config, e)[k].aggregation.Count?
    requires DependsOn(config.nodes, AssignsOf(config, e)[k].index, d)
    ensures Needs(config.nodes, Owners(config), e, d)
  {
    if e.OnSource? {
      var source := SourceNamed(config.sources, e.name).value;
      RootOfAssign(source.assigns, k);
      var j :| 0 <= j < |config.sources| && config.sources[j] == source;
      var o := SourceOwners(config.sources)[j];
      assert o in Owners(config) && NeedsVia(config.nodes, o, d);
    } else {
      RootOfRaw(config.nodes[e.index].assigns, k);
      var o := NodeOwners(config.nodes)[e.index];
      assert o == Owners(config)[|config.sources| + e.index];
      assert o in Owners(config) && NeedsVia(config.nodes, o, d);
    }
  }

  // ------------------------------------------------------------------------
  // The placeholder does not show

  lemma PlaceholderHidden(s: Snapshot, e: Entity, root: nat)
    requires IsEntity(s.config, e) && !DependsOn(s.config.nodes, root, e)
    ensures Agree(EnvOf(s), EnvOf(Placed(s, e)), s.config.nodes, root)
  {
    forall d | DependsOn(s.config.nodes, root, d) ensures SameOn(EnvOf(s), EnvOf(Placed(s, e)), d) {
      assert d != e;
    }
  }

  lemma FieldUnaffected(s: Snapshot, e: Entity, fa: FieldAssign, pos: nat)
    requires Resolvable(s.config.nodes) && IndexOk(s.config.nodes, fa) && IsEntity(s.config, e)
    requires fa.aggregation.Count? || !DependsOn(s.config.nodes, fa.index, e)
    ensures FieldOf(Placed(s, e), fa, pos) == FieldOf(s, fa, pos)
  {
    if ReadsType(fa) {
      PlaceholderHidden(s, e, fa.index);
      ResolveLocal(EnvOf(s), EnvOf(Placed(s, e)), s.config.nodes, fa.index);
    }
  }

  /** If no field of `e` depends on `e`, the placeholder has no effect on its schema. */
  lemma {:induction false} PlaceholderHarmless(s: Snapshot, e: Entity, assigns: seq<FieldAssign>)
    requires Resolvable(s.config.nodes) && Inference.InRange(s.config, assigns) && IsEntity(s.config, e)
    requires forall k | 0 <= k < |assigns| ::
             assigns[k].aggregation.Count? || !DependsOn(s.config.nodes, assigns[k].index, e)
    ensures FieldErrors(Placed(s, e), assigns) == FieldErrors(s, assigns)
    ensures GoodFields(Placed(s, e), assigns) == GoodFields(s, assigns)
  {
    if assigns != [] {
      FieldUnaffected(s, e, Last(assigns), |assigns|);
      PlaceholderHarmless(s, e, Front(assigns));
    }
  }

  // ------------------------------------------------------------------------
  // One step

  /** What inference updates: types, registry and references, with the files and enums noted. */
  datatype RunState = RunState(now: Snapshot, files: seq<string>, enums: set<string>)
  datatype Step = Step(state: RunState, errs: seq<InferError>)

  function Initial(config: MetricsConfig, resolver: TypeResolver, dataTypes: map<string, string>): RunState {
    RunState(Snapshot(config, resolver, dataTypes, map e | e in Entities(config) :: Preset(config, e), [], {}), [], {})
  }

  function WithType(st: RunState, e: Entity, ty: string): RunState {
    st.(now := st.now.(types := st.now.types[e := ty]))
  }

  /** Registers the message with `fields`, or finds one that differs by name alone, for `e`. */
  function Register(st: RunState, e: Entity, name: string, fields: seq<Field>): RunState {
    match FindIdentical(st.now.adhoc, fields)
    case Some(d) => WithType(st, e, Qualified(d.name))
    case None => WithType(st.(now := st.now.(adhoc := st.now.adhoc + [Descriptor(name, fields)])), e, Qualified(name))
  }

  /** Infers the fields of `e`, which has a placeholder for its type. */
  function Filled(st: RunState, e: Entity, name: string, assigns: seq<FieldAssign>): Step
    requires Resolvable(st.now.config.nodes) && Inference.InRange(st.now.config, assigns)
  {
    var s := st.now;
    var noted := RunState(s, st.files + FieldFiles(s, assigns), st.enums + FieldEnums(s, assigns));
    if FieldErrors(s, assigns) != [] then Step(WithType(noted, e, ""), FieldErrors(s, assigns))
    else Step(Register(noted, e, name, GoodFields(s, assigns)), [])
  }

  /** Generates the schema of `e`. If its name is taken, an inline builder gets that name for its
      type, and nothing at all happens to an aggregator or a report. */
  function Generated(st: RunState, e: Entity, name: string, assigns: seq<FieldAssign>): Step
    requires Resolvable(st.now.config.nodes) && Inference.InRange(st.now.config, assigns)
  {
    if !IsTypeInOutput(st.now.adhoc, st.now.referenced, Qualified(name)) then
      Filled(WithType(st, e, Qualified(name)), e, name, assigns)
    else Step(if e.OnBuilder? then WithType(st, e, Qualified(name)) else st, [])
  }

  /** A type that is given must be a supplied one; it is referenced unless it is in the output. */
  function Referred(st: RunState, name: string): Step {
    if name !in st.now.resolver.messages then Step(st, [MessageTypeNotFound(name)])
    else if IsTypeInOutput(st.now.adhoc, st.now.referenced, name) then Step(st, [])
    else Step(st.(now := st.now.(referenced := st.now.referenced + {name})), [])
  }

  function Processed(st: RunState, e: Entity): Step
    requires WellIndexed(st.now.config) && IsEntity(st.now.config, e)
  {
    if TypeOf(st.now.types, e) != "" then Referred(st, TypeOf(st.now.types, e))
    else Generated(st, e, NameOf(st.now.config, e), AssignsOf(st.now.config, e))
  }

  // ------------------------------------------------------------------------
  // The run

  datatype Failure = Failure(entity: Entity, errors: seq<InferError>)
  datatype Outcome = Outcome(state: RunState, failures: seq<Failure>)

  function Recorded(failures: seq<Failure>, e: Entity, errs: seq<InferError>): seq<Failure> {
    if errs == [] then failures else failures + [Failure(e, errs)]
  }

  ghost predicate AllEntities(config: MetricsConfig, order: seq<Entity>) {
    forall k | 0 <= k < |order| :: IsEntity(config, order[k])
  }

  /** Processes the builders of `order`, one after the other. */
  ghost function Run(st: RunState, order: seq<Entity>): (o: Outcome)
    requires WellIndexed(st.now.config) && AllEntities(st.now.config, order)
    ensures o.state.now.config == st.now.config && o.state.now.resolver == st.now.resolver
    ensures o.state.now.dataTypes == st.now.dataTypes
  {
    if order == [] then Outcome(st, [])
    else
      var o := Run(st, Front(order));
      var step := Processed(o.state, Last(order));
      Outcome(step.state, Recorded(o.failures, Last(order), step.errs))
  }

  lemma RunOne(st: RunState, e: Entity)
    requires WellIndexed(st.now.config) && IsEntity(st.now.config, e)
    ensures AllEntities(st.now.config, [e])
    ensures Run(st, [e]) == Outcome(Processed(st, e).state, Recorded([], e, Processed(st, e).errs))
  {
    var none: seq<Entity> := [];
    RunSnoc(st, none, e);
    assert none + [e] == [e];
  }

  lemma RunSnoc(st: RunState, order: seq<Entity>, e: Entity)
    requires WellIndexed(st.now.config) && AllEntities(st.now.config, order) && IsEntity(st.now.config, e)
    ensures AllEntities(st.now.config, order + [e])
    ensures
      var o := Run(st, order);
      var step := Processed(o.state, e);
      Run(st, order + [e]) == Outcome(step.state, Recorded(o.failures, e, step.errs))
  {
    assert Front(order + [e]) == order;
  }

  lemma NoReportDependency(nodes: seq<RawNode>, root: nat, d: Entity)
    requires DependsOn(nodes, root, d)
    ensures !d.OnReport?
  {
    var i :| Reachable(nodes, root, i) && d in Direct(nodes, i);
  }

  // ------------------------------------------------------------------------
  // Failures of a run

  /** An error was recorded for `e` before position `k`. */
  predicate RecordedBefore(failures: seq<Failure>, k: nat, e: Entity)
    requires k <= |failures|
  {
    exists j | 0 <= j < k :: failures[j].entity == e
  }

  /** Whenever a failure is about a type not inferred yet, the builder that lacks it has
      failed before. */
  ghost predicate Explained(failures: seq<Failure>) {
    forall k, d | 0 <= k < |failures| && Unresolved(NotInferred(d)) in failures[k].errors ::
          RecordedBefore(failures, k, d)
  }

  /** Every processed builder without a type has failed. */
  ghost predicate Reported(types: map<Entity, string>, done: set<Entity>, failures: seq<Failure>) {
    forall e | e in done && TypeOf(types, e) == "" :: RecordedBefore(failures, |failures|, e)
  }

  lemma RecordedSnoc(failures: seq<Failure>, f: Failure, k: nat, e: Entity)
    requires k <= |failures|
    ensures RecordedBefore(failures + [f], k, e) <==> RecordedBefore(failures, k, e)
    ensures RecordedBefore(failures, k, e) || f.entity == e ==> RecordedBefore(failures + [f], |failures| + 1, e)
  {
    if f.entity == e {
      assert (failures + [f])[|failures|].entity == e;
    }
    assert forall j | 0 <= j < |failures| :: (failures + [f])[j] == failures[j];
  }

  lemma ExplainedSnoc(failures: seq<Failure>, f: Failure)
    requires Explained(failures)
    requires forall d | Unresolved(NotInferred(d)) in f.errors :: RecordedBefore(failures, |failures|, d)
    ensures Explained(failures + [f])
  {
    var more := failures + [f];
    forall k, d | 0 <= k < |more| && Unresolved(NotInferred(d)) in more[k].errors ensures RecordedBefore(more, k, d) {
      RecordedSnoc(failures, f, k, d);
    }
  }

  /** What `e` needs, of sources and inline builders, is in `done`. */
  ghost predicate Ready(config: MetricsConfig, e: Entity, done: set<Entity>)
    requires Assigned(config) && IsEntity(config, e)
  {
    forall k, d | 0 <= k < |AssignsOf(config, e)| && !AssignsOf(config, e)[k].aggregation.Count?
      && DependsOn(config.nodes, AssignsOf(config, e)[k].index, d) && IsEntity(config, d) :: d in done
  }

  /** If `e` is ready when it is processed, the types it misses belong to builders that failed. */
  lemma {:induction false} ErrorsExplained(s: Snapshot, e: Entity, done: set<Entity>, failures: seq<Failure>)
    requires WellIndexed(s.config) && IsEntity(s.config, e) && Ready(s.config, e, done)
             && Reported(s.types, done, failures)
    ensures forall d | Unresolved(NotInferred(d)) in FieldErrors(Placed(s, e), AssignsOf(s.config, e)) ::
            RecordedBefore(failures, |failures|, d)
  {
    forall d | Unresolved(NotInferred(d)) in FieldErrors(Placed(s, e), AssignsOf(s.config, e))
      ensures RecordedBefore(failures, |failures|, d) {
      var k := MissingDependency(s, e, d);
      assert d in done;
    }
  }

  // ------------------------------------------------------------------------
  // What is noted in a run

  lemma {:induction false} FieldFilesOk(s: Snapshot, assigns: seq<FieldAssign>)
    requires Resolvable(s.config.nodes) && Inference.InRange(s.config, assigns)
    ensures FilesOk(s.resolver, s.adhoc, s.referenced, FieldEnums(s, assigns), FieldFiles(s, assigns))
  {
    if assigns != [] {
      var front, last := FieldFiles(s, Front(assigns)), FieldOf(s, Last(assigns), |assigns|);
      FieldFilesOk(s, Front(assigns));
      OutcomeFilesOk(s, Last(assigns), |assigns|);
      FilesJoin(s.resolver, s.adhoc, s.referenced, FieldEnums(s, Front(assigns)), front, last.enums, last.files);
    }
  }

  lemma FilesJoin(resolver: TypeResolver, adhoc: seq<Descriptor>, referenced: set<string>, enums: set<string>,
                  files: seq<string>, enums1: set<string>, files1: seq<string>)
    requires FilesOk(resolver, adhoc, referenced, enums, files) && FilesOk(resolver, adhoc, referenced, enums1, files1)
    ensures FilesOk(resolver, adhoc, referenced, enums + enums1, files + files1)
  {
    FilesGrow(resolver, adhoc, adhoc, referenced, referenced, enums, enums + enums1, files);
    FilesGrow(resolver, adhoc, adhoc, referenced, referenced, enums1, enums + enums1, files1);
  }

  /** What has been noted, with or without distinct names: files of types in use, and supplied types. */
  ghost predicate NotesOk(st: RunState) {
    && FilesOk(st.now.resolver, st.now.adhoc, st.now.referenced, st.enums, st.files)
    && st.now.referenced <= st.now.resolver.messages.Keys
  }

  lemma FilledNotes(st: RunState, e: Entity, name: string, assigns: seq<FieldAssign>)
    requires Resolvable(st.now.config.nodes) && Inference.InRange(st.now.config, assigns) && NotesOk(st)
    ensures NotesOk(Filled(st, e, name, assigns).state)
  {
    var s, next := st.now, Filled(st, e, name, assigns).state;
    FieldFilesOk(s, assigns);
    FilesJoin(s.resolver, s.adhoc, s.referenced, st.enums, st.files, FieldEnums(s, assigns), FieldFiles(s, assigns));
    FilesGrow(s.resolver, s.adhoc, next.now.adhoc, s.referenced, s.referenced, next.enums, next.enums, next.files);
  }

  lemma StepNotes(st: RunState, e: Entity)
    requires WellIndexed(st.now.config) && IsEntity(st.now.config, e) && NotesOk(st)
    ensures NotesOk(Processed(st, e).state)
  {
    var s, next := st.now, Processed(st, e).state;
    if TypeOf(s.types, e) != "" {
      FilesGrow(s.resolver, s.adhoc, s.adhoc, s.referenced, next.now.referenced, st.enums, st.enums, st.files);
    } else if !IsTypeInOutput(s.adhoc, s.referenced, Qualified(NameOf(s.config, e))) {
      FilledNotes(WithType(st, e, Qualified(NameOf(s.config, e))), e, NameOf(s.config, e), AssignsOf(s.config, e));
    }
  }

  lemma {:induction false} RunNotes(st: RunState, order: seq<Entity>)
    requires WellIndexed(st.now.config) && AllEntities(st.now.config, order) && NotesOk(st)
    ensures NotesOk(Run(st, order).state)
  {
    if order != [] {
      RunNotes(st, Front(order));
      StepNotes(Run(st, Front(order)).state, Last(order));
    }
  }

  // ------------------------------------------------------------------------
  // What every step keeps

  /** Registry, types and notes are in order after the builders of `done`. */
  ghost predicate StateOk(st: RunState, done: set<Entity>)
    requires Assigned(st.now.config)
  {
    var s := st.now;
    && RegistryOk(s.config, s.resolver, s.adhoc, s.referenced, st.files, st.enums, done)
    && TypesOk(s.config, s.types, s.adhoc, done)
    && FilesOk(s.resolver, s.adhoc, s.referenced, st.enums, st.files)
    && PresetsOut(s.config, s.resolver, s.adhoc, s.referenced, done)
  }

  ghost predicate Sensible(s: Snapshot) { WellIndexed(s.config) && DistinctNames(s.config, s.resolver) }

  lemma InitialOk(config: MetricsConfig, resolver: TypeResolver, dataTypes: map<string, string>)
    requires WellIndexed(config)
    ensures StateOk(Initial(config, resolver, dataTypes), {})
  {
    EntitiesAreAll(config);
  }

  lemma {:induction false} FieldsTracked(s: Snapshot, assigns: seq<FieldAssign>, files: seq<string>, enums: set<string>)
    requires Resolvable(s.config.nodes) && Inference.InRange(s.config, assigns)
    requires (forall f | f in FieldFiles(s, assigns) :: f in files) && FieldEnums(s, assigns) <= enums
    ensures AllTracked(s.resolver, s.adhoc, s.referenced, files, enums, GoodFields(s, assigns))
  {
    if assigns != [] {
      FieldsTracked(s, Front(assigns), files, enums);
      OutcomeTracked(s, Last(assigns), |assigns|, files, enums);
    }
  }

  lemma UpdateTwice<K, V>(m: map<K, V>, k: K, v: V, w: V)
    ensures m[k := v][k := w] == m[k := w]
  {
  }

  lemma RegistersOk(config: MetricsConfig, resolver: TypeResolver, adhoc: seq<Descriptor>, adhoc1: seq<Descriptor>,
                    referenced: set<string>,
                    files: seq<string>, enums: set<string>, done: set<Entity>, e: Entity, fields: seq<Field>,
                        ty: string)
    requires RegistryOk(config, resolver, adhoc, referenced, files, enums, done) && IsEntity(config, e)
    requires AllTracked(resolver, adhoc, referenced, files, enums, fields)
             && (forall d | d in adhoc :: d.name != NameOf(config, e))
    requires Registered(adhoc, adhoc1, NameOf(config, e), fields, ty)
    ensures RegistryOk(config, resolver, adhoc1, referenced, files, enums, done + {e})
  {
    if FindIdentical(adhoc, fields).Some? {
      RegistryGrows(config, resolver, adhoc, referenced, referenced, files, files, enums, enums, done, done + {e});
    } else {
      RegistryAdds(config, resolver, adhoc, referenced, files, enums, done, e, fields);
    }
  }

  /** The message with `fields` is in the registry, found there or added under `name`. */
  predicate Registered(adhoc: seq<Descriptor>, adhoc1: seq<Descriptor>, name: string, fields: seq<Field>, ty: string) {
    match FindIdentical(adhoc, fields)
    case Some(d) => ty == Qualified(d.name) && adhoc1 == adhoc
    case None => ty == Qualified(name) && adhoc1 == adhoc + [Descriptor(name, fields)]
  }

  lemma RegisteredFields(adhoc: seq<Descriptor>, adhoc1: seq<Descriptor>, name: string, fields: seq<Field>, ty: string)
    requires Registered(adhoc, adhoc1, name, fields, ty)
    ensures exists d | d in adhoc1 :: ty == Qualified(d.name) && d.fields == fields
  {
    match FindIdentical(adhoc, fields)
    case Some(d) => assert d in adhoc1;
    case None => assert Descriptor(name, fields) in adhoc1;
  }

  lemma RegisteredHasSchema(adhoc: seq<Descriptor>, adhoc1: seq<Descriptor>, name: string, fields: seq<Field>,
                            assigns: seq<FieldAssign>, ty: string)
    requires Registered(adhoc, adhoc1, name, fields, ty) && Describes(fields, assigns)
    ensures HasSchema(adhoc1, assigns, ty) && ty != "" && forall d | d in adhoc :: d in adhoc1
  {
    match FindIdentical(adhoc, fields)
    case Some(d) => assert d in adhoc1;
    case None => assert Descriptor(name, fields) in adhoc1;
  }

  // ------------------------------------------------------------------------
  // One step keeps the state in order

  /** What processing `e` does to types and registry. */
  ghost predicate Moves(s: Snapshot, t: Snapshot, e: Entity) {
    Grows(s, t) && e in t.types && t.types == s.types[e := t.types[e]]
  }

  /** The errors of `e` in the state `s`: those its fields raise, or that its type is not supplied. */
  function ErrorsOf(s: Snapshot, e: Entity): seq<InferError>
    requires WellIndexed(s.config) && IsEntity(s.config, e)
  {
    if Preset(s.config, e) == "" then FieldErrors(s, AssignsOf(s.config, e))
    else if Preset(s.config, e) in s.resolver.messages then []
    else [MessageTypeNotFound(Preset(s.config, e))]
  }

  lemma ReferredOk(st: RunState, done: set<Entity>, e: Entity)
    requires Sensible(st.now) && StateOk(st, done) && IsEntity(st.now.config, e) && e !in done
    requires Preset(st.now.config, e) != ""
    ensures
      var step := Referred(st, Preset(st.now.config, e));
      && StateOk(step.state, done + {e}) && Moves(st.now, step.state.now, e)
  {
    var s, t := st.now, Referred(st, Preset(st.now.config, e)).state.now;
    assert TypeOk(s.config, s.types, s.adhoc, done, e);
    RegistryGrows(s.config, s.resolver, s.adhoc, s.referenced, t.referenced, st.files, st.files, st.enums, st.enums,
        done, done + {e});
    FilesGrow(s.resolver, s.adhoc, s.adhoc, s.referenced, t.referenced, st.enums, st.enums, st.files);
    PresetsGrow(s.config, s.resolver, s.adhoc, s.adhoc, s.referenced, t.referenced, done, e);
    assert s.types[e := s.types[e]] == s.types;
    TypesGrow(s.config, s.types, s.adhoc, s.adhoc, done, e, s.types[e]);
  }

  /** What filling in the schema of `e` does. */
  ghost predicate FilledIn(s: Snapshot, step: Step, e: Entity)
    requires WellIndexed(s.config) && IsEntity(s.config, e)
  {
    var t := step.state.now;
    && Moves(s, t, e) && step.errs == FieldErrors(Placed(s, e), AssignsOf(s.config, e))
    && (t.types[e] == "" <==> step.errs != [])
    && (step.errs == [] ==>
          Registered(s.adhoc, t.adhoc, NameOf(s.config, e), GoodFields(Placed(s, e), AssignsOf(s.config, e)),
              t.types[e]))
  }

  lemma FilledMoves(st: RunState, e: Entity)
    requires WellIndexed(st.now.config) && IsEntity(st.now.config, e) && TypeOf(st.now.types, e) == ""
    ensures
      var name, assigns := NameOf(st.now.config, e), AssignsOf(st.now.config, e);
      FilledIn(st.now, Filled(WithType(st, e, Qualified(name)), e, name, assigns), e)
  {
    var s, name, assigns := st.now, NameOf(st.now.config, e), AssignsOf(st.now.config, e);
    var t := Filled(WithType(st, e, Qualified(name)), e, name, assigns).state.now;
    UpdateTwice(s.types, e, Qualified(name), t.types[e]);
    assert WithType(st, e, Qualified(name)).now == Placed(s, e);
  }

  lemma FilledOk(st: RunState, done: set<Entity>, e: Entity)
    requires Sensible(st.now) && StateOk(st, done) && IsEntity(st.now.config, e) && e !in done
    requires Preset(st.now.config, e) == ""
    ensures
      var name, assigns := NameOf(st.now.config, e), AssignsOf(st.now.config, e);
      StateOk(Filled(WithType(st, e, Qualified(name)), e, name, assigns).state, done + {e})
  {
    var s, name, assigns := st.now, NameOf(st.now.config, e), AssignsOf(st.now.config, e);
    var p := Placed(s, e);
    var step := Filled(WithType(st, e, Qualified(name)), e, name, assigns);
    var files, enums, t := step.state.files, step.state.enums, step.state.now;
    assert TypeOk(s.config, s.types, s.adhoc, done, e);
    FilledMoves(st, e);
    FieldFilesOk(p, assigns);
    FilesJoin(s.resolver, s.adhoc, s.referenced, st.enums, st.files, FieldEnums(p, assigns), FieldFiles(p, assigns));
    FilesGrow(s.resolver, s.adhoc, t.adhoc, s.referenced, s.referenced, enums, enums, files);
    FieldsTracked(p, assigns, files, enums);
    FilledRegistry(s, t, st.files, files, st.enums, enums, done, e, step.errs);
    PresetsGrow(s.config, s.resolver, s.adhoc, t.adhoc, s.referenced, s.referenced, done, e);
  }

  lemma FilledRegistry(s: Snapshot, t: Snapshot, files0: seq<string>, files: seq<string>, enums0: set<string>,
                       enums: set<string>, done: set<Entity>, e: Entity, errs: seq<InferError>)
    requires Sensible(s) && IsEntity(s.config, e) && e !in done && Preset(s.config, e) == ""
             && t.referenced == s.referenced
    requires RegistryOk(s.config, s.resolver, s.adhoc, s.referenced, files0, enums0, done)
    requires TypesOk(s.config, s.types, s.adhoc, done) && files0 <= files && enums0 <= enums
    requires Moves(s, t, e) && errs == FieldErrors(Placed(s, e), AssignsOf(s.config, e))
    requires if errs != [] then t.types[e] == "" && t.adhoc == s.adhoc
             else Registered(s.adhoc, t.adhoc, NameOf(s.config, e), GoodFields(Placed(s, e), AssignsOf(s.config, e)),
                 t.types[e])
    requires AllTracked(s.resolver, s.adhoc, s.referenced, files, enums,
             GoodFields(Placed(s, e), AssignsOf(s.config, e)))
    ensures RegistryOk(s.config, s.resolver, t.adhoc, s.referenced, files, enums, done + {e})
    ensures TypesOk(s.config, t.types, t.adhoc, done + {e})
  {
    var assigns, name := AssignsOf(s.config, e), NameOf(s.config, e);
    var fields := GoodFields(Placed(s, e), assigns);
    NameIsFree(s.config, s.resolver, s.adhoc, s.referenced, files0, enums0, done, e);
    if errs != [] {
      RegistryGrows(s.config, s.resolver, s.adhoc, s.referenced, s.referenced, files0, files, enums0, enums, done,
          done + {e});
    } else {
      RegistryGrows(s.config, s.resolver, s.adhoc, s.referenced, s.referenced, files0, files, enums0, enums, done,
          done);
      GoodFieldsDescribe(Placed(s, e), assigns);
      RegistersOk(s.config, s.resolver, s.adhoc, t.adhoc, s.referenced, files, enums, done, e, fields, t.types[e]);
      RegisteredHasSchema(s.adhoc, t.adhoc, name, fields, assigns, t.types[e]);
    }
    TypesGrow(s.config, s.types, s.adhoc, t.adhoc, done, e, t.types[e]);
  }

  /** A builder that has not been processed has no type but the one it was given. */
  lemma NotYetTyped(st: RunState, done: set<Entity>, e: Entity)
    requires Assigned(st.now.config) && StateOk(st, done) && IsEntity(st.now.config, e) && e !in done
    ensures TypeOf(st.now.types, e) == Preset(st.now.config, e)
  {
    assert TypeOk(st.now.config, st.now.types, st.now.adhoc, done, e);
  }

  /** With distinct names, the schema of a builder without a type is always generated. */
  lemma ProcessedFills(st: RunState, done: set<Entity>, e: Entity)
    requires Sensible(st.now) && StateOk(st, done) && IsEntity(st.now.config, e) && e !in done
    requires Preset(st.now.config, e) == ""
    ensures
      var name, assigns := NameOf(st.now.config, e), AssignsOf(st.now.config, e);
      Processed(st, e) == Filled(WithType(st, e, Qualified(name)), e, name, assigns)
  {
    var s := st.now;
    NotYetTyped(st, done, e);
    NameIsFree(s.config, s.resolver, s.adhoc, s.referenced, st.files, st.enums, done, e);
  }

  /** Processing a builder keeps registry, types and notes in order. */
  lemma StepOk(st: RunState, done: set<Entity>, e: Entity)
    requires Sensible(st.now) && StateOk(st, done) && IsEntity(st.now.config, e) && e !in done
    ensures StateOk(Processed(st, e).state, done + {e}) && Moves(st.now, Processed(st, e).state.now, e)
    ensures Preset(st.now.config, e) == "" ==> FilledIn(st.now, Processed(st, e), e)
    ensures Preset(st.now.config, e) != "" ==> Processed(st, e).errs == ErrorsOf(st.now, e)
  {
    NotYetTyped(st, done, e);
    if Preset(st.now.config, e) == "" {
      ProcessedFills(st, done, e);
      FilledOk(st, done, e);
      FilledMoves(st, e);
    } else {
      ReferredOk(st, done, e);
    }
  }

  // ------------------------------------------------------------------------
  // What one step says of its builder

  /** `e` was processed in the state `s`. It has the type it was given; or else it has a type just
      when its fields raised no errors, and that type is a registered message with its
      assignments for fields, of the types that their expressions have `now`. Its errors, if there
      were any, have been recorded. */
  ghost predicate Judged(now: Snapshot, failures: seq<Failure>, s: Snapshot, e: Entity)
    requires WellIndexed(s.config) && IsEntity(s.config, e)
  {
    && Grows(s, now)
    && (Failure(e, ErrorsOf(s, e)) in failures <==> ErrorsOf(s, e) != [])
    && (forall f | f in failures && f.entity == e :: f.errors == ErrorsOf(s, e))
    && (Preset(s.config, e) != "" ==> TypeOf(now.types, e) == Preset(s.config, e))
    && (Preset(s.config, e) == "" ==>
          && (TypeOf(now.types, e) != "" <==> FieldErrors(s, AssignsOf(s.config, e)) == [])
          && (TypeOf(now.types, e) != "" ==> SchemaTyped(now, s, e)))
  }

  /** No field of a builder that is ready depends on the builder itself. */
  lemma NoSelfDependency(s: Snapshot, done: set<Entity>, e: Entity)
    requires WellIndexed(s.config) && IsEntity(s.config, e) && Ready(s.config, e, done) && e !in done
    ensures FieldErrors(Placed(s, e), AssignsOf(s.config, e)) == FieldErrors(s, AssignsOf(s.config, e))
    ensures GoodFields(Placed(s, e), AssignsOf(s.config, e)) == GoodFields(s, AssignsOf(s.config, e))
  {
    var assigns := AssignsOf(s.config, e);
    forall k | 0 <= k < |assigns|
      ensures assigns[k].aggregation.Count? || !DependsOn(s.config.nodes, assigns[k].index, e)
    {
      assert !assigns[k].aggregation.Count? && DependsOn(s.config.nodes, assigns[k].index, e) ==> e in done;
    }
    PlaceholderHarmless(s, e, assigns);
  }

  /** The message registered for a builder that is ready has its assignments for fields, with the
      types their expressions have once it is processed. */
  lemma {:induction false} StepTyped(s: Snapshot, t: Snapshot, done: set<Entity>, e: Entity)
    requires Sensible(s) && IsEntity(s.config, e) && Ready(s.config, e, done) && e !in done
    requires Moves(s, t, e) && FieldErrors(Placed(s, e), AssignsOf(s.config, e)) == []
    requires Registered(s.adhoc, t.adhoc, NameOf(s.config, e), GoodFields(Placed(s, e), AssignsOf(s.config, e)),
                        t.types[e])
    ensures SchemaTyped(t, s, e)
  {
    var assigns := AssignsOf(s.config, e);
    NoSelfDependency(s, done, e);
    var fields := GoodFields(s, assigns);
    GoodFieldsDescribe(s, assigns);
    GoodFieldsHaveTypes(s, assigns);
    TypesKept(s, t, s, assigns, fields);
    RegisteredFields(s.adhoc, t.adhoc, NameOf(s.config, e), fields, t.types[e]);
  }

  /** The step of a builder that is ready judges it. */
  lemma StepJudges(st: RunState, done: set<Entity>, failures: seq<Failure>, e: Entity)
    requires Sensible(st.now) && StateOk(st, done) && IsEntity(st.now.config, e) && e !in done
    requires Ready(st.now.config, e, done) && forall f | f in failures :: f.entity != e
    ensures
      var step := Processed(st, e);
      && step.errs == ErrorsOf(st.now, e)
      && Judged(step.state.now, Recorded(failures, e, step.errs), st.now, e)
  {
    var s, step := st.now, Processed(st, e);
    StepOk(st, done, e);
    NotYetTyped(st, done, e);
    if Preset(s.config, e) == "" {
      NoSelfDependency(s, done, e);
      if step.errs == [] {
        StepTyped(s, step.state.now, done, e);
      }
    }
  }

  /** A builder stays judged while others are processed. */
  lemma JudgedStays(s1: Snapshot, s2: Snapshot, failures: seq<Failure>, errs: seq<InferError>, e1: Entity, s: Snapshot,
                    e: Entity)
    requires Sensible(s) && IsEntity(s.config, e) && Judged(s1, failures, s, e) && Moves(s1, s2, e1) && e != e1
    ensures Judged(s2, Recorded(failures, e1, errs), s, e)
  {
    GrowsOn(s, s1, s2);
    assert TypeOf(s2.types, e) == TypeOf(s1.types, e);
    if Preset(s.config, e) == "" && TypeOf(s1.types, e) != "" {
      SchemaKept(s1, s2, s, e);
    }
  }

  // ------------------------------------------------------------------------
  // What holds after a run

  ghost function Builders(order: seq<Entity>): set<Entity> { set e | e in order }

  /** Each builder at most once, and not before what it needs. */
  ghost predicate Scheduled(config: MetricsConfig, order: seq<Entity>) {
    && Assigned(config) && AllEntities(config, order) && (forall i, j | 0 <= i < j < |order| :: order[i] != order[j])
    && forall k | 0 <= k < |order| :: Ready(config, order[k], Builders(order[..k]))
  }

  lemma ScheduledSnoc(config: MetricsConfig, order: seq<Entity>, e: Entity)
    requires Scheduled(config, order) && IsEntity(config, e) && e !in order && Ready(config, e, Builders(order))
    ensures Scheduled(config, order + [e]) && Builders(order + [e]) == Builders(order) + {e}
  {
    var more := order + [e];
    forall k | 0 <= k < |more| ensures Ready(config, more[k], Builders(more[..k])) {
      assert more[..k] == if k < |order| then order[..k] else order;
    }
  }

  lemma ScheduledFront(config: MetricsConfig, order: seq<Entity>)
    requires Scheduled(config, order) && order != []
    ensures Scheduled(config, Front(order)) && Last(order) !in Front(order) && order == Front(order) + [Last(order)]
    ensures Builders(order) == Builders(Front(order)) + {Last(order)}
    ensures IsEntity(config, Last(order)) && Ready(config, Last(order), Builders(Front(order)))
  {
    var front := Front(order);
    assert order == front + [Last(order)];
    forall k | 0 <= k < |front| ensures Ready(config, front[k], Builders(front[..k])) {
      assert order[..k] == front[..k];
    }
    assert order[..|order| - 1] == front;
  }

  /** The states in which the builders of `order` were processed, one by one. */
  ghost function Seen(st: RunState, order: seq<Entity>): (seen: seq<Snapshot>)
    requires WellIndexed(st.now.config) && AllEntities(st.now.config, order)
    ensures |seen| == |order| && SameRun(st.now, seen)
  {
    if order == [] then [] else Seen(st, Front(order)) + [Run(st, Front(order)).state.now]
  }

  ghost predicate SameRun(s: Snapshot, seen: seq<Snapshot>) {
    forall k | 0 <= k < |seen| :: seen[k].config == s.config && seen[k].resolver == s.resolver
  }

  lemma {:induction false} SeenIsPrefix(st: RunState, order: seq<Entity>, k: nat)
    requires WellIndexed(st.now.config) && AllEntities(st.now.config, order) && k < |order|
    ensures Seen(st, order)[k] == Run(st, order[..k]).state.now
  {
    if k == |order| - 1 {
      assert order[..k] == Front(order);
    } else {
      assert order[..k] == Front(order)[..k];
      SeenIsPrefix(st, Front(order), k);
    }
  }

  /** Every builder is judged by the state in which it was processed. */
  ghost predicate AllJudged(seen: seq<Snapshot>, order: seq<Entity>, now: Snapshot, failures: seq<Failure>)
    requires WellIndexed(now.config) && AllEntities(now.config, order) && |seen| == |order| && SameRun(now, seen)
  {
    forall k | 0 <= k < |order| :: Judged(now, failures, seen[k], order[k])
  }

  /** Each builder of `order` has at most one recorded failure, and no other has any. */
  ghost predicate RecordedOnce(failures: seq<Failure>, order: seq<Entity>) {
    && (forall i, j | 0 <= i < j < |failures| :: failures[i].entity != failures[j].entity)
    && (forall f | f in failures :: f.entity in order)
  }

  /** What a run leaves behind: registry, types and notes in order; every builder judged by the
      state in which it was processed, and recorded once if it failed; and a missing type only
      after the failure of the builder it belongs to. */
  ghost predicate Inferred(o: Outcome, seen: seq<Snapshot>, order: seq<Entity>)
    requires WellIndexed(o.state.now.config) && AllEntities(o.state.now.config, order)
    requires |seen| == |order| && SameRun(o.state.now, seen)
  {
    && StateOk(o.state, Builders(order)) && Explained(o.failures) && RecordedOnce(o.failures, order)
    && AllJudged(seen, order, o.state.now, o.failures)
  }

  /** It holds of every run over builders in a suitable order. */
  lemma {:induction false} RunInferred(st: RunState, order: seq<Entity>)
    requires Sensible(st.now) && StateOk(st, {}) && Scheduled(st.now.config, order)
    ensures Inferred(Run(st, order), Seen(st, order), order)
  {
    if order != [] {
      var front, e := Front(order), Last(order);
      ScheduledFront(st.now.config, order);
      RunInferred(st, front);
      var o, seen := Run(st, front), Seen(st, front);
      InferredMore(o, seen, front, e, Processed(o.state, e));
    }
  }

  lemma {:induction false} InferredMore(o: Outcome, seen: seq<Snapshot>, order: seq<Entity>, e: Entity, step: Step)
    requires Sensible(o.state.now) && Scheduled(o.state.now.config, order) && |seen| == |order|
    requires SameRun(o.state.now, seen) && Inferred(o, seen, order) && IsEntity(o.state.now.config, e) && e !in order
    requires Ready(o.state.now.config, e, Builders(order)) && step == Processed(o.state, e)
    ensures AllEntities(o.state.now.config, order + [e])
    ensures step.state.now.config == o.state.now.config && step.state.now.resolver == o.state.now.resolver
    ensures Inferred(Outcome(step.state, Recorded(o.failures, e, step.errs)), seen + [o.state.now], order + [e])
  {
    var done := Builders(order);
    ScheduledSnoc(o.state.now.config, order, e);
    StepOk(o.state, done, e);
    StepJudges(o.state, done, o.failures, e);
    StepExplained(o, seen, order, e, step);
    RecordedOneMore(o.failures, order, e, step.errs);
    JudgedMore(o, seen, order, e, step);
  }

  lemma {:induction false} JudgedMore(o: Outcome, seen: seq<Snapshot>, order: seq<Entity>, e: Entity, step: Step)
    requires Sensible(o.state.now) && AllEntities(o.state.now.config, order) && |seen| == |order|
    requires SameRun(o.state.now, seen) && AllJudged(seen, order, o.state.now, o.failures)
    requires IsEntity(o.state.now.config, e) && e !in order && Moves(o.state.now, step.state.now, e)
    requires Judged(step.state.now, Recorded(o.failures, e, step.errs), o.state.now, e)
    ensures AllJudged(seen + [o.state.now], order + [e], step.state.now, Recorded(o.failures, e, step.errs))
  {
    forall k | 0 <= k < |order|
      ensures Judged(step.state.now, Recorded(o.failures, e, step.errs), seen[k], order[k])
    {
      JudgedStays(o.state.now, step.state.now, o.failures, step.errs, e, seen[k], order[k]);
    }
  }

  lemma RecordedOneMore(failures: seq<Failure>, order: seq<Entity>, e: Entity, errs: seq<InferError>)
    requires e !in order && RecordedOnce(failures, order)
    ensures RecordedOnce(Recorded(failures, e, errs), order + [e])
  {
  }

  /** Every processed builder without a type has a recorded failure. */
  lemma {:induction false} AllReported(o: Outcome, seen: seq<Snapshot>, order: seq<Entity>)
    requires WellIndexed(o.state.now.config) && AllEntities(o.state.now.config, order) && |seen| == |order|
    requires SameRun(o.state.now, seen) && AllJudged(seen, order, o.state.now, o.failures)
    ensures Reported(o.state.now.types, Builders(order), o.failures)
  {
    forall e | e in Builders(order) && TypeOf(o.state.now.types, e) == ""
      ensures RecordedBefore(o.failures, |o.failures|, e)
    {
      var k :| 0 <= k < |order| && order[k] == e;
      assert Judged(o.state.now, o.failures, seen[k], e);
      assert Failure(e, ErrorsOf(seen[k], e)) in o.failures;
    }
  }

  lemma {:induction false} StepExplained(o: Outcome, seen: seq<Snapshot>, order: seq<Entity>, e: Entity, step: Step)
    requires Sensible(o.state.now) && Scheduled(o.state.now.config, order) && |seen| == |order|
    requires SameRun(o.state.now, seen) && Inferred(o, seen, order) && IsEntity(o.state.now.config, e) && e !in order
    requires Ready(o.state.now.config, e, Builders(order)) && step == Processed(o.state, e)
    ensures Explained(Recorded(o.failures, e, step.errs))
  {
    AllReported(o, seen, order);
    ErrorsExplained(o.state.now, e, Builders(order), o.failures);
    StepOk(o.state, Builders(order), e);
    ExplainedSnoc(o.failures, Failure(e, step.errs));
  }
}
