/** The inference run, as it updates the registry and the types of builders in place. */
module InferenceRun {
  import opened Wrappers
  import opened Sorting
  import opened Configuration
  import opened Dependencies
  import opened InferenceGraph
  import opened Resolution
  import opened Schemas
  import opened Inference
  import opened FieldTypes
  import opened InferenceSteps
  import opened Graphs
  import opened TopologicalOrdering

  /** In a reverse topological order, what an entity leads to comes before it. */
  lemma ComesBefore(adj: Adjacency<Entity>, order: seq<Entity>, k: nat, d: Entity)
    requires IsTopologicalOrder(adj, Reversed(order)) && k < |order| && HasEdge(adj, order[k], d)
    ensures d in order[..k]
  {
    var r, i := Reversed(order), |order| - 1 - k;
    assert r[i] == order[k];
    assert d in r[i + 1..];
    var j :| 0 <= j < |r[i + 1..]| && r[i + 1..][j] == d;
    assert r[i + 1 + j] == d && order[k - 1 - j] == d;
    assert order[..k][k - 1 - j] == d;
  }

  /** The sources and inline builders with a message to infer. */
  predicate IsOrdered(config: MetricsConfig, e: Entity) {
    IsEntity(config, e) && !e.OnReport?
  }

  /** What has been processed after the first `k` of `order`. */
  ghost predicate DoneUpTo(config: MetricsConfig, order: seq<Entity>, k: nat, done: set<Entity>)
    requires k <= |order|
  {
    forall e :: e in done <==> IsOrdered(config, e) && e in order[..k]
  }

  lemma ReadyInOrder(config: MetricsConfig, adj: Adjacency<Entity>, order: seq<Entity>, k: nat, done: set<Entity>)
    requires Assigned(config) && Pictures(adj, config.nodes, Owners(config)) && IsTopologicalOrder(adj, Reversed(order))
    requires k < |order| && IsOrdered(config, order[k]) && DoneUpTo(config, order, k, done)
    ensures Ready(config, order[k], done)
  {
    var e := order[k];
    forall j, d | 0 <= j < |AssignsOf(config, e)| && !AssignsOf(config, e)[j].aggregation.Count?
      && DependsOn(config.nodes, AssignsOf(config, e)[j].index, d) && IsEntity(config, d) ensures d in done
    {
      NoReportDependency(config.nodes, AssignsOf(config, e)[j].index, d);
      FieldNeeds(config, e, j, d);
      assert HasEdge(adj, e, d);
      ComesBefore(adj, order, k, d);
    }
  }

  lemma FreshInOrder(config: MetricsConfig, adj: Adjacency<Entity>, order: seq<Entity>, k: nat, done: set<Entity>)
    requires IsTopologicalOrder(adj, Reversed(order)) && k < |order| && DoneUpTo(config, order, k, done)
    ensures order[k] !in done
    ensures IsOrdered(config, order[k]) ==> DoneUpTo(config, order, k + 1, done + {order[k]})
    ensures !IsOrdered(config, order[k]) ==> DoneUpTo(config, order, k + 1, done)
  {
    var r := Reversed(order);
    forall j | 0 <= j < k ensures order[j] != order[k] {
      assert r[|order| - 1 - k] != r[|order| - 1 - j];
    }
    assert order[..k + 1] == order[..k] + [order[k]];
  }

  class TypeInference {
    const config: MetricsConfig
    const resolver: TypeResolver
    const dataTypes: map<string, string>
    var types: map<Entity, string>
    var adhoc: seq<Descriptor>
    var referenced: set<string>
    var dependency: seq<string>
    var referencedEnums: set<string>

    constructor (config: MetricsConfig, resolver: TypeResolver, dataTypes: map<string, string>)
      ensures this.config == config && this.resolver == resolver && this.dataTypes == dataTypes
      ensures State() == Initial(config, resolver, dataTypes)
    {
      this.config, this.resolver, this.dataTypes := config, resolver, dataTypes;
      types := map e | e in Entities(config) :: Preset(config, e);
      adhoc, referenced, dependency, referencedEnums := [], {}, [], {};
    }

    function Now(): Snapshot
      reads this
    {
      Snapshot(config, resolver, dataTypes, types, adhoc, referenced)
    }

    function State(): RunState
      reads this
    {
      RunState(Now(), dependency, referencedEnums)
    }

    /** Only files and enums are noted. */
    twostate predicate OnlyNoted()
      reads this
    {
      types == old(types) && adhoc == old(adhoc) && referenced == old(referenced)
    }

    /** The descriptor of one field; notes the files and enums it needs. */
    method GetFieldDescriptor(fa: FieldAssign, pos: nat) returns (r: Result<Field, InferError>)
      requires Resolvable(config.nodes) && IndexOk(config.nodes, fa)
      modifies this
      ensures OnlyNoted() && r == FieldOf(old(Now()), fa, pos).field
      ensures dependency == old(dependency) + FieldOf(old(Now()), fa, pos).files
      ensures referencedEnums == old(referencedEnums) + FieldOf(old(Now()), fa, pos).enums
    {
      if fa.aggregation.Count? {
        return Ok(Field(fa.fieldName, pos, Scalar(Int32Kind)));
      } else if fa.aggregation.Avg? || fa.aggregation.StdDev? {
        return Ok(Field(fa.fieldName, pos, Scalar(DoubleKind)));
      }
      var inferred := Resolve(EnvOf(Now()), config.nodes, fa.index);
      if inferred.Err? {
        return Err(Unresolved(inferred.error));
      }
      var tracked := NormalizeAndTrackType(inferred.value);
      if tracked.Err? {
        return Err(tracked.error);
      }
      if !fa.aggregation.Vector? {
        return Ok(Field(fa.fieldName, pos, tracked.value));
      } else if tracked.value.repeated {
        return Err(VectorOfRepeated(fa.fieldName));
      }
      r := Ok(Field(fa.fieldName, pos, tracked.value.(repeated := true)));
    }

    method NormalizeAndTrackType(ty: TypeDesc) returns (r: Result<TypeDesc, InferError>)
      modifies this
      ensures OnlyNoted()
      ensures
        match Normalize(old(Now()), ty)
        case Ok(t) => r == Ok(t.ty) && dependency == old(dependency) + t.files
            && referencedEnums == old(referencedEnums) + t.enums
        case Err(e) => r == Err(e) && dependency == old(dependency) && referencedEnums == old(referencedEnums)
    {
      var dependencies: seq<string>, normalized := [], ty;
      if ty.kind.MessageKind? {
        if !IsTypeInOutput(adhoc, referenced, ty.typeName) {
          dependencies := [ANY_FILE];
          normalized := ty.(typeName := ANY);
        } else if ty.typeName in resolver.messages && resolver.messages[ty.typeName].file != "" {
          dependencies := [resolver.messages[ty.typeName].file];
        }
      } else if ty.kind.EnumKind? {
        if ty.typeName !in resolver.enums {
          return Err(EnumNotFound(ty.typeName));
        }
        referencedEnums := referencedEnums + {ty.typeName};
        if resolver.enums[ty.typeName] != "" {
          dependencies := [resolver.enums[ty.typeName]];
        }
      }
      dependency := dependency + dependencies;
      r := Ok(normalized);
    }

    /** The descriptors of all fields of a builder, numbered from 1, and the errors met. */
    method GetFields(assigns: seq<FieldAssign>) returns (fields: seq<Field>, errs: seq<InferError>)
      requires Resolvable(config.nodes) && Inference.InRange(config, assigns)
      modifies this
      ensures OnlyNoted()
      ensures fields == GoodFields(old(Now()), assigns) && errs == FieldErrors(old(Now()), assigns)
      ensures dependency == old(dependency) + FieldFiles(old(Now()), assigns)
      ensures referencedEnums == old(referencedEnums) + FieldEnums(old(Now()), assigns)
    {
      fields, errs := [], [];
      ghost var s := Now();
      for i := 0 to |assigns|
        invariant OnlyNoted()
        invariant fields == GoodFields(s, assigns[..i]) && errs == FieldErrors(s, assigns[..i])
        invariant NotedUpTo(s, assigns, i, old(dependency), old(referencedEnums), dependency, referencedEnums)
      {
        FieldsSnoc(s, assigns, i);
        NotesSnoc(s, assigns, i, old(dependency), old(referencedEnums), dependency, referencedEnums);
        var f := GetFieldDescriptor(assigns[i], i + 1);
        if f.Ok? {
          fields := fields + [f.value];
        } else {
          errs := errs + [f.error];
        }
      }
      assert assigns[..|assigns|] == assigns;
    }

    /** Registers the message, or finds one that differs by name alone; returns its name. */
    method AddOrDeduplicateAdhocMessage(name: string, fields: seq<Field>) returns (finalName: string)
      modifies this`adhoc
      ensures
        match FindIdentical(old(adhoc), fields)
        case Some(d) => finalName == Qualified(d.name) && adhoc == old(adhoc)
        case None => finalName == Qualified(name) && adhoc == old(adhoc) + [Descriptor(name, fields)]
    {
      var identical := FindIdentical(adhoc, fields);
      if identical.Some? {
        return Qualified(identical.value.name);
      }
      adhoc := adhoc + [Descriptor(name, fields)];
      finalName := Qualified(name);
    }

    /** Infers the fields of `e`, which has a placeholder for its type, and registers the message
        they make up; on failure the placeholder is removed. */
    method FillSchema(e: Entity, name: string, assigns: seq<FieldAssign>) returns (errs: seq<InferError>)
      requires Resolvable(config.nodes) && Inference.InRange(config, assigns)
      modifies this
      ensures Step(State(), errs) == Filled(old(State()), e, name, assigns)
    {
      var fields: seq<Field>;
      fields, errs := GetFields(assigns);
      if errs != [] {
        types := types[e := ""];
        return;
      }
      var finalName := AddOrDeduplicateAdhocMessage(name, fields);
      types := types[e := finalName];
    }

    /** Generates the schema of an aggregator or a report, unless its name is taken: then nothing
        happens at all, and its type stays empty. */
    method GenerateAdhocSchema(e: Entity, name: string, assigns: seq<FieldAssign>) returns (errs: seq<InferError>)
      requires Resolvable(config.nodes) && Inference.InRange(config, assigns) && !e.OnBuilder?
      modifies this
      ensures Step(State(), errs) == Generated(old(State()), e, name, assigns)
      ensures old(TypeOf(types, e)) == "" ==>
        (errs == [] && TypeOf(types, e) == "" <==> IsTypeInOutput(old(adhoc), old(referenced), Qualified(name)))
    {
      if IsTypeInOutput(adhoc, referenced, Qualified(name)) {
        return [];
      }
      types := types[e := Qualified(name)];
      errs := FillSchema(e, name, assigns);
    }

    /** The same for an inline builder; if the name is taken, that is its type. */
    method GenerateAdhocSchemaForExpression(e: Entity, name: string, assigns: seq<FieldAssign>)
      returns (errs: seq<InferError>)
      requires Resolvable(config.nodes) && Inference.InRange(config, assigns) && e.OnBuilder?
      modifies this
      ensures Step(State(), errs) == Generated(old(State()), e, name, assigns)
    {
      types := types[e := Qualified(name)];
      if IsTypeInOutput(adhoc, referenced, Qualified(name)) {
        return [];
      }
      errs := FillSchema(e, name, assigns);
    }

    /** A type that is given must be a supplied one; it is referenced unless it is in the output. */
    method ValidatePredefinedMessageType(name: string) returns (errs: seq<InferError>)
      modifies this`referenced
      ensures Step(State(), errs) == Referred(old(State()), name)
    {
      if name !in resolver.messages {
        return [MessageTypeNotFound(name)];
      }
      if !IsTypeInOutput(adhoc, referenced, name) {
        referenced := referenced + {name};
      }
      errs := [];
    }

    /** Processes one builder, by what type it has. */
    method Process(e: Entity) returns (errs: seq<InferError>)
      requires WellIndexed(config) && IsEntity(config, e)
      modifies this
      ensures Step(State(), errs) == Processed(old(State()), e)
    {
      if TypeOf(types, e) != "" {
        errs := ValidatePredefinedMessageType(TypeOf(types, e));
      } else if e.OnBuilder? {
        errs := GenerateAdhocSchemaForExpression(e, NameOf(config, e), AssignsOf(config, e));
      } else {
        errs := GenerateAdhocSchema(e, NameOf(config, e), AssignsOf(config, e));
      }
    }

    /** The builders of `todo` have been processed since `st`, in a suitable order. */
    ghost predicate HasRun(st: RunState, todo: seq<Entity>, failures: seq<Failure>)
      reads this
    {
      && st.now.config == config && WellIndexed(config) && Scheduled(config, todo)
      && Outcome(State(), failures) == Run(st, todo)
    }

    /** Processes a builder whose dependencies have been processed, and records its errors. */
    method ProcessAndRecord(e: Entity, failures: seq<Failure>, ghost st: RunState, ghost todo: seq<Entity>)
      returns (failures1: seq<Failure>)
      requires HasRun(st, todo, failures) && IsEntity(config, e) && e !in todo && Ready(config, e, Builders(todo))
      modifies this
      ensures HasRun(st, todo + [e], failures1) && Builders(todo + [e]) == Builders(todo) + {e}
    {
      RunSnoc(st, todo, e);
      ScheduledSnoc(config, todo, e);
      var errs := Process(e);
      failures1 := if errs == [] then failures else failures + [Failure(e, errs)];
    }

    method InferOrdered(order: seq<Entity>, ghost adj: Adjacency<Entity>)
      returns (failures: seq<Failure>, ghost todo: seq<Entity>)
      requires WellIndexed(config) && IsTopologicalOrder(adj, Reversed(order))
               && Pictures(adj, config.nodes, Owners(config))
      modifies this
      ensures HasRun(old(State()), todo, failures) && DoneUpTo(config, order, |order|, Builders(todo))
              && ReportsLast(todo)
    {
      failures, todo := [], [];
      for k := 0 to |order|
        invariant HasRun(old(State()), todo, failures) && DoneUpTo(config, order, k, Builders(todo))
                  && ReportsLast(todo)
      {
        FreshInOrder(config, adj, order, k, Builders(todo));
        if IsOrdered(config, order[k]) {
          ReadyInOrder(config, adj, order, k, Builders(todo));
          NoReportsYet(config, order, k, todo);
          failures := ProcessAndRecord(order[k], failures, old(State()), todo);
          todo := todo + [order[k]];
        }
      }
    }

    /** Reports come last, when every source and inline builder has been processed. */
    method InferReports(failures0: seq<Failure>, ghost st: RunState, ghost todo0: seq<Entity>)
      returns (failures: seq<Failure>, ghost todo: seq<Entity>)
      requires HasRun(st, todo0, failures0) && ReportsUpTo(config, 0, Builders(todo0)) && ReportsLast(todo0)
      modifies this
      ensures HasRun(st, todo, failures) && ReportsUpTo(config, |config.reports|, Builders(todo)) && ReportsLast(todo)
    {
      failures, todo := failures0, todo0;
      for k := 0 to |config.reports|
        invariant HasRun(st, todo, failures) && ReportsUpTo(config, k, Builders(todo)) && ReportsLast(todo)
      {
        ReportStep(config, k, Builders(todo));
        ReportComesLast(config, k, todo);
        failures := ProcessAndRecord(OnReport(k), failures, st, todo);
        todo := todo + [OnReport(k)];
      }
    }

    /** Infers all types, or reports a cycle of dependencies and changes nothing. The result is that
        of processing every builder once, each after what it needs. With distinct names, a builder
        ends up with a type just when its fields raise no errors in the state in which it is
        processed; these errors and no others are recorded; a type is missing only after the
        failure of the builder it belongs to; and a generated schema has the types that its
        expressions have now, but that a message which was outside the output when the builder was
        processed is written as `Any`. */
    method Infer(leq: (Entity, Entity) -> bool)
      returns (r: Result<seq<Failure>, seq<Entity>>, ghost adj: Adjacency<Entity>, ghost todo: seq<Entity>)
      requires TotalOrder(leq) && WellIndexed(config) && State() == Initial(config, resolver, dataTypes)
      modifies this
      ensures Pictures(adj, config.nodes, Owners(config)) && (r.Ok? <==> Acyclic(adj))
      ensures r.Err? ==> IsCycle(adj, r.error) && State() == old(State())
      ensures r.Ok? ==> Complete(config, todo) && Outcome(State(), r.value) == Run(old(State()), todo)
      ensures r.Ok? && DistinctNames(config, resolver) ==>
        Inferred(Outcome(State(), r.value), Seen(old(State()), todo), todo)
    {
      var g := NewGraphForInferenceCycleChecks(config);
      adj, todo := g.nodes, [];
      var order := g.StableReverseTopologicalOrder(leq);
      if order.Err? {
        r := Err(order.error);
        return;
      }
      OrderCovers(config, adj, order.value);
      var failures;
      failures, todo := InferOrdered(order.value, adj);
      assert order.value[..|order.value|] == order.value;
      failures, todo := InferReports(failures, old(State()), todo);
      AllScheduled(config, todo);
      if DistinctNames(config, resolver) {
        InitialOk(config, resolver, dataTypes);
        RunInferred(old(State()), todo);
      }
      r := Ok(failures);
    }
  }

  lemma ReportReady(config: MetricsConfig, k: nat, done: set<Entity>)
    requires Assigned(config) && k < |config.reports|
    requires forall e | IsEntity(config, e) && !e.OnReport? :: e in done
    ensures Ready(config, OnReport(k), done)
  {
    forall j, d | 0 <= j < |AssignsOf(config, OnReport(k))| && !AssignsOf(config, OnReport(k))[j].aggregation.Count?
      && DependsOn(config.nodes, AssignsOf(config, OnReport(k))[j].index, d) && IsEntity(config, d) ensures d in done
    {
      NoReportDependency(config.nodes, AssignsOf(config, OnReport(k))[j].index, d);
    }
  }

  /** Everything has been processed but the reports from the `k`th on. */
  ghost predicate ReportsUpTo(config: MetricsConfig, k: nat, done: set<Entity>) {
    forall e :: e in done <==> IsEntity(config, e) && (e.OnReport? ==> e.report < k)
  }

  lemma ReportStep(config: MetricsConfig, k: nat, done: set<Entity>)
    requires Assigned(config) && k < |config.reports| && ReportsUpTo(config, k, done)
    ensures IsEntity(config, OnReport(k)) && OnReport(k) !in done && Ready(config, OnReport(k), done)
    ensures ReportsUpTo(config, k + 1, done + {OnReport(k)})
  {
    ReportReady(config, k, done);
  }

  /** Reports come last, in order. */
  ghost predicate ReportsLast(todo: seq<Entity>) {
    forall i, j | 0 <= i < j < |todo| && todo[i].OnReport? :: todo[j].OnReport? && todo[i].report < todo[j].report
  }

  lemma NoReportsYet(config: MetricsConfig, order: seq<Entity>, k: nat, todo: seq<Entity>)
    requires k < |order| && DoneUpTo(config, order, k, Builders(todo))
    ensures ReportsLast(todo + [order[k]])
  {
    forall i | 0 <= i < |todo| ensures !todo[i].OnReport? {
      assert todo[i] in Builders(todo);
    }
  }

  lemma ReportComesLast(config: MetricsConfig, k: nat, todo: seq<Entity>)
    requires ReportsUpTo(config, k, Builders(todo)) && ReportsLast(todo)
    ensures ReportsLast(todo + [OnReport(k)])
  {
    forall i | 0 <= i < |todo| && todo[i].OnReport? ensures todo[i].report < k {
      assert todo[i] in Builders(todo);
    }
  }

  /** Every builder is processed, once, and not before what it needs; reports come last. */
  ghost predicate Complete(config: MetricsConfig, todo: seq<Entity>) {
    Scheduled(config, todo) && ReportsLast(todo) && forall e | IsEntity(config, e) :: e in todo
  }

  lemma AllScheduled(config: MetricsConfig, todo: seq<Entity>)
    requires Scheduled(config, todo) && ReportsLast(todo) && ReportsUpTo(config, |config.reports|, Builders(todo))
    ensures Complete(config, todo)
  {
    forall e | IsEntity(config, e) ensures e in todo {
      assert e in Builders(todo);
    }
  }

  lemma OrderCovers(config: MetricsConfig, adj: Adjacency<Entity>, order: seq<Entity>)
    requires HasEntities(adj, config) && IsTopologicalOrder(adj, Reversed(order))
    ensures forall e | IsOrdered(config, e) :: e in order
  {
    forall e | IsOrdered(config, e) ensures e in order {
      assert e in adj;
      assert e in Reversed(order);
    }
  }

  // ------------------------------------------------------------------------
  // A name that is taken

  /** An aggregator and a report of the same name. */
  const SHARED := MetricsConfig([Aggregator("x", "", [FieldAssign("a", Count, 0)])], [],
      [Report("x", "", [FieldAssign("b", Count, 0)])])

  lemma SharedEntities(resolver: TypeResolver)
    ensures WellIndexed(SHARED) && !DistinctNames(SHARED, resolver)
    ensures forall e :: IsEntity(SHARED, e) <==> e == OnSource("x") || e == OnReport(0)
  {
    assert NameOf(SHARED, OnSource("x")) == NameOf(SHARED, OnReport(0)) && OnSource("x") != OnReport(0);
  }

  /** The aggregator is processed before the report. */
  lemma SharedSchedule(todo: seq<Entity>)
    requires Complete(SHARED, todo)
    ensures todo == [OnSource("x"), OnReport(0)]
  {
    SharedEntities(TypeResolver(map[], map[]));
    BuildersCount(todo);
    assert Builders(todo) == {OnSource("x"), OnReport(0)};
    OnlyReports(todo);
    assert todo[0] in Builders(todo) && todo[1] in Builders(todo);
  }

  lemma OnlyReports(todo: seq<Entity>)
    requires ReportsLast(todo) && |todo| == 2
    ensures todo[0].OnReport? ==> todo[1].OnReport?
  {
  }

  lemma {:induction false} BuildersCount(todo: seq<Entity>)
    requires forall i, j | 0 <= i < j < |todo| :: todo[i] != todo[j]
    ensures |Builders(todo)| == |todo|
  {
    if todo != [] {
      BuildersCount(Front(todo));
      assert todo == Front(todo) + [Last(todo)];
      assert Builders(todo) == Builders(Front(todo)) + {Last(todo)};
    }
  }

  lemma CountsFine(s: Snapshot, name: string)
    requires Resolvable(s.config.nodes)
    ensures
      var assigns := [FieldAssign(name, Count, 0)];
      && Inference.InRange(s.config, assigns) && FieldErrors(s, assigns) == []
      && GoodFields(s, assigns) == [Field(name, 1, Scalar(Int32Kind))]
  {
    var assigns := [FieldAssign(name, Count, 0)];
    assert Front(assigns) == [] && Last(assigns) == FieldAssign(name, Count, 0);
  }

  /** The aggregator takes the name. */
  lemma SharedFirst(st: RunState)
    requires st.now.config == SHARED && st.now.adhoc == [] && st.now.referenced == {}
    requires TypeOf(st.now.types, OnSource("x")) == ""
    ensures WellIndexed(SHARED) && IsEntity(SHARED, OnSource("x"))
    ensures
      var step := Processed(st, OnSource("x"));
      && step.errs == [] && step.state.now.adhoc == [Descriptor("x", [Field("a", 1, Scalar(Int32Kind))])]
      && step.state.now.types == st.now.types[OnSource("x") := Qualified("x")] && step.state.now.referenced == {}
  {
    var assigns := [FieldAssign("a", Count, 0)];
    SharedEntities(st.now.resolver);
    QualifiedNotWellKnown("x");
    assert AssignsOf(SHARED, OnSource("x")) == assigns && NameOf(SHARED, OnSource("x")) == "x";
    CountsFine(WithType(st, OnSource("x"), Qualified("x")).now, "a");
    UpdateTwice(st.now.types, OnSource("x"), Qualified("x"), Qualified("x"));
  }

  /** The report comes second, finds the name taken, and stays without a type, though no error is
      raised. */
  lemma SharedRun(st: RunState)
    requires st.now.config == SHARED && st.now.adhoc == [] && st.now.referenced == {}
    requires TypeOf(st.now.types, OnSource("x")) == "" == TypeOf(st.now.types, OnReport(0))
    ensures WellIndexed(SHARED) && AllEntities(SHARED, [OnSource("x"), OnReport(0)])
    ensures
      var o := Run(st, [OnSource("x"), OnReport(0)]);
      && o.failures == [] && TypeOf(o.state.now.types, OnReport(0)) == ""
      && TypeOf(o.state.now.types, OnSource("x")) == Qualified("x")
      && o.state.now.adhoc == [Descriptor("x", [Field("a", 1, Scalar(Int32Kind))])]
  {
    var first, second := OnSource("x"), OnReport(0);
    SharedEntities(st.now.resolver);
    SharedFirst(st);
    SharedSecond(Processed(st, first).state);
    RunOne(st, first);
    RunSnoc(st, [first], second);
    assert [first, second] == [first] + [second];
  }

  lemma SharedInitial(resolver: TypeResolver, dataTypes: map<string, string>)
    ensures
      var types := Initial(SHARED, resolver, dataTypes).now.types;
      TypeOf(types, OnSource("x")) == "" == TypeOf(types, OnReport(0))
  {
    EntitiesAreAll(SHARED);
  }

  lemma SharedSecond(st: RunState)
    requires st.now.config == SHARED && st.now.adhoc == [Descriptor("x", [Field("a", 1, Scalar(Int32Kind))])]
    requires TypeOf(st.now.types, OnReport(0)) == ""
    ensures WellIndexed(SHARED) && IsEntity(SHARED, OnReport(0)) && Processed(st, OnReport(0)) == Step(st, [])
  {
    SharedEntities(st.now.resolver);
    assert NameOf(SHARED, OnReport(0)) == "x";
  }

  lemma RootlessAcyclic(config: MetricsConfig, adj: Adjacency<Entity>)
    requires Pictures(adj, config.nodes, Owners(config)) && forall o | o in Owners(config) :: o.roots == []
    ensures Acyclic(adj)
  {
    forall a, b ensures !HasEdge(adj, a, b) {
      assert !Needs(config.nodes, Owners(config), a, b);
    }
    forall c ensures !IsCycle(adj, c) {
      if c != [] && IsWalk(adj, c) {
        assert !HasEdge(adj, Last(c), c[0]);
      }
    }
  }

  /** An aggregator and a report of the same name: inference succeeds, the report is left without a
      type, and the one message there is does not describe it. */
  method SharedName(resolver: TypeResolver, leq: (Entity, Entity) -> bool)
    returns (t: TypeInference, r: Result<seq<Failure>, seq<Entity>>)
    requires TotalOrder(leq)
    ensures fresh(t) && t.config == SHARED && r == Ok([])
    ensures TypeOf(t.types, OnReport(0)) == "" && TypeOf(t.types, OnSource("x")) == Qualified("x")
    ensures |t.adhoc| == 1 && !Describes(t.adhoc[0].fields, SHARED.reports[0].assigns)
  {
    SharedEntities(resolver);
    t := new TypeInference(SHARED, resolver, map[]);
    ghost var adj, todo;
    r, adj, todo := t.Infer(leq);
    SharedRootless();
    RootlessAcyclic(SHARED, adj);
    SharedSchedule(todo);
    SharedInitial(resolver, map[]);
    SharedRun(Initial(SHARED, resolver, map[]));
    assert t.adhoc[0].fields[0].name == "a" && SHARED.reports[0].assigns[0].fieldName == "b";
  }

  lemma SharedRootless()
    ensures forall o | o in Owners(SHARED) :: o.roots == []
  {
    assert SourceRoots(SHARED.sources[0]) == AssignRoots([FieldAssign("a", Count, 0)]) == [];
  }
}
