/** From the session to the schema: what inference generates for a report or an aggregator of a
    session, in terms of the texts that were stashed for its fields. */
module SessionTypes {
  import opened Wrappers
  import opened Trees
  import opened Shunting
  import opened Tokenizer
  import opened Configuration
  import opened Dependencies
  import opened Resolution
  import opened TreeTyping
  import opened Schemas
  import opened Inference
  import opened InferenceSteps
  import opened FieldPaths
  import opened Outcomes
  import Parser
  import opened Sessions
  import opened EndToEnd

  /** A session that has been compiled. */
  datatype CompiledSession = CompiledSession(cfg: Config, expressions: map<nat, seq<Lexeme>>,
      outcomes: map<nat, Result<Compiled, Error>>, m: map<nat, nat>, out: Output)

  ghost predicate IsCompiled(c: CompiledSession) {
    IsPool(c.out.nodes) && Compiles(c.cfg, c.expressions, c.outcomes, View(c.out.nodes), c.m)
  }

  /** The tree of the text stashed under `id`. */
  function TextTree(c: CompiledSession, id: nat): Tree
    requires id in c.expressions && CompileSource(c.cfg, c.expressions[id]).Ok?
  {
    CompileSource(c.cfg, c.expressions[id]).value.tree
  }

  /** `ty` is the type of a field: fixed by some aggregations, or else that of the text stashed for it. */
  ghost predicate TypedByText(c: CompiledSession, now: Snapshot, seen: Snapshot, fa: FieldAssign, ty: TypeDesc)
    requires ChildrenFirst(c.out.nodes)
  {
    match fa.aggregation
    case Count => ty == TypeDesc(Int32Kind, "", false)
    case Avg => ty == TypeDesc(DoubleKind, "", false)
    case StdDev => ty == TypeDesc(DoubleKind, "", false)
    case _ =>
      && fa.index in c.expressions && CompileSource(c.cfg, c.expressions[fa.index]).Ok?
      && var t := TreeType(TreesOf(EnvOf(now), c.out.nodes), TextTree(c, fa.index));
         && t.Some? && ty.kind == t.value.kind && ty.typeName == WrittenName(seen, t.value)
         && if fa.aggregation.Vector? then ty.repeated && !t.value.repeated else ty.repeated == t.value.repeated
  }

  lemma {:induction false} TextAt(c: CompiledSession, id: nat)
    requires IsCompiled(c) && id in c.expressions
    ensures id in c.m && c.m[id] < |c.out.nodes| && CompileSource(c.cfg, c.expressions[id]).Ok?
    ensures View(c.out.nodes)[c.m[id]] == TextTree(c, id)
  {
    assert Parser.MapsKey(View(c.out.nodes), c.outcomes, c.m, id);
    assert c.outcomes[id] == CompileSource(c.cfg, c.expressions[id]);
  }

  /** The type written for an emitted field is that of the text stashed for it in the session. */
  lemma {:induction false} FieldTypedByText(c: CompiledSession, now: Snapshot, seen: Snapshot, fa: FieldAssign,
                                            ty: TypeDesc)
    requires IsCompiled(c) && PoolOk(c.out.nodes) && now.config.nodes == EmitAll(c.out.nodes)
    requires !fa.aggregation.Count? ==> fa.index in c.expressions
    requires IndexOk(now.config.nodes, TranslateAssign(c.m, fa))
    requires WrittenAs(now, seen, TranslateAssign(c.m, fa), ty)
    ensures TypedByText(c, now, seen, fa, ty)
  {
    if ReadsType(fa) {
      TextAt(c, fa.index);
      var out := TranslateAssign(c.m, fa);
      assert out.index == c.m[fa.index];
      var te := TreesOf(EnvOf(now), c.out.nodes);
      BuildersMatch(EnvOf(now), c.out.nodes);
      ResolveIsTreeType(te, EnvOf(now), c.out.nodes, out.index);
    }
  }

  /** The run over what the session compiles to. */
  ghost predicate IsRunOver(c: CompiledSession, o: InferenceSteps.Outcome, seen: seq<Snapshot>, order: seq<Entity>) {
    && PoolOk(c.out.nodes) && o.state.now.config == ConfigOf(c.out) && WellIndexed(o.state.now.config)
    && AllEntities(o.state.now.config, order) && |seen| == |order| && SameRun(o.state.now, seen)
    && Inferred(o, seen, order)
  }

  /** `d` is a message with the fields that the session assigns, of the types of their texts. */
  ghost predicate DescribesTexts(c: CompiledSession, now: Snapshot, seen: Snapshot, assigns: seq<FieldAssign>,
                                 d: Descriptor)
    requires ChildrenFirst(c.out.nodes)
  {
    && |d.fields| == |assigns|
    && forall k | 0 <= k < |assigns| ::
         && d.fields[k].name == assigns[k].fieldName && d.fields[k].number == k + 1
         && TypedByText(c, now, seen, assigns[k], d.fields[k].ty)
  }

  lemma {:induction false} MessageDescribesTexts(c: CompiledSession, now: Snapshot, seen: Snapshot,
                                                 assigns: seq<FieldAssign>, d: Descriptor)
    requires IsCompiled(c) && PoolOk(c.out.nodes) && now.config.nodes == EmitAll(c.out.nodes)
    requires Stashed(c.expressions, AssignIds(assigns))
    requires Inference.InRange(now.config, TranslateAssigns(c.m, assigns))
    requires IsMessageOf(now, seen, TranslateAssigns(c.m, assigns), d)
    ensures DescribesTexts(c, now, seen, assigns, d)
  {
    var emitted := TranslateAssigns(c.m, assigns);
    forall k | 0 <= k < |assigns|
      ensures d.fields[k].name == assigns[k].fieldName && TypedByText(c, now, seen, assigns[k], d.fields[k].ty) {
      assert emitted[k] == TranslateAssign(c.m, assigns[k]);
      if !assigns[k].aggregation.Count? {
        IndexAmongIds(assigns, k);
      }
      FieldTypedByText(c, now, seen, assigns[k], d.fields[k].ty);
    }
  }

  /** A builder of the session that gives no type, as it stands in the configuration. */
  lemma {:induction false} BuilderTyped(c: CompiledSession, o: InferenceSteps.Outcome, seen: seq<Snapshot>,
                                        order: seq<Entity>, j: nat, name: string, assigns: seq<FieldAssign>)
    requires IsCompiled(c) && IsRunOver(c, o, seen, order) && j < |order|
    requires Says(ConfigOf(c.out), order[j], name, "", TranslateAssigns(c.m, assigns))
    requires Stashed(c.expressions, AssignIds(assigns)) && forall f | f in o.failures :: f.entity != order[j]
    ensures exists d | d in o.state.now.adhoc ::
      && TypeOf(o.state.now.types, order[j]) == PACKAGE + d.name
      && DescribesTexts(c, o.state.now, seen[j], assigns, d)
  {
    var emitted := TranslateAssigns(c.m, assigns);
    RunSays(o, seen, order, j, name, "", emitted);
    var d :| d in o.state.now.adhoc && TypeOf(o.state.now.types, order[j]) == PACKAGE + d.name
      && IsMessageOf(o.state.now, seen[j], emitted, d);
    MessageDescribesTexts(c, o.state.now, seen[j], assigns, d);
  }

  /** A report of the session that gives no type, and for which no failure is recorded, has a message
      with its fields, of the types of the texts stashed for them. */
  lemma {:induction false} ReportTyped(c: CompiledSession, o: InferenceSteps.Outcome, seen: seq<Snapshot>,
                                       order: seq<Entity>, j: nat, k: nat, report: Report)
    requires IsCompiled(c) && IsRunOver(c, o, seen, order) && j < |order| && order[j] == OnReport(k)
    requires k < |c.out.reports| && c.out.reports[k].item == TranslateReport(c.m, report)
    requires Stashed(c.expressions, ReportIds(report)) && report.messageType == ""
    requires forall f | f in o.failures :: f.entity != OnReport(k)
    ensures exists d | d in o.state.now.adhoc ::
      && TypeOf(o.state.now.types, OnReport(k)) == PACKAGE + d.name
      && DescribesTexts(c, o.state.now, seen[j], report.assigns, d)
  {
    var emitted := TranslateAssigns(c.m, report.assigns);
    assert Says(ConfigOf(c.out), OnReport(k), report.name, "", emitted);
    BuilderTyped(c, o, seen, order, j, report.name, report.assigns);
  }

  /** The same for an aggregator, the last source of its name. */
  lemma {:induction false} AggregatorTyped(c: CompiledSession, o: InferenceSteps.Outcome, seen: seq<Snapshot>,
                                           order: seq<Entity>, j: nat, k: nat, source: Source)
    requires IsCompiled(c) && IsRunOver(c, o, seen, order) && j < |order| && order[j] == OnSource(source.name)
    requires k < |c.out.sources| && c.out.sources[k].item == TranslateSource(c.m, source) && source.Aggregator?
    requires forall i | k < i < |c.out.sources| :: c.out.sources[i].item.name != source.name
    requires Stashed(c.expressions, SourceIds(source)) && source.messageType == ""
    requires forall f | f in o.failures :: f.entity != OnSource(source.name)
    ensures exists d | d in o.state.now.adhoc ::
      && TypeOf(o.state.now.types, OnSource(source.name)) == PACKAGE + d.name
      && DescribesTexts(c, o.state.now, seen[j], source.assigns, d)
  {
    var emitted, config := TranslateAssigns(c.m, source.assigns), ConfigOf(c.out);
    assert config.sources[k] == Aggregator(source.name, "", emitted) && LastNamed(config.sources, source.name, k);
    assert Says(config, OnSource(source.name), source.name, "", emitted);
    BuilderTyped(c, o, seen, order, j, source.name, source.assigns);
  }
}
