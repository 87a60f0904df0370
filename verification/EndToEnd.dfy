/** How the parts of compiling a session fit together: the compiled nodes are what inference asks
    for, and inferred types are those of the trees that the texts mean. */
module EndToEnd {
  import opened Wrappers
  import opened Operators
  import opened Trees
  import opened Configuration
  import opened Dependencies
  import opened Resolution
  import opened Schemas
  import opened TreeTyping
  import opened FieldTypes
  import opened Inference
  import opened InferenceRun
  import opened PoolValidation
  import opened Sessions
  import opened Shunting
  import opened Tokenizer

  // ------------------------------------------------------------------------
  // Read off the trees

  function IndexOf<T(==)>(s: seq<T>, x: T): (i: nat)
    requires x in s
    ensures i < |s| && s[i] == x
  {
    if s[0] == x then 0 else IndexOf(s[1..], x) + 1
  }

  /** The types of a pool's builders, by the trees they stand for. */
  function TreesOf(env: Env, nodes: seq<Node>): TreeEnv
    requires ChildrenFirst(nodes)
  {
    TreeEnv(env, (t: Tree) => if t in View(nodes) then env.builderType(IndexOf(View(nodes), t)) else "")
  }

  lemma {:induction false} BuildersMatch(env: Env, nodes: seq<Node>)
    requires ChildrenFirst(nodes) && Distinct(View(nodes))
    ensures Matches(TreesOf(env, nodes), env, nodes)
  {
    forall i | 0 <= i < |nodes| ensures TreesOf(env, nodes).builderType(View(nodes)[i]) == env.builderType(i) {
      var j := IndexOf(View(nodes), View(nodes)[i]);
      assert i == j;
    }
  }

  /** Over the pool of a parser, the type of a field is the type of its expression's tree. */
  lemma {:induction false} TypeOfTree(now: Snapshot, seen: Snapshot, nodes: seq<Node>, fa: FieldAssign)
    requires PoolOk(nodes) && Distinct(View(nodes)) && now.config.nodes == EmitAll(nodes)
    requires IndexOk(now.config.nodes, fa) && ReadsType(fa) && InferredType(now, seen, fa).Some?
    ensures
      var ty := TreeType(TreesOf(EnvOf(now), nodes), View(nodes)[fa.index]);
      && ty.Some? && (fa.aggregation.Vector? ==> !ty.value.repeated)
      && InferredType(now, seen, fa).value
         == if fa.aggregation.Vector? then OutputType(seen, ty.value).(repeated := true) else OutputType(seen, ty.value)
  {
    BuildersMatch(EnvOf(now), nodes);
    ResolveIsTreeType(TreesOf(EnvOf(now), nodes), EnvOf(now), nodes, fa.index);
  }

  // ------------------------------------------------------------------------
  // From a session to inference

  function Items<T>(named: seq<Named<T>>): seq<T> {
    seq(|named|, i requires 0 <= i < |named| => named[i].item)
  }

  /** The configuration that a compiled session is emitted as. */
  function ConfigOf(out: Output): MetricsConfig {
    MetricsConfig(Items(out.sources), EmitAll(out.nodes), Items(out.reports))
  }

  lemma {:induction false} IndexAmongIds(assigns: seq<FieldAssign>, k: nat)
    requires k < |assigns| && !assigns[k].aggregation.Count?
    ensures assigns[k].index in AssignIds(assigns)
  {
    if k < |assigns| - 1 {
      IndexAmongIds(Front(assigns), k);
    }
  }

  lemma AssignsInRange(config: MetricsConfig, assigns: seq<FieldAssign>)
    requires forall id | id in AssignIds(assigns) :: id < |config.nodes|
    ensures Inference.InRange(config, assigns)
  {
    forall k | 0 <= k < |assigns| ensures IndexOk(config.nodes, assigns[k]) {
      if ReadsType(assigns[k]) {
        IndexAmongIds(assigns, k);
      }
    }
  }

  lemma {:induction false} MeansInRange(cfg: Config, expressions: map<nat, seq<Lexeme>>, pool: seq<Tree>, ids: seq<nat>,
                                        out: seq<nat>)
    requires Means(cfg, expressions, pool, ids, out)
    ensures forall id | id in out :: id < |pool|
  {
    forall id | id in out ensures id < |pool| {
      var k :| 0 <= k < |out| && out[k] == id;
      assert MeansText(cfg, expressions, pool, ids[k], out[k]);
    }
  }

  lemma EmittedAssigned(nodes: seq<Node>)
    requires ChildrenFirst(nodes)
    ensures
      var raw := EmitAll(nodes);
      forall i | 0 <= i < |raw| && raw[i].RawBuilder? ::
        forall k | 0 <= k < |raw[i].assigns| :: raw[i].assigns[k].index.Some? && raw[i].assigns[k].index.value < |raw|
  {
    var raw := EmitAll(nodes);
    forall i, k | 0 <= i < |raw| && raw[i].RawBuilder? && 0 <= k < |raw[i].assigns|
      ensures raw[i].assigns[k].index.Some? && raw[i].assigns[k].index.value < |raw|
    {
      assert raw[i] == Emit(nodes[i]);
      assert nodes[i].assigns[k].index in Children(nodes[i]);
      assert Trees.InRange(nodes[i], i);
    }
  }

  /** What a session compiles to is what inference asks for, whatever the names in it are. */
  lemma {:induction false} SessionWellIndexed(leq: (string, string) -> bool, cfg: Config,
                                              expressions: map<nat, seq<Lexeme>>,
                             triggers: map<string, Trigger>, sources: map<string, Source>, reports: map<string, Report>,
                                 out: Output)
    requires ChildrenFirst(out.nodes) && forall i | 0 <= i < |out.nodes| :: WellFormedNode(out.nodes[i])
    requires Faithful(leq, cfg, expressions, View(out.nodes), triggers, sources, reports, out)
    ensures WellIndexed(ConfigOf(out)) && PoolOk(out.nodes)
  {
    var config := ConfigOf(out);
    PoolResolvable(out.nodes);
    EmittedAssigned(out.nodes);
    forall e | IsEntity(config, e) ensures Inference.InRange(config, AssignsOf(config, e)) {
      match e
      case OnSource(s) =>
        var source := SourceNamed(config.sources, s).value;
        var i :| 0 <= i < |out.sources| && out.sources[i].item == source;
        MeansInRange(cfg, expressions, View(out.nodes), SourceIds(sources[out.sources[i].name]), SourceIds(source));
        AssignsInRange(config, source.assigns);
      case OnReport(k) =>
        var report := out.reports[k];
        MeansInRange(cfg, expressions, View(out.nodes), ReportIds(reports[report.name]), ReportIds(report.item));
        AssignsInRange(config, report.item.assigns);
      case OnBuilder(i) =>
    }
  }

  /** The type of a field is that of the text stashed for it: no other text of the session, nor
      the sharing between them, has any influence. */
  lemma {:induction false} TypeOfText(now: Snapshot, seen: Snapshot, cfg: Config, expressions: map<nat, seq<Lexeme>>,
                                      nodes: seq<Node>, id: nat, fa: FieldAssign)
    requires PoolOk(nodes) && Distinct(View(nodes)) && now.config.nodes == EmitAll(nodes)
    requires MeansText(cfg, expressions, View(nodes), id, fa.index) && ReadsType(fa)
             && InferredType(now, seen, fa).Some?
    ensures
      var ty := TreeType(TreesOf(EnvOf(now), nodes), CompileSource(cfg, expressions[id]).value.tree);
      && ty.Some? && (fa.aggregation.Vector? ==> !ty.value.repeated)
      && InferredType(now, seen, fa).value
         == if fa.aggregation.Vector? then OutputType(seen, ty.value).(repeated := true) else OutputType(seen, ty.value)
  {
    TypeOfTree(now, seen, nodes, fa);
  }
}
