/** A session collects triggers, sources and reports that refer to stashed expression texts;
    compiling it replaces these references by indices into the node pool. */
module Sessions {
  import opened Wrappers
  import opened Sorting
  import opened Trees
  import opened Shunting
  import opened Tokenizer
  import opened Parser
  import opened TokenizerLaws
  import opened Configuration

  datatype Condition =
    | NoCondition
    | RisingEdge(init: Option<nat>)
    | FallingEdge(init: Option<nat>)
    | AllChanges(init: Option<nat>)

  datatype Trigger =
    | ConditionalTrigger(selector: nat, condition: Condition)
    | DataTrigger(source: string)
    | PeriodicTrigger(parents: seq<string>)
    | UnsetTrigger

  // ------------------------------------------------------------------------
  // The references of an item, and their replacement

  function OptIds(i: Option<nat>): seq<nat> { if i.Some? then [i.value] else [] }

  function ConditionIds(c: Condition): seq<nat> { if c.NoCondition? then [] else OptIds(c.init) }

  function TriggerIds(t: Trigger): seq<nat> {
    if t.ConditionalTrigger? then [t.selector] + ConditionIds(t.condition) else []
  }

  function AssignIds(assigns: seq<FieldAssign>): seq<nat> {
    if assigns == [] then [] else AssignIds(Front(assigns)) + OptIds(ExtractNodeIndex(Last(assigns)))
  }

  function SourceIds(s: Source): seq<nat> { if s.Aggregator? then AssignIds(s.assigns) else [] }

  function ReportIds(r: Report): seq<nat> { AssignIds(r.assigns) }

  /** A missing key reads as zero. */
  function Translate(mapping: map<nat, nat>, id: nat): nat { if id in mapping then mapping[id] else 0 }

  function TranslateAll(mapping: map<nat, nat>, ids: seq<nat>): seq<nat> {
    seq(|ids|, i requires 0 <= i < |ids| => Translate(mapping, ids[i]))
  }

  function TranslateOpt(mapping: map<nat, nat>, id: Option<nat>): Option<nat> {
    if id.Some? then Some(Translate(mapping, id.value)) else None
  }

  function TranslateTrigger(mapping: map<nat, nat>, t: Trigger): (r: Trigger)
    ensures TriggerIds(r) == TranslateAll(mapping, TriggerIds(t))
  {
    match t
    case ConditionalTrigger(selector, RisingEdge(i)) => ConditionalTrigger(Translate(mapping, selector),
        RisingEdge(TranslateOpt(mapping, i)))
    case ConditionalTrigger(selector, FallingEdge(i)) => ConditionalTrigger(Translate(mapping, selector),
        FallingEdge(TranslateOpt(mapping, i)))
    case ConditionalTrigger(selector, AllChanges(i)) => ConditionalTrigger(Translate(mapping, selector),
        AllChanges(TranslateOpt(mapping, i)))
    case ConditionalTrigger(selector, NoCondition) => ConditionalTrigger(Translate(mapping, selector), NoCondition)
    case _ => t
  }

  function TranslateAssign(mapping: map<nat, nat>, fa: FieldAssign): FieldAssign {
    if fa.aggregation.Count? then fa else fa.(index := Translate(mapping, fa.index))
  }

  function TranslateAssigns(mapping: map<nat, nat>, assigns: seq<FieldAssign>): seq<FieldAssign> {
    seq(|assigns|, i requires 0 <= i < |assigns| => TranslateAssign(mapping, assigns[i]))
  }

  lemma TranslateAllAppend(mapping: map<nat, nat>, a: seq<nat>, b: seq<nat>)
    ensures TranslateAll(mapping, a + b) == TranslateAll(mapping, a) + TranslateAll(mapping, b)
  {
  }

  /** Translating assignments translates their references, position by position. */
  lemma {:induction false} AssignIdsTranslated(mapping: map<nat, nat>, assigns: seq<FieldAssign>)
    ensures AssignIds(TranslateAssigns(mapping, assigns)) == TranslateAll(mapping, AssignIds(assigns))
  {
    if assigns != [] {
      var r := TranslateAssigns(mapping, assigns);
      AssignIdsTranslated(mapping, Front(assigns));
      assert Front(r) == TranslateAssigns(mapping, Front(assigns));
      TranslateAllAppend(mapping, AssignIds(Front(assigns)), OptIds(ExtractNodeIndex(Last(assigns))));
    }
  }

  function TranslateSource(mapping: map<nat, nat>, s: Source): (r: Source)
    ensures SourceIds(r) == TranslateAll(mapping, SourceIds(s)) && r.name == s.name
  {
    if s.Aggregator? then
      AssignIdsTranslated(mapping, s.assigns);
      s.(assigns := TranslateAssigns(mapping, s.assigns))
    else s
  }

  function TranslateReport(mapping: map<nat, nat>, r: Report): (r1: Report)
    ensures ReportIds(r1) == TranslateAll(mapping, ReportIds(r)) && r1.name == r.name
  {
    AssignIdsTranslated(mapping, r.assigns);
    r.(assigns := TranslateAssigns(mapping, r.assigns))
  }

  /** Overwrites the references in a clone, one assignment at a time. */
  method TranslateMessageBuilder(mapping: map<nat, nat>, source: seq<FieldAssign>) returns (target: seq<FieldAssign>)
    ensures target == TranslateAssigns(mapping, source)
  {
    target := source;
    for i := 0 to |source|
      invariant |target| == |source|
      invariant forall j | 0 <= j < |source| ::
                target[j] == if j < i then TranslateAssign(mapping, source[j]) else source[j]
    {
      var sessionId := ExtractNodeIndex(source[i]);
      if sessionId.Some? {
        target := target[i := target[i].(index := Translate(mapping, sessionId.value))];
      }
    }
  }

  // ------------------------------------------------------------------------
  // Items without their references

  /** The item with zero for every reference. */
  function EraseTrigger(t: Trigger): Trigger {
    match t
    case ConditionalTrigger(_, NoCondition) => ConditionalTrigger(0, NoCondition)
    case ConditionalTrigger(_, RisingEdge(None)) => ConditionalTrigger(0, RisingEdge(None))
    case ConditionalTrigger(_, RisingEdge(Some(_))) => ConditionalTrigger(0, RisingEdge(Some(0)))
    case ConditionalTrigger(_, FallingEdge(None)) => ConditionalTrigger(0, FallingEdge(None))
    case ConditionalTrigger(_, FallingEdge(Some(_))) => ConditionalTrigger(0, FallingEdge(Some(0)))
    case ConditionalTrigger(_, AllChanges(None)) => ConditionalTrigger(0, AllChanges(None))
    case ConditionalTrigger(_, AllChanges(Some(_))) => ConditionalTrigger(0, AllChanges(Some(0)))
    case DataTrigger(source) => DataTrigger(source)
    case PeriodicTrigger(parents) => PeriodicTrigger(parents)
    case UnsetTrigger => UnsetTrigger
  }

  /** A count refers to no expression. */
  function EraseAssign(fa: FieldAssign): FieldAssign {
    match fa.aggregation
    case Count => fa
    case _ => FieldAssign(fa.fieldName, fa.aggregation, 0)
  }

  function EraseAssigns(assigns: seq<FieldAssign>): seq<FieldAssign> {
    seq(|assigns|, i requires 0 <= i < |assigns| => EraseAssign(assigns[i]))
  }

  function EraseSource(s: Source): Source {
    match s
    case DataSource(name, identifier) => DataSource(name, identifier)
    case Aggregator(name, ty, assigns) => Aggregator(name, ty, EraseAssigns(assigns))
    case OtherSource(name) => OtherSource(name)
  }

  function EraseReport(r: Report): Report { Report(r.name, r.messageType, EraseAssigns(r.assigns)) }

  /** What is erased of a trigger are its references, and nothing else. */
  lemma TriggerIsShapeAndIds(a: Trigger, b: Trigger)
    ensures a == b <==> EraseTrigger(a) == EraseTrigger(b) && TriggerIds(a) == TriggerIds(b)
  {
    if a.ConditionalTrigger? && EraseTrigger(a) == EraseTrigger(b) && TriggerIds(a) == TriggerIds(b) {
      assert a.selector == TriggerIds(a)[0] && b.selector == TriggerIds(b)[0];
      if !a.condition.NoCondition? && a.condition.init.Some? {
        assert a.condition.init.value == TriggerIds(a)[1] && b.condition.init.value == TriggerIds(b)[1];
      }
    }
  }

  lemma {:induction false} AssignIsShapeAndId(x: FieldAssign, y: FieldAssign, a: seq<nat>, b: seq<nat>)
    requires EraseAssign(x) == EraseAssign(y)
    requires a + OptIds(ExtractNodeIndex(x)) == b + OptIds(ExtractNodeIndex(y))
    ensures x == y && a == b
  {
    if !x.aggregation.Count? {
      assert Last(a + [x.index]) == x.index && Last(b + [y.index]) == y.index;
      assert Front(a + [x.index]) == a && Front(b + [y.index]) == b;
    } else {
      assert a + [] == a && b + [] == b;
    }
  }

  lemma EraseFront(assigns: seq<FieldAssign>)
    requires assigns != []
    ensures EraseAssigns(assigns) == EraseAssigns(Front(assigns)) + [EraseAssign(Last(assigns))]
  {
  }

  lemma {:induction false} AssignsAreShapeAndIds(a: seq<FieldAssign>, b: seq<FieldAssign>)
    requires EraseAssigns(a) == EraseAssigns(b) && AssignIds(a) == AssignIds(b)
    ensures a == b
  {
    assert |EraseAssigns(a)| == |a| && |EraseAssigns(b)| == |b|;
    if a != [] {
      EraseFront(a);
      EraseFront(b);
      assert Last(EraseAssigns(a)) == EraseAssign(Last(a)) && Last(EraseAssigns(b)) == EraseAssign(Last(b));
      assert Front(EraseAssigns(a)) == EraseAssigns(Front(a)) && Front(EraseAssigns(b)) == EraseAssigns(Front(b));
      AssignIsShapeAndId(Last(a), Last(b), AssignIds(Front(a)), AssignIds(Front(b)));
      AssignsAreShapeAndIds(Front(a), Front(b));
      assert a == Front(a) + [Last(a)] && b == Front(b) + [Last(b)];
    }
  }

  lemma SourceIsShapeAndIds(a: Source, b: Source)
    ensures a == b <==> EraseSource(a) == EraseSource(b) && SourceIds(a) == SourceIds(b)
  {
    if a.Aggregator? && b.Aggregator? && EraseSource(a) == EraseSource(b) && SourceIds(a) == SourceIds(b) {
      AssignsAreShapeAndIds(a.assigns, b.assigns);
    }
  }

  lemma ReportIsShapeAndIds(a: Report, b: Report)
    ensures a == b <==> EraseReport(a) == EraseReport(b) && ReportIds(a) == ReportIds(b)
  {
    if EraseReport(a) == EraseReport(b) && ReportIds(a) == ReportIds(b) {
      AssignsAreShapeAndIds(a.assigns, b.assigns);
    }
  }

  /** Translation changes nothing else. */
  lemma TriggerKeepsShape(mapping: map<nat, nat>, t: Trigger)
    ensures EraseTrigger(TranslateTrigger(mapping, t)) == EraseTrigger(t)
  {
  }

  lemma SourceKeepsShape(mapping: map<nat, nat>, s: Source)
    ensures EraseSource(TranslateSource(mapping, s)) == EraseSource(s)
  {
    if s.Aggregator? {
      AssignsKeepShape(mapping, s.assigns);
    }
  }

  lemma ReportKeepsShape(mapping: map<nat, nat>, r: Report)
    ensures EraseReport(TranslateReport(mapping, r)) == EraseReport(r)
  {
    AssignsKeepShape(mapping, r.assigns);
  }

  lemma AssignsKeepShape(mapping: map<nat, nat>, assigns: seq<FieldAssign>)
    ensures EraseAssigns(TranslateAssigns(mapping, assigns)) == EraseAssigns(assigns)
  {
    forall i | 0 <= i < |assigns| ensures EraseAssign(TranslateAssign(mapping, assigns[i])) == EraseAssign(assigns[i]) {
    }
  }

  // ------------------------------------------------------------------------
  // Listing items in the order of their names

  datatype Named<T> = Named(name: string, item: T)

  /** The items of `names` that are kept, translated. */
  function Listing<T>(items: map<string, T>, names: seq<string>, keep: T -> bool, translate: T -> T): seq<Named<T>>
    requires forall n | n in names :: n in items
  {
    if names == [] then []
    else
      Listing(items, Front(names), keep, translate)
      + if keep(items[Last(names)]) then [Named(Last(names), translate(items[Last(names)]))] else []
  }

  /** Each kept item appears once, translated, in ascending order of names; nothing else does. */
  ghost predicate ListsOnce<T(!new)>(leq: (string, string) -> bool, items: map<string, T>, keep: T -> bool,
                                     translate: T -> T, r: seq<Named<T>>) {
    && (forall i | 0 <= i < |r| ::
          r[i].name in items && keep(items[r[i].name]) && r[i].item == translate(items[r[i].name]))
    && (forall i, j | 0 <= i < j < |r| :: leq(r[i].name, r[j].name) && r[i].name != r[j].name)
    && (forall n | n in items && keep(items[n]) :: exists i | 0 <= i < |r| :: r[i].name == n)
  }

  lemma {:induction false} ListingMembers<T(!new)>(items: map<string, T>, names: seq<string>, keep: T -> bool,
                                                   translate: T -> T, x: Named<T>)
    requires forall n | n in names :: n in items
    ensures x in Listing(items, names, keep, translate) <==>
            x.name in names && keep(items[x.name]) && x.item == translate(items[x.name])
  {
    if names != [] {
      ListingMembers(items, Front(names), keep, translate, x);
      assert names == Front(names) + [Last(names)];
    }
  }

  ghost predicate Ascending(leq: (string, string) -> bool, names: seq<string>) {
    forall i, j | 0 <= i < j < |names| :: leq(names[i], names[j]) && names[i] != names[j]
  }

  lemma {:induction false} ListingAscends<T(!new)>(leq: (string, string) -> bool, items: map<string, T>,
                                                   names: seq<string>, keep: T -> bool, translate: T -> T)
    requires (forall n | n in names :: n in items) && Ascending(leq, names)
    ensures
      var r := Listing(items, names, keep, translate);
      forall i, j | 0 <= i < j < |r| :: leq(r[i].name, r[j].name) && r[i].name != r[j].name
  {
    if names != [] {
      var front, last := Front(names), Last(names);
      ListingAscends(leq, items, front, keep, translate);
      var r := Listing(items, front, keep, translate);
      forall i | 0 <= i < |r| ensures leq(r[i].name, last) && r[i].name != last {
        ListingMembers(items, front, keep, translate, r[i]);
        assert r[i].name in front;
        var k :| 0 <= k < |front| && front[k] == r[i].name;
        assert names[k] == r[i].name;
      }
    }
  }

  lemma SortedListing<T(!new)>(leq: (string, string) -> bool, items: map<string, T>, keep: T -> bool, translate: T -> T)
    requires TotalOrder(leq)
    ensures ListsOnce(leq, items, keep, translate, Listing(items, Sorted(leq, items.Keys), keep, translate))
  {
    var names := Sorted(leq, items.Keys);
    var r := Listing(items, names, keep, translate);
    SortedAscends(leq, items.Keys);
    ListingAscends(leq, items, names, keep, translate);
    forall i | 0 <= i < |r|
      ensures r[i].name in items && keep(items[r[i].name]) && r[i].item == translate(items[r[i].name]) {
      ListingMembers(items, names, keep, translate, r[i]);
      assert r[i] in r;
    }
    forall n | n in items && keep(items[n]) ensures exists i | 0 <= i < |r| :: r[i].name == n {
      ListingMembers(items, names, keep, translate, Named(n, translate(items[n])));
    }
  }

  // ------------------------------------------------------------------------
  // Sessions

  datatype Output = Output(nodes: seq<Node>, triggers: seq<Named<Trigger>>, sources: seq<Named<Source>>,
      reports: seq<Named<Report>>)

  predicate KeepTrigger(t: Trigger) { !t.UnsetTrigger? }
  predicate KeepSource(s: Source) { !s.OtherSource? }
  predicate KeepReport(r: Report) { true }

  /** Every reference has a stashed text. */
  predicate Stashed(expressions: map<nat, seq<Lexeme>>, ids: seq<nat>) {
    forall i | 0 <= i < |ids| :: ids[i] in expressions
  }

  class Session {
    const cfg: Config
    var expressions: map<nat, seq<Lexeme>>
    var next: nat
    var triggers: map<string, Trigger>
    var sources: map<string, Source>
    var reports: map<string, Report>

    ghost predicate Valid()
      reads this
    {
      && (forall k | k in expressions :: k < next && WellLexed(expressions[k]))
      && (forall n | n in triggers :: Stashed(expressions, TriggerIds(triggers[n])))
      && (forall n | n in sources :: Stashed(expressions, SourceIds(sources[n])))
      && (forall n | n in reports :: Stashed(expressions, ReportIds(reports[n])))
    }

    constructor (cfg: Config)
      ensures Valid() && this.cfg == cfg && expressions == map[] && triggers == map[] && sources == map[]
              && reports == map[]
    {
      this.cfg := cfg;
      expressions, next, triggers, sources, reports := map[], 0, map[], map[], map[];
    }

    /** Saves a text under a reference that is not in use, and disturbs no other. */
    method ExprStash(expr: seq<Lexeme>) returns (id: nat)
      requires Valid() && WellLexed(expr)
      modifies this`expressions, this`next
      ensures Valid() && id !in old(expressions) && expressions == old(expressions)[id := expr]
    {
      id := next;
      next := next + 1;
      expressions := expressions[id := expr];
    }

    method PutTrigger(name: string, t: Trigger)
      requires Valid() && Stashed(expressions, TriggerIds(t))
      modifies this`triggers
      ensures Valid() && triggers == old(triggers)[name := t]
    {
      triggers := triggers[name := t];
    }

    method PutSource(name: string, s: Source)
      requires Valid() && Stashed(expressions, SourceIds(s))
      modifies this`sources
      ensures Valid() && sources == old(sources)[name := s]
    {
      sources := sources[name := s];
    }

    method PutReport(name: string, r: Report)
      requires Valid() && Stashed(expressions, ReportIds(r))
      modifies this`reports
      ensures Valid() && reports == old(reports)[name := r]
    {
      reports := reports[name := r];
    }
  }

  method TriggersWithReplacedIndices(mapping: map<nat, nat>, triggers: map<string, Trigger>,
                                     leq: (string, string) -> bool) returns (r: seq<Named<Trigger>>)
    requires TotalOrder(leq)
    ensures ListsOnce(leq, triggers, KeepTrigger, t => TranslateTrigger(mapping, t), r)
  {
    var names := Sorted(leq, triggers.Keys);
    ghost var translate := t => TranslateTrigger(mapping, t);
    r := [];
    for i := 0 to |names|
      invariant r == Listing(triggers, names[..i], KeepTrigger, translate)
    {
      var t := triggers[names[i]];
      assert Front(names[..i + 1]) == names[..i];
      if !t.UnsetTrigger? {
        r := r + [Named(names[i], TranslateTrigger(mapping, t))];
      }
    }
    assert names[..|names|] == names;
    SortedListing(leq, triggers, KeepTrigger, translate);
  }

  method SourcesWithReplacedIndices(mapping: map<nat, nat>, sources: map<string, Source>, leq: (string, string) -> bool)
      returns (r: seq<Named<Source>>)
    requires TotalOrder(leq)
    ensures ListsOnce(leq, sources, KeepSource, s => TranslateSource(mapping, s), r)
  {
    var names := Sorted(leq, sources.Keys);
    ghost var translate := s => TranslateSource(mapping, s);
    r := [];
    for i := 0 to |names|
      invariant r == Listing(sources, names[..i], KeepSource, translate)
    {
      var s := sources[names[i]];
      assert Front(names[..i + 1]) == names[..i];
      if s.Aggregator? {
        var assigns := TranslateMessageBuilder(mapping, s.assigns);
        r := r + [Named(names[i], s.(assigns := assigns))];
      } else if s.DataSource? {
        r := r + [Named(names[i], s)];
      }
    }
    assert names[..|names|] == names;
    SortedListing(leq, sources, KeepSource, translate);
  }

  method ReportsWithReplacedIndices(mapping: map<nat, nat>, reports: map<string, Report>, leq: (string, string) -> bool)
      returns (r: seq<Named<Report>>)
    requires TotalOrder(leq)
    ensures ListsOnce(leq, reports, KeepReport, x => TranslateReport(mapping, x), r)
  {
    var names := Sorted(leq, reports.Keys);
    ghost var translate := x => TranslateReport(mapping, x);
    r := [];
    for i := 0 to |names|
      invariant r == Listing(reports, names[..i], KeepReport, translate)
    {
      assert Front(names[..i + 1]) == names[..i];
      var assigns := TranslateMessageBuilder(mapping, reports[names[i]].assigns);
      r := r + [Named(names[i], reports[names[i]].(assigns := assigns))];
    }
    assert names[..|names|] == names;
    SortedListing(leq, reports, KeepReport, translate);
  }

  /** The emitted indices `out` stand for the texts that `ids` refer to, position by position. */
  ghost predicate Means(cfg: Config, expressions: map<nat, seq<Lexeme>>, pool: seq<Tree>, ids: seq<nat>,
                        out: seq<nat>) {
    |out| == |ids| && forall k | 0 <= k < |ids| :: MeansText(cfg, expressions, pool, ids[k], out[k])
  }

  ghost predicate MeansText(cfg: Config, expressions: map<nat, seq<Lexeme>>, pool: seq<Tree>, id: nat, i: nat) {
    && id in expressions && i < |pool|
    && CompileSource(cfg, expressions[id]).Ok? && pool[i] == CompileSource(cfg, expressions[id]).value.tree
  }

  lemma TranslatedMeans(cfg: Config, expressions: map<nat, seq<Lexeme>>, pool: seq<Tree>,
                        outcomes: map<nat, Result<Compiled, Error>>,
                        mapping: map<nat, nat>, ids: seq<nat>)
    requires OutcomesOf(cfg, expressions, outcomes) && mapping.Keys == expressions.Keys && Stashed(expressions, ids)
    requires forall k | k in expressions :: MapsKey(pool, outcomes, mapping, k)
    ensures Means(cfg, expressions, pool, ids, TranslateAll(mapping, ids))
  {
    forall k | 0 <= k < |ids| ensures MeansText(cfg, expressions, pool, ids[k], TranslateAll(mapping, ids)[k]) {
      var id := ids[k];
      assert MapsKey(pool, outcomes, mapping, id);
      assert outcomes[id] == CompileSource(cfg, expressions[id]);
    }
  }

  /** Each item of the session that has a kind is emitted once, in the order of names, and every
      index in it decodes to the tree of the very text stashed for that position. */
  ghost predicate Faithful(leq: (string, string) -> bool, cfg: Config, expressions: map<nat, seq<Lexeme>>,
                           pool: seq<Tree>,
                           triggers: map<string, Trigger>, sources: map<string, Source>, reports: map<string, Report>,
                               out: Output)
  {
    && EmittedOnce(leq, triggers, KeepTrigger, out.triggers) && EmittedOnce(leq, sources, KeepSource, out.sources)
    && EmittedOnce(leq, reports, KeepReport, out.reports)
    && (forall i | 0 <= i < |out.triggers| ::
          Means(cfg, expressions, pool, TriggerIds(triggers[out.triggers[i].name]), TriggerIds(out.triggers[i].item)))
    && (forall i | 0 <= i < |out.sources| ::
          Means(cfg, expressions, pool, SourceIds(sources[out.sources[i].name]), SourceIds(out.sources[i].item)))
    && (forall i | 0 <= i < |out.reports| ::
          Means(cfg, expressions, pool, ReportIds(reports[out.reports[i].name]), ReportIds(out.reports[i].item)))
  }

  ghost predicate EmittedOnce<T(!new)>(leq: (string, string) -> bool, items: map<string, T>, keep: T -> bool,
                                       r: seq<Named<T>>) {
    && (forall i | 0 <= i < |r| :: r[i].name in items && keep(items[r[i].name]))
    && (forall i, j | 0 <= i < j < |r| :: leq(r[i].name, r[j].name) && r[i].name != r[j].name)
    && (forall n | n in items && keep(items[n]) :: exists i | 0 <= i < |r| :: r[i].name == n)
  }

  /** Compiles the expressions of a session and relinks its items. */
  method CompileSession(sess: Session, leq: (string, string) -> bool)
    returns (r: Result<Output, Error>, ghost pool: seq<Tree>, ghost outcomes: map<nat, Result<Compiled, Error>>,
        ghost m: map<nat, nat>)
    requires sess.Valid() && TotalOrder(leq)
    ensures r.Ok? <==> forall k | k in sess.expressions :: CompileSource(sess.cfg, sess.expressions[k]).Ok?
    ensures r.Ok? ==>
      && IsPool(r.value.nodes) && pool == View(r.value.nodes)
      && Compiles(sess.cfg, sess.expressions, outcomes, pool, m)
      && Faithful(leq, sess.cfg, sess.expressions, pool, sess.triggers, sess.sources, sess.reports, r.value)
      && Relinked(leq, m, sess.triggers, sess.sources, sess.reports, r.value)
      && ShapesKept(sess.triggers, sess.sources, sess.reports, r.value)
  {
    var mapping, nodes;
    mapping, nodes, pool, outcomes := CompileTexts(sess.cfg, sess.expressions);
    m := if mapping.Ok? then mapping.value else map[];
    CompiledJustWhen(sess.cfg, sess.expressions, outcomes, mapping, pool);
    if mapping.Err? {
      r := Err(mapping.error);
      return;
    }
    var out := Relink(sess, mapping.value, nodes, leq);
    LinkedFaithfully(leq, sess, pool, outcomes, mapping.value, out);
    RelinkingKeepsShapes(leq, mapping.value, sess.triggers, sess.sources, sess.reports, out);
    r := Ok(out);
  }

  /** Every item that has a kind is emitted once, in the order of names, as it was in the session
      but for its indices, which are translated. */
  ghost predicate Relinked(leq: (string, string) -> bool, m: map<nat, nat>, triggers: map<string, Trigger>,
                           sources: map<string, Source>, reports: map<string, Report>, out: Output)
  {
    && ListsOnce(leq, triggers, KeepTrigger, t => TranslateTrigger(m, t), out.triggers)
    && ListsOnce(leq, sources, KeepSource, s => TranslateSource(m, s), out.sources)
    && ListsOnce(leq, reports, KeepReport, x => TranslateReport(m, x), out.reports)
  }

  /** Just the items that have a kind are emitted, each as it was in the session but for what
      erasing takes away. */
  ghost predicate ShapesKept(triggers: map<string, Trigger>, sources: map<string, Source>,
                             reports: map<string, Report>, out: Output)
  {
    && (forall i | 0 <= i < |out.triggers| ::
          && out.triggers[i].name in triggers
          && EraseTrigger(out.triggers[i].item) == EraseTrigger(triggers[out.triggers[i].name]))
    && (forall i | 0 <= i < |out.sources| ::
          && out.sources[i].name in sources
          && EraseSource(out.sources[i].item) == EraseSource(sources[out.sources[i].name]))
    && (forall i | 0 <= i < |out.reports| ::
          && out.reports[i].name in reports
          && EraseReport(out.reports[i].item) == EraseReport(reports[out.reports[i].name]))
    && (forall n | n in triggers :: !triggers[n].UnsetTrigger? <==> Emitted(out.triggers, n))
    && (forall n | n in sources :: !sources[n].OtherSource? <==> Emitted(out.sources, n))
    && (forall n | n in reports :: Emitted(out.reports, n))
  }

  predicate Emitted<T>(items: seq<Named<T>>, name: string) { exists i | 0 <= i < |items| :: items[i].name == name }

  lemma EmittedJustKept<T(!new)>(leq: (string, string) -> bool, items: map<string, T>, keep: T -> bool,
                                 translate: T -> T, r: seq<Named<T>>)
    requires ListsOnce(leq, items, keep, translate, r)
    ensures forall n | n in items :: keep(items[n]) <==> Emitted(r, n)
    ensures forall i | 0 <= i < |r| :: r[i].name in items && r[i].item == translate(items[r[i].name])
  {
  }

  lemma RelinkingKeepsShapes(leq: (string, string) -> bool, m: map<nat, nat>, triggers: map<string, Trigger>,
                             sources: map<string, Source>, reports: map<string, Report>, out: Output)
    requires Relinked(leq, m, triggers, sources, reports, out)
    ensures ShapesKept(triggers, sources, reports, out)
  {
    EmittedJustKept(leq, triggers, KeepTrigger, t => TranslateTrigger(m, t), out.triggers);
    EmittedJustKept(leq, sources, KeepSource, s => TranslateSource(m, s), out.sources);
    EmittedJustKept(leq, reports, KeepReport, x => TranslateReport(m, x), out.reports);
    forall i | 0 <= i < |out.triggers|
      ensures EraseTrigger(out.triggers[i].item) == EraseTrigger(triggers[out.triggers[i].name]) {
      TriggerKeepsShape(m, triggers[out.triggers[i].name]);
    }
    forall i | 0 <= i < |out.sources|
      ensures EraseSource(out.sources[i].item) == EraseSource(sources[out.sources[i].name]) {
      SourceKeepsShape(m, sources[out.sources[i].name]);
    }
    forall i | 0 <= i < |out.reports|
      ensures EraseReport(out.reports[i].item) == EraseReport(reports[out.reports[i].name]) {
      ReportKeepsShape(m, reports[out.reports[i].name]);
    }
  }

  method Relink(sess: Session, mapping: map<nat, nat>, nodes: seq<Node>, leq: (string, string) -> bool)
      returns (out: Output)
    requires TotalOrder(leq)
    ensures out.nodes == nodes && Relinked(leq, mapping, sess.triggers, sess.sources, sess.reports, out)
  {
    var triggers := TriggersWithReplacedIndices(mapping, sess.triggers, leq);
    var sources := SourcesWithReplacedIndices(mapping, sess.sources, leq);
    var reports := ReportsWithReplacedIndices(mapping, sess.reports, leq);
    out := Output(nodes, triggers, sources, reports);
  }

  /** Compiles texts, in the order of their references, into a pool of their own. */
  method CompileTexts(cfg: Config, expressions: map<nat, seq<Lexeme>>)
    returns (mapping: Result<map<nat, nat>, Error>, nodes: seq<Node>, ghost pool: seq<Tree>, ghost outcomes: map<nat,
        Result<Compiled, Error>>)
    requires forall k | k in expressions :: WellLexed(expressions[k])
    ensures IsPool(nodes) && pool == View(nodes) && OutcomesOf(cfg, expressions, outcomes)
    ensures mapping.Err? ==> exists k :: FirstFailure(outcomes, k, mapping.error)
    ensures mapping.Ok? ==> Compiles(cfg, expressions, outcomes, pool, mapping.value)
  {
    var parser := new ParserShunt(cfg.disallowChaining, cfg.rightAssociativePower);
    mapping, outcomes := parser.CompileAll(expressions);
    parser.PoolIsCanonical();
    nodes, pool := parser.nodes, parser.pool;
  }

  lemma CompiledJustWhen(cfg: Config, expressions: map<nat, seq<Lexeme>>, outcomes: map<nat, Result<Compiled, Error>>,
                         mapping: Result<map<nat, nat>, Error>, pool: seq<Tree>)
    requires OutcomesOf(cfg, expressions, outcomes)
    requires mapping.Err? ==> exists k :: FirstFailure(outcomes, k, mapping.error)
    requires mapping.Ok? ==> forall k | k in expressions :: MapsKey(pool, outcomes, mapping.value, k)
    ensures mapping.Ok? <==> forall k | k in expressions :: CompileSource(cfg, expressions[k]).Ok?
  {
    if mapping.Err? {
      var k :| FirstFailure(outcomes, k, mapping.error);
      assert outcomes[k] == CompileSource(cfg, expressions[k]);
    } else {
      forall k | k in expressions ensures CompileSource(cfg, expressions[k]).Ok? {
        assert MapsKey(pool, outcomes, mapping.value, k);
        assert outcomes[k] == CompileSource(cfg, expressions[k]);
      }
    }
  }

  lemma LinkedFaithfully(leq: (string, string) -> bool, sess: Session, pool: seq<Tree>,
                         outcomes: map<nat, Result<Compiled, Error>>, mapping: map<nat, nat>, out: Output)
    requires sess.Valid() && OutcomesOf(sess.cfg, sess.expressions, outcomes)
    requires mapping.Keys == sess.expressions.Keys
    requires forall k | k in sess.expressions :: MapsKey(pool, outcomes, mapping, k)
    requires Relinked(leq, mapping, sess.triggers, sess.sources, sess.reports, out)
    ensures Faithful(leq, sess.cfg, sess.expressions, pool, sess.triggers, sess.sources, sess.reports, out)
  {
    forall i | 0 <= i < |out.triggers|
      ensures Means(sess.cfg, sess.expressions, pool, TriggerIds(sess.triggers[out.triggers[i].name]),
                    TriggerIds(out.triggers[i].item))
    {
      TranslatedMeans(sess.cfg, sess.expressions, pool, outcomes, mapping,
                      TriggerIds(sess.triggers[out.triggers[i].name]));
    }
    forall i | 0 <= i < |out.sources|
      ensures Means(sess.cfg, sess.expressions, pool, SourceIds(sess.sources[out.sources[i].name]),
                    SourceIds(out.sources[i].item))
    {
      TranslatedMeans(sess.cfg, sess.expressions, pool, outcomes, mapping,
                      SourceIds(sess.sources[out.sources[i].name]));
    }
    forall i | 0 <= i < |out.reports|
      ensures Means(sess.cfg, sess.expressions, pool, ReportIds(sess.reports[out.reports[i].name]),
                    ReportIds(out.reports[i].item))
    {
      TranslatedMeans(sess.cfg, sess.expressions, pool, outcomes, mapping,
                      ReportIds(sess.reports[out.reports[i].name]));
    }
  }

  /** The indices that expressions are mapped to are determined by the pool. */
  lemma {:induction false} SameIndices(pool: seq<Tree>, outcomes: map<nat, Result<Compiled, Error>>, m: map<nat, nat>,
                                       m1: map<nat, nat>)
    requires Distinct(pool) && m.Keys == m1.Keys == outcomes.Keys
    requires forall k | k in outcomes :: MapsKey(pool, outcomes, m, k) && MapsKey(pool, outcomes, m1, k)
    ensures m == m1
  {
    forall k | k in outcomes ensures m[k] == m1[k] {
      assert MapsKey(pool, outcomes, m, k) && MapsKey(pool, outcomes, m1, k);
    }
  }

  /** What `CompileAll` returns for `expressions`, from an empty pool. */
  ghost predicate Compiles(cfg: Config, expressions: map<nat, seq<Lexeme>>, outcomes: map<nat, Result<Compiled, Error>>,
                           pool: seq<Tree>, m: map<nat, nat>) {
    && OutcomesOf(cfg, expressions, outcomes) && Distinct(pool) && m.Keys == outcomes.Keys
    && pool == Intern([], SessionLog(outcomes, SortedKeys(outcomes.Keys)))
    && forall k | k in outcomes :: MapsKey(pool, outcomes, m, k)
  }

  /** A list of nodes is determined by the trees it stands for. */
  lemma {:induction false} SameNodes(a: seq<Node>, b: seq<Node>)
    requires IsPool(a) && IsPool(b) && View(a) == View(b)
    ensures a == b
  {
    forall i | 0 <= i < |a| ensures a[i] == b[i] {
      ViewAt(a, i);
      ViewAt(b, i);
      DecodeNodeInjective(View(a), a[i], b[i]);
    }
  }

  /** If the strict mode accepts a session, the permissive mode accepts it too, with the same
      meanings, the same nodes and the same map from references to indices, and with no others. */
  lemma {:induction false} StrictSessionUnchanged(cfg: Config, expressions: map<nat, seq<Lexeme>>,
                               strict: map<nat, Result<Compiled, Error>>, nodes: seq<Node>, m: map<nat, nat>,
                               loose: map<nat, Result<Compiled, Error>>, nodes1: seq<Node>, m1: map<nat, nat>)
    requires IsPool(nodes) && IsPool(nodes1) && Compiles(cfg, expressions, strict, View(nodes), m)
    ensures Compiles(Loose(cfg), expressions, strict, View(nodes), m)
    ensures Compiles(Loose(cfg), expressions, loose, View(nodes1), m1) ==> loose == strict && nodes1 == nodes && m1 == m
  {
    StrictAccepted(cfg, expressions, strict, View(nodes), m);
    if Compiles(Loose(cfg), expressions, loose, View(nodes1), m1) {
      OneOutcome(Loose(cfg), expressions, strict, loose);
      SameNodes(nodes, nodes1);
      SameIndices(View(nodes), strict, m, m1);
    }
  }

  lemma OneOutcome(cfg: Config, expressions: map<nat, seq<Lexeme>>, a: map<nat, Result<Compiled, Error>>,
                   b: map<nat, Result<Compiled, Error>>)
    requires OutcomesOf(cfg, expressions, a) && OutcomesOf(cfg, expressions, b)
    ensures a == b
  {
    forall k | k in expressions ensures a[k] == b[k] {
      assert a[k] == CompileSource(cfg, expressions[k]) && b[k] == CompileSource(cfg, expressions[k]);
    }
  }

  lemma {:induction false} StrictAccepted(cfg: Config, expressions: map<nat, seq<Lexeme>>,
                                          strict: map<nat, Result<Compiled, Error>>, pool: seq<Tree>, m: map<nat, nat>)
    requires Compiles(cfg, expressions, strict, pool, m)
    ensures Compiles(Loose(cfg), expressions, strict, pool, m)
  {
    forall k | k in expressions ensures strict[k] == CompileSource(Loose(cfg), expressions[k]) {
      assert MapsKey(pool, strict, m, k);
      assert strict[k] == CompileSource(cfg, expressions[k]);
      SourceRestricts(cfg, expressions[k]);
    }
  }
}
