/** The graph that orders type inference: an edge leads from a builder to each source and inline
    builder that its fields depend on. */
module InferenceGraph {
  import opened Wrappers
  import opened Configuration
  import opened Dependencies
  import opened Graphs
  import opened TopologicalOrdering

  /** The roots of the expressions assigned to fields. */
  function AssignRoots(assigns: seq<FieldAssign>): seq<nat> {
    if assigns == [] then [] else AssignRoots(Front(assigns)) + Opt(ExtractNodeIndex(Last(assigns)))
  }

  function RawRoots(assigns: seq<RawAssign>): seq<nat> {
    if assigns == [] then [] else RawRoots(Front(assigns)) + Opt(Last(assigns).index)
  }

  function SourceRoots(s: Source): seq<nat> {
    if s.Aggregator? then AssignRoots(s.assigns) else []
  }

  function NodeRoots(n: RawNode): seq<nat> {
    if n.RawBuilder? then RawRoots(n.assigns) else []
  }

  /** What is inferred, with the roots of its fields, as the graph is filled. */
  datatype Owner = Owner(entity: Entity, roots: seq<nat>)

  function SourceOwners(sources: seq<Source>): seq<Owner> {
    seq(|sources|, k requires 0 <= k < |sources| => Owner(OnSource(sources[k].name), SourceRoots(sources[k])))
  }

  function NodeOwners(nodes: seq<RawNode>): seq<Owner> {
    seq(|nodes|, k requires 0 <= k < |nodes| => Owner(OnBuilder(k), NodeRoots(nodes[k])))
  }

  function Owners(config: MetricsConfig): seq<Owner> {
    SourceOwners(config.sources) + NodeOwners(config.nodes)
  }

  ghost predicate NeedsVia(nodes: seq<RawNode>, o: Owner, d: Entity) {
    exists r | r in o.roots :: DependsOn(nodes, r, d)
  }

  /** A field of `e` depends on `d`. */
  ghost predicate Needs(nodes: seq<RawNode>, owners: seq<Owner>, e: Entity, d: Entity) {
    exists o | o in owners :: o.entity == e && NeedsVia(nodes, o, d)
  }

  lemma {:induction false} AssignRootsAre(assigns: seq<FieldAssign>, r: nat)
    ensures r in AssignRoots(assigns)
       <==> exists j | 0 <= j < |assigns| :: !assigns[j].aggregation.Count? && assigns[j].index == r
  {
    if assigns != [] {
      AssignRootsAre(Front(assigns), r);
      assert forall j | 0 <= j < |assigns| - 1 :: Front(assigns)[j] == assigns[j];
    }
  }

  lemma {:induction false} RawRootsAre(assigns: seq<RawAssign>, r: nat)
    ensures r in RawRoots(assigns) <==> exists j | 0 <= j < |assigns| :: assigns[j].index == Some(r)
  {
    if assigns != [] {
      RawRootsAre(Front(assigns), r);
      assert forall j | 0 <= j < |assigns| - 1 :: Front(assigns)[j] == assigns[j];
    }
  }

  /** A field of an aggregator called `name` depends on `d`. */
  ghost predicate AggregatorNeeds(config: MetricsConfig, name: string, d: Entity) {
    exists k, j | 0 <= k < |config.sources| && config.sources[k].Aggregator? && config.sources[k].name == name
                  && 0 <= j < |config.sources[k].assigns| ::
      AssignNeeds(config.nodes, config.sources[k].assigns[j], d)
  }

  ghost predicate AssignNeeds(nodes: seq<RawNode>, fa: FieldAssign, d: Entity) {
    !fa.aggregation.Count? && DependsOn(nodes, fa.index, d)
  }

  /** A field of the inline builder at `k` depends on `d`. */
  ghost predicate BuilderNeeds(config: MetricsConfig, k: nat, d: Entity) {
    k < |config.nodes| && config.nodes[k].RawBuilder? && exists j | 0 <= j < |config.nodes[k].assigns| ::
      RawAssignNeeds(config.nodes, config.nodes[k].assigns[j], d)
  }

  ghost predicate RawAssignNeeds(nodes: seq<RawNode>, a: RawAssign, d: Entity) {
    a.index.Some? && DependsOn(nodes, a.index.value, d)
  }

  lemma {:induction false} SourceNeedsVia(config: MetricsConfig, k: nat, d: Entity)
    requires k < |config.sources|
    ensures NeedsVia(config.nodes, SourceOwners(config.sources)[k], d)
       <==> config.sources[k].Aggregator? && exists j | 0 <= j < |config.sources[k].assigns| ::
              AssignNeeds(config.nodes, config.sources[k].assigns[j], d)
  {
    var o := SourceOwners(config.sources)[k];
    if config.sources[k].Aggregator? {
      forall r ensures r in o.roots <==> exists j | 0 <= j < |config.sources[k].assigns| ::
        !config.sources[k].assigns[j].aggregation.Count? && config.sources[k].assigns[j].index == r {
        AssignRootsAre(config.sources[k].assigns, r);
      }
    }
  }

  lemma {:induction false} NodeNeedsVia(config: MetricsConfig, k: nat, d: Entity)
    requires k < |config.nodes|
    ensures NeedsVia(config.nodes, NodeOwners(config.nodes)[k], d) <==> BuilderNeeds(config, k, d)
  {
    var o := NodeOwners(config.nodes)[k];
    if config.nodes[k].RawBuilder? {
      forall r ensures r in o.roots <==> exists j | 0 <= j < |config.nodes[k].assigns| ::
        config.nodes[k].assigns[j].index == Some(r) {
        RawRootsAre(config.nodes[k].assigns, r);
      }
    }
  }

  /** The edges of the graph: from an aggregator to what its fields depend on, counts aside, and from
      an inline builder to what its fields depend on. */
  lemma {:induction false} NeedsJustWhen(config: MetricsConfig, a: Entity, d: Entity)
    ensures Needs(config.nodes, Owners(config), a, d)
       <==> match a
            case OnSource(name) => AggregatorNeeds(config, name, d)
            case OnBuilder(k) => BuilderNeeds(config, k, d)
            case OnReport(_) => false
  {
    var s, n := SourceOwners(config.sources), NodeOwners(config.nodes);
    if o: Owner :| o in s + n && o.entity == a && NeedsVia(config.nodes, o, d) {
      if o in s {
        var k :| 0 <= k < |s| && s[k] == o;
        SourceNeedsVia(config, k, d);
      } else {
        var k :| 0 <= k < |n| && n[k] == o;
        NodeNeedsVia(config, k, d);
      }
    }
    if a.OnSource? && AggregatorNeeds(config, a.name, d) {
      var k, j :| 0 <= k < |config.sources| && config.sources[k].Aggregator? && config.sources[k].name == a.name
        && 0 <= j < |config.sources[k].assigns| && AssignNeeds(config.nodes, config.sources[k].assigns[j], d);
      SourceNeedsVia(config, k, d);
      assert s[k] in s + n;
    }
    if a.OnBuilder? && BuilderNeeds(config, a.index, d) {
      NodeNeedsVia(config, a.index, d);
      assert n[a.index] in s + n;
    }
  }

  /** The graph has just the edges that the first owners need. */
  ghost predicate Pictures(adj: Adjacency<Entity>, nodes: seq<RawNode>, owners: seq<Owner>) {
    forall a, b :: HasEdge(adj, a, b) <==> Needs(nodes, owners, a, b)
  }

  /** `adj1` is `adj` with edges from `e` to what `roots` depend on. */
  ghost predicate Linked(adj: Adjacency<Entity>, adj1: Adjacency<Entity>, nodes: seq<RawNode>, o: Owner) {
    && adj.Keys <= adj1.Keys
    && forall a, b :: HasEdge(adj1, a, b) <==> HasEdge(adj, a, b) || (a == o.entity && NeedsVia(nodes, o, b))
  }

  ghost predicate LinkedTo(adj: Adjacency<Entity>, adj1: Adjacency<Entity>, e: Entity, deps: seq<Entity>) {
    && adj.Keys <= adj1.Keys
    && forall a, b :: HasEdge(adj1, a, b) <==> HasEdge(adj, a, b) || (a == e && b in deps)
  }

  method AddEdges(g: Graph<Entity>, e: Entity, deps: seq<Entity>)
    requires g.Valid()
    modifies g
    ensures g.Valid() && LinkedTo(old(g.nodes), g.nodes, e, deps)
  {
    for i := 0 to |deps|
      invariant g.Valid() && LinkedTo(old(g.nodes), g.nodes, e, deps[..i])
    {
      ghost var adj := g.nodes;
      g.AddEdge(e, deps[i]);
      forall a, b ensures HasEdge(g.nodes, a, b) <==> HasEdge(adj, a, b) || Edge(e, deps[i]) == Edge(a, b) {
        ApplyEdges(adj, Edge(e, deps[i]), a, b);
      }
      assert deps[..i + 1] == deps[..i] + [deps[i]];
    }
    assert deps[..|deps|] == deps;
  }

  method AddDependencies(g: Graph<Entity>, nodes: seq<RawNode>, e: Entity, roots: seq<nat>)
    requires g.Valid()
    modifies g
    ensures g.Valid() && Linked(old(g.nodes), g.nodes, nodes, Owner(e, roots))
  {
    for i := 0 to |roots|
      invariant g.Valid() && Linked(old(g.nodes), g.nodes, nodes, Owner(e, roots[..i]))
    {
      ghost var adj := g.nodes;
      var deps := FindDeps(nodes, roots[i]);
      AddEdges(g, e, deps);
      LinkOneMore(old(g.nodes), adj, g.nodes, nodes, e, roots, i, deps);
    }
    assert roots[..|roots|] == roots;
  }

  lemma LinkOneMore(adj0: Adjacency<Entity>, adj: Adjacency<Entity>, adj1: Adjacency<Entity>, nodes: seq<RawNode>,
                    e: Entity,
                    roots: seq<nat>, i: nat, deps: seq<Entity>)
    requires i < |roots| && Linked(adj0, adj, nodes, Owner(e, roots[..i])) && LinkedTo(adj, adj1, e, deps)
    requires forall d :: d in deps <==> DependsOn(nodes, roots[i], d)
    ensures Linked(adj0, adj1, nodes, Owner(e, roots[..i + 1]))
  {
    assert roots[..i + 1] == roots[..i] + [roots[i]];
    forall d ensures NeedsVia(nodes, Owner(e, roots[..i + 1]), d)
          <==> NeedsVia(nodes, Owner(e, roots[..i]), d) || DependsOn(nodes, roots[i], d) {
      if DependsOn(nodes, roots[i], d) {
        assert roots[i] in roots[..i + 1];
      }
      if NeedsVia(nodes, Owner(e, roots[..i]), d) {
        var r :| r in roots[..i] && DependsOn(nodes, r, d);
        assert r in roots[..i + 1];
      }
    }
  }

  lemma OwnerAdded(adj: Adjacency<Entity>, adj1: Adjacency<Entity>, nodes: seq<RawNode>, owners: seq<Owner>, o: Owner)
    requires Pictures(adj, nodes, owners) && Linked(adj, adj1, nodes, o)
    ensures Pictures(adj1, nodes, owners + [o])
  {
    forall a, b
      ensures Needs(nodes, owners + [o], a, b)
          <==> Needs(nodes, owners, a, b) || (a == o.entity && NeedsVia(nodes, o, b)) {
      assert forall x :: x in owners + [o] <==> x in owners || x == o;
    }
  }

  /** Every entity whose type is inferred is in the graph. */
  ghost predicate HasEntities(adj: Adjacency<Entity>, config: MetricsConfig) {
    && (forall k | 0 <= k < |config.sources| :: OnSource(config.sources[k].name) in adj)
    && (forall k | 0 <= k < |config.nodes| && config.nodes[k].RawBuilder? :: OnBuilder(k) in adj)
  }

  ghost predicate EdgeFree(adj: Adjacency<Entity>) {
    forall a, b :: !HasEdge(adj, a, b)
  }

  lemma NodeIsEdgeFree(adj: Adjacency<Entity>, n: Entity)
    requires EdgeFree(adj)
    ensures EdgeFree(Apply(adj, Node(n)))
  {
    forall a, b ensures !HasEdge(Apply(adj, Node(n)), a, b) {
      ApplyEdges(adj, Node(n), a, b);
    }
  }

  method AddEntities(g: Graph<Entity>, config: MetricsConfig)
    requires g.Valid() && g.nodes == map[]
    modifies g
    ensures g.Valid() && HasEntities(g.nodes, config) && EdgeFree(g.nodes)
  {
    for k := 0 to |config.sources|
      invariant g.Valid() && EdgeFree(g.nodes)
      invariant forall j | 0 <= j < k :: OnSource(config.sources[j].name) in g.nodes
    {
      NodeIsEdgeFree(g.nodes, OnSource(config.sources[k].name));
      g.AddNode(OnSource(config.sources[k].name));
    }
    for k := 0 to |config.nodes|
      invariant g.Valid() && EdgeFree(g.nodes)
      invariant forall j | 0 <= j < |config.sources| :: OnSource(config.sources[j].name) in g.nodes
      invariant forall j | 0 <= j < k && config.nodes[j].RawBuilder? :: OnBuilder(j) in g.nodes
    {
      if config.nodes[k].RawBuilder? {
        NodeIsEdgeFree(g.nodes, OnBuilder(k));
        g.AddNode(OnBuilder(k));
      }
    }
  }

  method LinkOwners(g: Graph<Entity>, nodes: seq<RawNode>, ghost before: seq<Owner>, owners: seq<Owner>)
    requires g.Valid() && Pictures(g.nodes, nodes, before)
    modifies g
    ensures g.Valid() && Pictures(g.nodes, nodes, before + owners) && old(g.nodes).Keys <= g.nodes.Keys
  {
    assert before + owners[..0] == before;
    for k := 0 to |owners|
      invariant g.Valid() && Pictures(g.nodes, nodes, before + owners[..k]) && old(g.nodes).Keys <= g.nodes.Keys
    {
      ghost var adj := g.nodes;
      AddDependencies(g, nodes, owners[k].entity, owners[k].roots);
      OwnerAdded(adj, g.nodes, nodes, before + owners[..k], owners[k]);
      assert before + owners[..k] + [owners[k]] == before + owners[..k + 1];
    }
    assert before + owners[..|owners|] == before + owners;
  }

  method NewGraphForInferenceCycleChecks(config: MetricsConfig) returns (g: Graph<Entity>)
    ensures fresh(g) && g.Valid() && HasEntities(g.nodes, config)
    ensures Pictures(g.nodes, config.nodes, Owners(config))
  {
    g := new Graph();
    AddEntities(g, config);
    assert forall a, b :: !Needs(config.nodes, [], a, b);
    LinkOwners(g, config.nodes, [], SourceOwners(config.sources));
    LinkOwners(g, config.nodes, [] + SourceOwners(config.sources), NodeOwners(config.nodes));
    assert [] + SourceOwners(config.sources) + NodeOwners(config.nodes) == Owners(config);
  }
}
