/** The structural checks the validator makes on expression nodes. */
module Validation {
  import opened Wrappers
  import opened Operators
  import opened Trees
  import opened Configuration
  import opened Graphs
  import opened Sorting
  import opened TopologicalOrdering

  datatype Finding =
    | LeftUnset(node: nat) | RightUnset(node: nat) | UnaryWithRight(node: nat)
    | DanglingOperand(index: nat) | DanglingField(index: nat)
    | BothSourceAndExpression(node: nat) | NeitherSourceNorExpression(node: nat) | UnknownSource(node: nat,
        source: string)
    | FieldNameUnset(node: nat) | FieldNameRepeated(node: nat, name: string)
    | AssignmentUnset(node: nat, name: string) | DanglingAssignment(node: nat, name: string, index: nat)
    | NoTypeResolver(messageType: string) | UnknownMessageType(messageType: string)
    | CyclicReference(cycle: seq<nat>)

  /** What the checks look up elsewhere in the configuration. */
  datatype Context = Context(sources: set<string>, types: Option<set<string>>)

  // ------------------------------------------------------------------------
  // The findings, node by node

  function ChildFindings(i: nat, node: RawNode, n: nat): seq<Finding> {
    if !node.RawCombination? then []
    else
      (if node.left.None? then [LeftUnset(i)]
            else if node.left.value >= n then [DanglingOperand(node.left.value)] else [])
      + if IsUnaryNodeOperator(node.op) then (if node.right.Some? then [UnaryWithRight(i)] else [])
        else if node.right.None? then [RightUnset(i)]
        else if node.right.value >= n then [DanglingOperand(node.right.value)]
        else []
  }

  function FieldFindings(ctx: Context, i: nat, source: string, expr: Option<nat>, n: nat): seq<Finding> {
    if source != "" && expr.Some? then [BothSourceAndExpression(i)]
    else if source == "" && expr.None? then [NeitherSourceNorExpression(i)]
    else if expr.Some? then if expr.value >= n then [DanglingField(expr.value)] else []
    else if source !in ctx.sources then [UnknownSource(i, source)]
    else []
  }

  predicate NamedBefore(assigns: seq<RawAssign>, k: nat, name: string)
    requires k <= |assigns|
  {
    exists j | 0 <= j < k :: assigns[j].name == name
  }

  function AssignFindings(i: nat, assigns: seq<RawAssign>, k: nat, n: nat): seq<Finding>
    requires k < |assigns|
  {
    var a := assigns[k];
    (if a.name == "" then [FieldNameUnset(i)]
          else if NamedBefore(assigns, k, a.name) then [FieldNameRepeated(i, a.name)] else [])
    + if a.index.None? then [AssignmentUnset(i, a.name)]
      else if a.index.value >= n then [DanglingAssignment(i, a.name, a.index.value)]
      else []
  }

  /** The findings on the first `k` assignments. */
  function AssignsFindings(i: nat, assigns: seq<RawAssign>, k: nat, n: nat): seq<Finding>
    requires k <= |assigns|
  {
    if k == 0 then [] else AssignsFindings(i, assigns, k - 1, n) + AssignFindings(i, assigns, k - 1, n)
  }

  function TypeFindings(ctx: Context, ty: string): seq<Finding> {
    if ty == "" then []
    else if ctx.types.None? then [NoTypeResolver(ty)]
    else if ty !in ctx.types.value then [UnknownMessageType(ty)]
    else []
  }

  function NodeFindings(ctx: Context, i: nat, node: RawNode, n: nat): seq<Finding> {
    ChildFindings(i, node, n)
    + match node
      case RawField(source, expr, _) => FieldFindings(ctx, i, source, expr, n)
      case RawBuilder(ty, assigns) => AssignsFindings(i, assigns, |assigns|, n) + TypeFindings(ctx, ty)
      case _ => []
  }

  /** The findings on the first `k` nodes. */
  function Findings(ctx: Context, nodes: seq<RawNode>, k: nat): seq<Finding>
    requires k <= |nodes|
  {
    if k == 0 then [] else Findings(ctx, nodes, k - 1) + NodeFindings(ctx, k - 1, nodes[k - 1], |nodes|)
  }

  // ------------------------------------------------------------------------
  // What passing the checks means

  predicate AssignOk(assigns: seq<RawAssign>, k: nat, n: nat)
    requires k < |assigns|
  {
    && assigns[k].name != "" && !NamedBefore(assigns, k, assigns[k].name)
    && assigns[k].index.Some? && assigns[k].index.value < n
  }

  /** One node is complete, refers to existing nodes, sources and types, and to no field twice. */
  predicate Complete(ctx: Context, node: RawNode, n: nat) {
    match node
    case RawField(source, expr, _) =>
      ((source != "") <==> expr.None?) && (source != "" ==> source in ctx.sources) && (expr.Some? ==> expr.value < n)
    case RawCombination(op, left, right) =>
      left.Some? && left.value < n && (right.Some? <==> !IsUnaryNodeOperator(op)) && (right.Some? ==> right.value < n)
    case RawBuilder(ty, assigns) =>
      (forall k | 0 <= k < |assigns| :: AssignOk(assigns, k, n))
          && (ty == "" || (ctx.types.Some? && ty in ctx.types.value))
    case _ => true
  }

  lemma {:induction false} AssignsComplete(i: nat, assigns: seq<RawAssign>, k: nat, n: nat)
    requires k <= |assigns|
    ensures AssignsFindings(i, assigns, k, n) == [] <==> forall j | 0 <= j < k :: AssignOk(assigns, j, n)
  {
    if k > 0 {
      AssignsComplete(i, assigns, k - 1, n);
      assert AssignFindings(i, assigns, k - 1, n) == [] <==> AssignOk(assigns, k - 1, n);
    }
  }

  lemma NodeComplete(ctx: Context, i: nat, node: RawNode, n: nat)
    ensures NodeFindings(ctx, i, node, n) == [] <==> Complete(ctx, node, n)
  {
    if node.RawBuilder? {
      AssignsComplete(i, node.assigns, |node.assigns|, n);
    }
  }

  lemma {:induction false} OneMoreFinding(ctx: Context, nodes: seq<RawNode>, k: nat)
    requires 0 < k <= |nodes|
    ensures Findings(ctx, nodes, k) == [] <==> Findings(ctx, nodes, k - 1) == [] && Complete(ctx, nodes[k - 1], |nodes|)
  {
    NodeComplete(ctx, k - 1, nodes[k - 1], |nodes|);
    EmptyConcat(Findings(ctx, nodes, k - 1), NodeFindings(ctx, k - 1, nodes[k - 1], |nodes|));
  }

  predicate CompleteUpTo(ctx: Context, nodes: seq<RawNode>, k: nat)
    requires k <= |nodes|
  {
    forall i | 0 <= i < k :: Complete(ctx, nodes[i], |nodes|)
  }

  lemma {:induction false} OneMoreComplete(ctx: Context, nodes: seq<RawNode>, k: nat)
    requires 0 < k <= |nodes|
    ensures CompleteUpTo(ctx, nodes, k) <==> CompleteUpTo(ctx, nodes, k - 1) && Complete(ctx, nodes[k - 1], |nodes|)
  {
  }

  /** The first `k` nodes are complete just when there is nothing to report on them. */
  predicate Judged(ctx: Context, nodes: seq<RawNode>, k: nat)
    requires k <= |nodes|
  {
    (Findings(ctx, nodes, k) == []) == CompleteUpTo(ctx, nodes, k)
  }

  lemma {:induction false} NoneJudged(ctx: Context, nodes: seq<RawNode>)
    ensures Judged(ctx, nodes, 0)
  {
  }

  lemma {:induction false} JudgedOneMore(ctx: Context, nodes: seq<RawNode>, k: nat)
    requires 0 < k <= |nodes| && Judged(ctx, nodes, k - 1)
    ensures Judged(ctx, nodes, k)
  {
    OneMoreFinding(ctx, nodes, k);
    OneMoreComplete(ctx, nodes, k);
  }

  /** There is nothing to report just when every node is complete. */
  lemma {:induction false} NothingFound(ctx: Context, nodes: seq<RawNode>, k: nat)
    requires k <= |nodes|
    ensures Judged(ctx, nodes, k)
  {
    if k > 0 {
      NothingFound(ctx, nodes, k - 1);
      JudgedOneMore(ctx, nodes, k);
    } else {
      NoneJudged(ctx, nodes);
    }
  }

  lemma EmptyConcat(a: seq<Finding>, b: seq<Finding>)
    ensures a + b == [] <==> a == [] && b == []
  {
    assert |a + b| == |a| + |b|;
  }

  // ------------------------------------------------------------------------
  // References and their cycles

  /** The optional references of a node, as the cycle check meets them. */
  function Targets(n: RawNode): seq<Option<nat>> {
    match n
    case RawField(_, expr, _) => [expr]
    case RawCombination(_, left, right) => [left, right]
    case RawBuilder(_, assigns) => seq(|assigns|, i requires 0 <= i < |assigns| => assigns[i].index)
    case _ => []
  }

  lemma TargetsAreReferences(n: RawNode, c: nat)
    ensures Some(c) in Targets(n) <==> c in References(n)
  {
    if n.RawBuilder? {
      var t := Targets(n);
      if Some(c) in t {
        var i :| 0 <= i < |t| && t[i] == Some(c);
        assert n.assigns[i].index.value == c;
      }
      if c in References(n) {
        var i :| 0 <= i < |n.assigns| && n.assigns[i].index.Some? && n.assigns[i].index.value == c;
        assert t[i] == Some(c);
      }
    }
  }

  /** Node `a` refers to `b`, among the first `k` nodes. */
  predicate Refers(nodes: seq<RawNode>, k: nat, a: nat, b: nat) {
    a < k && a < |nodes| && b in References(nodes[a])
  }

  /** The graph has an edge for every reference of the first `k` nodes, and no other; and it
      has all these nodes. */
  ghost predicate Pictures(adj: Adjacency<nat>, nodes: seq<RawNode>, k: nat) {
    && (forall a: nat, b: nat :: HasEdge(adj, a, b) <==> Refers(nodes, k, a, b))
    && (forall a: nat | a < k :: a in adj)
  }

  /** The same, with the first `j` targets of node `k` added. */
  ghost predicate PicturesPart(adj: Adjacency<nat>, nodes: seq<RawNode>, k: nat, targets: seq<Option<nat>>, j: nat)
    requires j <= |targets|
  {
    && (forall a: nat, b: nat :: HasEdge(adj, a, b) <==> Refers(nodes, k, a, b) || (a == k && Some(b) in targets[..j]))
    && (forall a: nat | a <= k :: a in adj)
  }

  lemma PartStep(adj: Adjacency<nat>, adj1: Adjacency<nat>, nodes: seq<RawNode>, k: nat, targets: seq<Option<nat>>,
                 j: nat)
    requires j < |targets| && PicturesPart(adj, nodes, k, targets, j)
    requires adj1 == if targets[j].Some? then Apply(adj, Edge(k, targets[j].value)) else adj
    ensures PicturesPart(adj1, nodes, k, targets, j + 1)
  {
    assert targets[..j + 1] == targets[..j] + [targets[j]];
    forall a: nat, b: nat
      ensures HasEdge(adj1, a, b) <==> Refers(nodes, k, a, b) || (a == k && Some(b) in targets[..j + 1]) {
      if targets[j].Some? {
        ApplyEdges(adj, Edge(k, targets[j].value), a, b);
      }
    }
  }

  lemma PartDone(adj: Adjacency<nat>, nodes: seq<RawNode>, k: nat, targets: seq<Option<nat>>)
    requires k < |nodes| && targets == Targets(nodes[k]) && PicturesPart(adj, nodes, k, targets, |targets|)
    ensures Pictures(adj, nodes, k + 1)
  {
    assert targets[..|targets|] == targets;
    forall a: nat, b: nat ensures HasEdge(adj, a, b) <==> Refers(nodes, k + 1, a, b) {
      TargetsAreReferences(nodes[k], b);
    }
  }

  lemma PartStart(adj: Adjacency<nat>, nodes: seq<RawNode>, k: nat, targets: seq<Option<nat>>)
    requires Pictures(adj, nodes, k)
    ensures PicturesPart(Apply(adj, Node(k)), nodes, k, targets, 0)
  {
    forall a: nat, b: nat ensures HasEdge(Apply(adj, Node(k)), a, b) <==> Refers(nodes, k, a, b) {
      ApplyEdges(adj, Node(k), a, b);
    }
  }

  method AddReferences(g: Graph<nat>, ghost nodes: seq<RawNode>, k: nat, targets: seq<Option<nat>>)
    requires g.Valid() && Pictures(g.nodes, nodes, k)
    modifies g
    ensures g.Valid() && PicturesPart(g.nodes, nodes, k, targets, |targets|)
  {
    PartStart(g.nodes, nodes, k, targets);
    g.AddNode(k);
    for j := 0 to |targets|
      invariant g.Valid() && PicturesPart(g.nodes, nodes, k, targets, j)
    {
      ghost var adj := g.nodes;
      if targets[j].Some? {
        g.AddEdge(k, targets[j].value);
      }
      PartStep(adj, g.nodes, nodes, k, targets, j);
    }
  }

  method NewGraphForExpressionNodeCyclesChecks(nodes: seq<RawNode>) returns (g: Graph<nat>)
    ensures fresh(g) && g.Valid() && Pictures(g.nodes, nodes, |nodes|)
  {
    g := new Graph();
    for k := 0 to |nodes|
      invariant fresh(g) && g.Valid() && Pictures(g.nodes, nodes, k)
    {
      AddReferences(g, nodes, k, Targets(nodes[k]));
      PartDone(g.nodes, nodes, k, Targets(nodes[k]));
    }
  }

  predicate AtMost(a: nat, b: nat) { a <= b }

  class McValidator {
    const ctx: Context
    const nodes: seq<RawNode>
    var errorList: seq<Finding>

    constructor (ctx: Context, nodes: seq<RawNode>)
      ensures this.ctx == ctx && this.nodes == nodes && errorList == []
    {
      this.ctx := ctx;
      this.nodes := nodes;
      errorList := [];
    }

    /** Reports the findings node by node, and a cycle of references if there is one. */
    method ValidateExpressionNodes() returns (ghost adj: Adjacency<nat>, ghost cycles: seq<Finding>)
      modifies this
      ensures Closed(adj) && Pictures(adj, nodes, |nodes|)
      ensures errorList == old(errorList) + Findings(ctx, nodes, |nodes|) + cycles
      ensures if Acyclic(adj) then cycles == []
              else |cycles| == 1 && cycles[0].CyclicReference? && IsCycle(adj, cycles[0].cycle)
    {
      for k := 0 to |nodes|
        invariant errorList == old(errorList) + Findings(ctx, nodes, k)
      {
        ValidateNode(k);
        Assoc(old(errorList), Findings(ctx, nodes, k), NodeFindings(ctx, k, nodes[k], |nodes|));
      }
      adj, cycles := ValidateCycles();
    }

    method ValidateCycles() returns (ghost adj: Adjacency<nat>, ghost cycles: seq<Finding>)
      modifies this
      ensures Closed(adj) && Pictures(adj, nodes, |nodes|) && errorList == old(errorList) + cycles
      ensures if Acyclic(adj) then cycles == []
              else |cycles| == 1 && cycles[0].CyclicReference? && IsCycle(adj, cycles[0].cycle)
    {
      var g := NewGraphForExpressionNodeCyclesChecks(nodes);
      adj, cycles := g.nodes, [];
      var r := g.StableTopologicalOrder(AtMost);
      if r.Err? {
        cycles := [CyclicReference(r.error)];
        errorList := errorList + [CyclicReference(r.error)];
      }
    }

    method ValidateNode(k: nat)
      requires k < |nodes|
      modifies this
      ensures errorList == old(errorList) + NodeFindings(ctx, k, nodes[k], |nodes|)
    {
      errorList := errorList + ChildFindings(k, nodes[k], |nodes|);
      match nodes[k] {
        case RawField(source, expr, _) =>
          errorList := errorList + FieldFindings(ctx, k, source, expr, |nodes|);
        case RawBuilder(ty, assigns) =>
          ValidateAssignments(k, assigns);
          errorList := errorList + TypeFindings(ctx, ty);
        case _ =>
      }
    }

    /** The assignments of builder `k`; `seenFields` remembers their names. */
    method ValidateAssignments(k: nat, assigns: seq<RawAssign>)
      modifies this
      ensures errorList == old(errorList) + AssignsFindings(k, assigns, |assigns|, |nodes|)
    {
      var seenFields: set<string> := {};
      for j := 0 to |assigns|
        invariant errorList == old(errorList) + AssignsFindings(k, assigns, j, |nodes|)
        invariant forall name :: name in seenFields <==> name != "" && NamedBefore(assigns, j, name)
      {
        var a := assigns[j];
        if a.name == "" {
          errorList := errorList + [FieldNameUnset(k)];
        } else if a.name in seenFields {
          errorList := errorList + [FieldNameRepeated(k, a.name)];
        } else {
          seenFields := seenFields + {a.name};
        }
        if a.index.None? {
          errorList := errorList + [AssignmentUnset(k, a.name)];
        } else if a.index.value >= |nodes| {
          errorList := errorList + [DanglingAssignment(k, a.name, a.index.value)];
        }
      }
    }
  }
}
