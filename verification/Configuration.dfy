/** The parts of a metrics configuration that are validated and typed. Unlike the nodes the
    expression compiler builds, the nodes of a configuration may lack what they should have. */
module Configuration {
  import opened Wrappers
  import opened Operators
  import opened Trees

  datatype RawAssign = RawAssign(name: string, index: Option<nat>)

  /** An expression node as a configuration holds it; an empty source, field name or message
      type is an unset one. */
  datatype RawNode =
    | RawField(source: string, expr: Option<nat>, fields: seq<string>)
    | RawConstant(c: Const)
    | RawFunction(clock: Clock)
    | RawCombination(op: NodeOperator, left: Option<nat>, right: Option<nat>)
    | RawBuilder(messageType: string, assigns: seq<RawAssign>)
    | RawUnset

  datatype Aggregation = Avg | Count | Delta | Max | Min | NoAggregation | StdDev | Sum | Vector

  /** A field of an aggregator's or a report's message. */
  datatype FieldAssign = FieldAssign(fieldName: string, aggregation: Aggregation, index: nat)

  function ExtractNodeIndex(fa: FieldAssign): Option<nat> {
    if fa.aggregation.Count? then None else Some(fa.index)
  }

  datatype Source =
    | DataSource(name: string, identifier: string)
    | Aggregator(name: string, messageType: string, assigns: seq<FieldAssign>)
    | OtherSource(name: string)

  datatype Report = Report(name: string, messageType: string, assigns: seq<FieldAssign>)

  datatype MetricsConfig = MetricsConfig(sources: seq<Source>, nodes: seq<RawNode>, reports: seq<Report>)

  /** A compiled node, as it is emitted into the configuration. */
  function Emit(n: Node): RawNode {
    match n
    case FieldLeaf(source, expr, fields) => RawField(source, expr, fields)
    case ConstantLeaf(c) => RawConstant(c)
    case FunctionLeaf(clock) => RawFunction(clock)
    case Combination(op, left, right) => RawCombination(op, Some(left), right)
    case MessageBuilder(ty, assigns) =>
      RawBuilder(if ty.Some? then ty.value
            else "", seq(|assigns|, i requires 0 <= i < |assigns| => RawAssign(assigns[i].name,
                 Some(assigns[i].index))))
  }

  function EmitAll(nodes: seq<Node>): seq<RawNode> {
    seq(|nodes|, i requires 0 <= i < |nodes| => Emit(nodes[i]))
  }

  /** The indices a node refers to. */
  function References(n: RawNode): set<nat> {
    match n
    case RawField(_, expr, _) => if expr.Some? then {expr.value} else {}
    case RawCombination(_, left, right) =>
      (if left.Some? then {left.value} else {}) + (if right.Some? then {right.value} else {})
    case RawBuilder(_, assigns) => set i | 0 <= i < |assigns| && assigns[i].index.Some? :: assigns[i].index.value
    case _ => {}
  }

  /** The compiled node that an emitted one stands for. */
  function Absorb(r: RawNode): Node
    requires !r.RawUnset?
    requires r.RawCombination? ==> r.left.Some?
    requires r.RawBuilder? ==> forall i | 0 <= i < |r.assigns| :: r.assigns[i].index.Some?
  {
    match r
    case RawField(source, expr, fields) => FieldLeaf(source, expr, fields)
    case RawConstant(c) => ConstantLeaf(c)
    case RawFunction(clock) => FunctionLeaf(clock)
    case RawCombination(op, left, right) => Combination(op, left.value, right)
    case RawBuilder(ty, assigns) =>
      MessageBuilder(if ty == "" then None else Some(ty), seq(|assigns|, i requires 0 <= i < |assigns| =>
        NodeAssign(assigns[i].name, assigns[i].index.value)))
  }

  /** Emitting a node loses nothing. */
  lemma EmitKeepsAll(n: Node)
    requires n.MessageBuilder? ==> n.messageType != Some("")
    ensures
      var r := Emit(n);
      && !r.RawUnset? && (r.RawCombination? ==> r.left.Some?)
      && (r.RawBuilder? ==> forall i | 0 <= i < |r.assigns| :: r.assigns[i].index.Some?)
      && Absorb(r) == n
  {
    if n.MessageBuilder? {
      assert Absorb(Emit(n)).assigns == n.assigns;
    }
  }

  lemma EmitReferences(n: Node)
    ensures References(Emit(n)) == Children(n)
  {
    if n.MessageBuilder? {
      var a := Emit(n).assigns;
      assert forall i | 0 <= i < |a| :: a[i].index == Some(n.assigns[i].index);
      assert forall c | c in References(Emit(n)) :: c in Children(n);
      forall c | c in Children(n) ensures c in References(Emit(n)) {
        var i :| 0 <= i < |n.assigns| && n.assigns[i].index == c;
        assert a[i].index.Some? && a[i].index.value == c;
      }
    }
  }
}
