/** Which findings the validator reports: for every kind of finding, the fault it stands for. */
module Faults {
  import opened Wrappers
  import opened Operators
  import opened Trees
  import opened Configuration
  import opened Validation

  /** The operators that take one operand. */
  predicate TakesOne(op: NodeOperator) {
    || op == Arithmetic(ABSOLUTE) || op == Arithmetic(UNARY_MINUS) || op == OnList(LENGTH) || op == Logical(NOT)
    || op.Rounding?
  }

  predicate CombinationFaulty(i: nat, op: NodeOperator, left: Option<nat>, right: Option<nat>, n: nat, f: Finding) {
    match f
    case LeftUnset(at) => at == i && left.None?
    case RightUnset(at) => at == i && !TakesOne(op) && right.None?
    case UnaryWithRight(at) => at == i && TakesOne(op) && right.Some?
    case DanglingOperand(x) => x >= n && (left == Some(x) || (!TakesOne(op) && right == Some(x)))
    case _ => false
  }

  predicate FieldFaulty(ctx: Context, i: nat, source: string, expr: Option<nat>, n: nat, f: Finding) {
    match f
    case DanglingField(x) => x >= n && source == "" && expr == Some(x)
    case BothSourceAndExpression(at) => at == i && source != "" && expr.Some?
    case NeitherSourceNorExpression(at) => at == i && source == "" && expr.None?
    case UnknownSource(at, s) => at == i && source == s != "" && expr.None? && s !in ctx.sources
    case _ => false
  }

  predicate BuilderFaulty(ctx: Context, i: nat, ty: string, assigns: seq<RawAssign>, n: nat, f: Finding) {
    match f
    case FieldNameUnset(at) => at == i && exists k | 0 <= k < |assigns| :: assigns[k].name == ""
    case FieldNameRepeated(at, name) =>
      at == i && name != "" && exists j, k | 0 <= j < k < |assigns| :: assigns[j].name == name == assigns[k].name
    case AssignmentUnset(at, name) => at == i && RawAssign(name, None) in assigns
    case DanglingAssignment(at, name, x) => at == i && x >= n && RawAssign(name, Some(x)) in assigns
    case NoTypeResolver(t) => ty == t != "" && ctx.types.None?
    case UnknownMessageType(t) => ty == t != "" && ctx.types.Some? && t !in ctx.types.value
    case _ => false
  }

  /** Node `i` of a configuration of `n` nodes has the fault that `f` names. */
  predicate Faulty(ctx: Context, i: nat, node: RawNode, n: nat, f: Finding) {
    match node
    case RawField(source, expr, _) => FieldFaulty(ctx, i, source, expr, n, f)
    case RawCombination(op, left, right) => CombinationFaulty(i, op, left, right, n, f)
    case RawBuilder(ty, assigns) => BuilderFaulty(ctx, i, ty, assigns, n, f)
    case _ => false
  }

  /** The fault that `f` names in the `k`th assignment of a builder. */
  predicate AssignFaulty(i: nat, assigns: seq<RawAssign>, k: nat, n: nat, f: Finding)
    requires k < |assigns|
  {
    match f
    case FieldNameUnset(at) => at == i && assigns[k].name == ""
    case FieldNameRepeated(at, name) =>
      at == i && assigns[k].name == name != "" && exists j | 0 <= j < k :: assigns[j].name == name
    case AssignmentUnset(at, name) => at == i && assigns[k] == RawAssign(name, None)
    case DanglingAssignment(at, name, x) => at == i && x >= n && assigns[k] == RawAssign(name, Some(x))
    case _ => false
  }

  lemma {:induction false} AssignFound(i: nat, assigns: seq<RawAssign>, k: nat, n: nat, f: Finding)
    requires k < |assigns|
    ensures f in AssignFindings(i, assigns, k, n) <==> AssignFaulty(i, assigns, k, n, f)
  {
  }

  lemma {:induction false} AssignsFound(i: nat, assigns: seq<RawAssign>, k: nat, n: nat, f: Finding)
    requires k <= |assigns|
    ensures f in AssignsFindings(i, assigns, k, n) <==> exists j | 0 <= j < k :: AssignFaulty(i, assigns, j, n, f)
  {
    if k > 0 {
      AssignsFound(i, assigns, k - 1, n, f);
      AssignFound(i, assigns, k - 1, n, f);
    }
  }

  lemma {:induction false} BuilderFound(ctx: Context, i: nat, ty: string, assigns: seq<RawAssign>, n: nat, f: Finding)
    ensures (f in AssignsFindings(i, assigns, |assigns|, n) + TypeFindings(ctx, ty))
         == BuilderFaulty(ctx, i, ty, assigns, n, f)
  {
    AssignsFound(i, assigns, |assigns|, n, f);
    if BuilderFaulty(ctx, i, ty, assigns, n, f) && f.FieldNameRepeated? {
      var j, k :| 0 <= j < k < |assigns| && assigns[j].name == f.name == assigns[k].name;
      assert AssignFaulty(i, assigns, k, n, f);
    } else if BuilderFaulty(ctx, i, ty, assigns, n, f) && !f.NoTypeResolver? && !f.UnknownMessageType? {
      var k :| 0 <= k < |assigns| && match f
        case FieldNameUnset(_) => assigns[k].name == ""
        case AssignmentUnset(_, name) => assigns[k] == RawAssign(name, None)
        case DanglingAssignment(_, name, x) => assigns[k] == RawAssign(name, Some(x))
        case _ => false;
      assert AssignFaulty(i, assigns, k, n, f);
    }
  }

  lemma {:induction false} FieldFound(ctx: Context, i: nat, source: string, expr: Option<nat>, n: nat, f: Finding)
    ensures (f in FieldFindings(ctx, i, source, expr, n)) == FieldFaulty(ctx, i, source, expr, n, f)
  {
  }

  lemma {:induction false} CombinationFound(i: nat, op: NodeOperator, left: Option<nat>, right: Option<nat>, n: nat,
                                            f: Finding)
    ensures (f in ChildFindings(i, RawCombination(op, left, right), n)) == CombinationFaulty(i, op, left, right, n, f)
  {
  }

  lemma {:induction false} NodeFound(ctx: Context, i: nat, node: RawNode, n: nat, f: Finding)
    ensures (f in NodeFindings(ctx, i, node, n)) == Faulty(ctx, i, node, n, f)
  {
    match node
    case RawField(source, expr, _) => FieldFound(ctx, i, source, expr, n, f);
    case RawCombination(op, left, right) => CombinationFound(i, op, left, right, n, f);
    case RawBuilder(ty, assigns) => BuilderFound(ctx, i, ty, assigns, n, f);
    case _ =>
  }

  lemma {:induction false} InBoth(f: Finding, a: seq<Finding>, b: seq<Finding>)
    ensures (f in a + b) == (f in a || f in b)
  {
  }

  lemma {:induction false} OneMoreFound(ctx: Context, nodes: seq<RawNode>, k: nat, f: Finding)
    requires k < |nodes|
    ensures (f in Findings(ctx, nodes, k + 1))
         == (f in Findings(ctx, nodes, k) || Faulty(ctx, k, nodes[k], |nodes|, f))
  {
    NodeFound(ctx, k, nodes[k], |nodes|, f);
    InBoth(f, Findings(ctx, nodes, k), NodeFindings(ctx, k, nodes[k], |nodes|));
  }

  lemma {:induction false} Accumulates(total: nat -> bool, part: nat -> bool, k: nat)
    requires !total(0) && forall i: nat | i < k :: total(i + 1) == (total(i) || part(i))
    ensures total(k) == exists i: nat | i < k :: part(i)
  {
    if k > 0 {
      Accumulates(total, part, k - 1);
      assert total(k - 1 + 1) == (total(k - 1) || part(k - 1));
    }
  }

  function Found(ctx: Context, nodes: seq<RawNode>, f: Finding): nat -> bool {
    (k: nat) => k <= |nodes| && f in Findings(ctx, nodes, k)
  }

  function FaultyAt(ctx: Context, nodes: seq<RawNode>, f: Finding): nat -> bool {
    (k: nat) => k < |nodes| && Faulty(ctx, k, nodes[k], |nodes|, f)
  }

  lemma {:induction false} FoundStep(ctx: Context, nodes: seq<RawNode>, f: Finding, k: nat)
    requires k < |nodes|
    ensures Found(ctx, nodes, f)(k + 1) == (Found(ctx, nodes, f)(k) || FaultyAt(ctx, nodes, f)(k))
  {
    OneMoreFound(ctx, nodes, k, f);
  }

  lemma {:induction false} FoundAll(ctx: Context, nodes: seq<RawNode>, f: Finding, total: nat -> bool,
                                    part: nat -> bool)
    requires total == Found(ctx, nodes, f) && part == FaultyAt(ctx, nodes, f)
    ensures total(|nodes|) == exists k: nat | k < |nodes| :: part(k)
  {
    forall k: nat | k < |nodes| ensures total(k + 1) == (total(k) || part(k)) {
      FoundStep(ctx, nodes, f, k);
    }
    assert !total(0);
    Accumulates(total, part, |nodes|);
  }

  /** Just the faults of the nodes are reported, each as what it is. */
  lemma {:induction false} FoundJustWhen(ctx: Context, nodes: seq<RawNode>, f: Finding)
    ensures f in Findings(ctx, nodes, |nodes|) <==> exists i | 0 <= i < |nodes| :: Faulty(ctx, i, nodes[i], |nodes|, f)
  {
    var total, part := Found(ctx, nodes, f), FaultyAt(ctx, nodes, f);
    FoundAll(ctx, nodes, f, total, part);
    assert total(|nodes|) == (f in Findings(ctx, nodes, |nodes|));
    assert forall k: nat | k < |nodes| :: part(k) == Faulty(ctx, k, nodes[k], |nodes|, f);
  }
}
