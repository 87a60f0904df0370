/** The usual reading of a power: a subscript or a postfix field belongs to the operand it stands
    on, and the power applies to whole operands. The compiler gives subscript and field access the
    level of power, so `2 ** a[0]` is compiled as `(2 ** a)[0]`. This module says exactly when the
    compiler's tree is that of the usual reading. */
module UsualReading {
  import opened Wrappers
  import opened Operators
  import opened Trees
  import opened Shunting
  import opened Tokenizer
  import opened Grammar
  import opened Reference
  import opened ReferenceProof
  import opened PlainReading

  predicate IsPower(e: Expr) { e.Infix? && e.op.Power? }

  /** `b[i]`, the subscript on the last operand of `b`. */
  function AttachIndex(b: Expr, i: Expr): Expr {
    if IsPower(b) then Infix(Power, b.left, AttachIndex(b.right, i)) else Index(b, i)
  }

  function AttachAccess(b: Expr, path: string): Expr {
    if IsPower(b) then Infix(Power, b.left, AttachAccess(b.right, path)) else Access(b, path)
  }

  /** `l ** r`, grouped to the right on demand. */
  function AttachPower(toRight: bool, l: Expr, r: Expr): Expr {
    if toRight && IsPower(l) then Infix(Power, l.left, AttachPower(toRight, l.right, r)) else Infix(Power, l, r)
  }

  function Usual(toRight: bool, e: Expr): Expr {
    match e
    case Raise(l, r) => AttachPower(toRight, Usual(toRight, l), Usual(toRight, r))
    case Infix(op, l, r) =>
      if op.Power? then AttachPower(toRight, Usual(toRight, l), Usual(toRight, r))
      else Infix(op, Usual(toRight, l), Usual(toRight, r))
    case Prefix(op, a) => Prefix(op, Usual(toRight, a))
    case Index(b, i) => AttachIndex(Usual(toRight, b), Usual(toRight, i))
    case Access(b, path) => AttachAccess(Usual(toRight, b), path)
    case Call1(fn, a) => Call1(fn, Usual(toRight, a))
    case Call2(fn, a, b) => Call2(fn, Usual(toRight, a), Usual(toRight, b))
    case Group(x) => Group(Usual(toRight, x))
    case Build(ty, fields, comma) =>
      Build(ty, seq(|fields|, i requires 0 <= i < |fields| => FieldInit(fields[i].name,
          Usual(toRight, fields[i].value))), comma)
    case _ => e
  }

  // ------------------------------------------------------------------------
  // It is a reading of the same text

  lemma {:induction false} AttachIndexPrints(b: Expr, i: Expr)
    requires Operands(b) && Operands(i)
    ensures Operands(AttachIndex(b, i)) && Print(AttachIndex(b, i)) == Print(b) + ([LBracket] + Print(i) + [RBracket])
  {
    if IsPower(b) {
      AttachIndexPrints(b.right, i);
      JoinLast(Print(b.left), [StarStar], Print(b.right), [LBracket] + Print(i) + [RBracket]);
    }
  }

  lemma {:induction false} AttachAccessPrints(b: Expr, path: string)
    requires Operands(b)
    ensures Operands(AttachAccess(b, path)) && Print(AttachAccess(b, path)) == Print(b) + [Identifier(path)]
  {
    if IsPower(b) {
      AttachAccessPrints(b.right, path);
      JoinLast(Print(b.left), [StarStar], Print(b.right), [Identifier(path)]);
    }
  }

  lemma {:induction false} AttachPowerPrints(toRight: bool, l: Expr, r: Expr)
    requires Operands(l) && Operands(r)
    ensures Operands(AttachPower(toRight, l, r))
            && Print(AttachPower(toRight, l, r)) == Print(l) + ([StarStar] + Print(r))
  {
    if toRight && IsPower(l) {
      AttachPowerPrints(toRight, l.right, r);
      JoinLast(Print(l.left), [StarStar], Print(l.right), [StarStar] + Print(r));
    }
  }

  lemma JoinLast<T>(a: seq<T>, x: seq<T>, b: seq<T>, c: seq<T>)
    ensures a + (x + (b + c)) == a + (x + b) + c
  {
  }

  /** The usual reading is a reading of the very same text. */
  lemma {:induction false} UsualPrints(toRight: bool, e: Expr)
    requires Operands(e)
    ensures Operands(Usual(toRight, e)) && Print(Usual(toRight, e)) == Print(e)
    decreases e, 1
  {
    match e
    case Raise(_, _) => OperatorPrints(toRight, e);
    case Infix(_, _, _) => OperatorPrints(toRight, e);
    case Prefix(_, a) => UsualPrints(toRight, a);
    case Index(_, _) => PostfixPrints(toRight, e);
    case Access(_, _) => PostfixPrints(toRight, e);
    case Call1(_, a) => UsualPrints(toRight, a);
    case Call2(_, a, b) =>
      UsualPrints(toRight, a);
      UsualPrints(toRight, b);
    case Group(x) => UsualPrints(toRight, x);
    case Build(_, fields, _) =>
      var usual := Usual(toRight, e).fields;
      forall i | 0 <= i < |fields| ensures Operands(usual[i].value) && Print(usual[i].value) == Print(fields[i].value) {
        UsualPrints(toRight, fields[i].value);
      }
      SameFieldsPrint(fields, usual, 0);
    case _ =>
  }

  lemma {:induction false} OperatorPrints(toRight: bool, e: Expr)
    requires Operands(e) && (e.Raise? || e.Infix?)
    ensures Operands(Usual(toRight, e)) && Print(Usual(toRight, e)) == Print(e)
    decreases e, 0
  {
    UsualPrints(toRight, e.left);
    UsualPrints(toRight, e.right);
    var l, r := Usual(toRight, e.left), Usual(toRight, e.right);
    PrintsOperator(e);
    if e.Raise? || e.op.Power? {
      AttachPowerPrints(toRight, l, r);
    } else {
      PrintsOperator(Infix(e.op, l, r));
    }
  }

  lemma {:induction false} PrintsOperator(e: Expr)
    requires Operands(e) && (e.Raise? || e.Infix?)
    ensures Print(e) == Print(e.left) + ([if e.Raise? then StarStar else InfixLexeme(e.op)] + Print(e.right))
  {
  }

  lemma {:induction false} PostfixPrints(toRight: bool, e: Expr)
    requires Operands(e) && (e.Index? || e.Access?)
    ensures Operands(Usual(toRight, e)) && Print(Usual(toRight, e)) == Print(e)
    decreases e, 0
  {
    UsualPrints(toRight, e.base);
    if e.Index? {
      UsualPrints(toRight, e.index);
      AttachIndexPrints(Usual(toRight, e.base), Usual(toRight, e.index));
    } else {
      AttachAccessPrints(Usual(toRight, e.base), e.path);
    }
  }

  lemma {:induction false} SameFieldsPrint(fields: seq<FieldInit>, usual: seq<FieldInit>, from: nat)
    requires from <= |fields| == |usual|
    requires forall i | 0 <= i < |fields| :: Operands(fields[i].value) && Operands(usual[i].value)
    requires forall i | 0 <= i < |fields| ::
             usual[i].name == fields[i].name && Print(usual[i].value) == Print(fields[i].value)
    ensures PrintFields(usual, from) == PrintFields(fields, from)
    decreases |fields| - from
  {
    if from < |fields| {
      SameFieldsPrint(fields, usual, from + 1);
    }
  }

  // ------------------------------------------------------------------------
  // It is grouped in the usual way

  /** The loosest operator that can reach past the left end of `e`, a subscript or field belonging
      to the operand it stands on. */
  function LeftReach(cfg: Config, e: Expr): (k: nat)
    ensures k <= TIGHTEST
  {
    match e
    case Infix(op, l, _) => Min(Target(cfg, op), LeftReach(cfg, l))
    case _ => TIGHTEST
  }

  function RightReach(e: Expr): (k: nat)
    ensures k <= TIGHTEST
  {
    match e
    case Infix(op, _, r) => Min(Precedence(op), RightReach(r))
    case Prefix(op, a) => Min(Precedence(op), RightReach(a))
    case _ => TIGHTEST
  }

  /** Subscripts and fields stand on closed operands; every operator's operands bind more tightly
      than it does, or as tightly on the side it groups to. */
  predicate UsuallyGrouped(cfg: Config, e: Expr) {
    match e
    case Raise(_, _) => false
    case Infix(op, l, r) =>
      && UsuallyGrouped(cfg, l) && UsuallyGrouped(cfg, r)
      && RightReach(l) >= Target(cfg, op) && LeftReach(cfg, r) > Precedence(op)
    case Prefix(op, a) => UsuallyGrouped(cfg, a) && LeftReach(cfg, a) > Precedence(op)
    case Index(b, i) => UsuallyGrouped(cfg, b) && UsuallyGrouped(cfg, i) && !b.Infix? && !b.Prefix?
    case Access(b, _) => UsuallyGrouped(cfg, b) && !b.Infix? && !b.Prefix?
    case Call1(_, a) => UsuallyGrouped(cfg, a)
    case Call2(_, a, b) => UsuallyGrouped(cfg, a) && UsuallyGrouped(cfg, b)
    case Group(x) => UsuallyGrouped(cfg, x)
    case Build(_, fields, _) => forall i | 0 <= i < |fields| :: UsuallyGrouped(cfg, fields[i].value)
    case _ => true
  }

  /** Grouped in the usual way, between what can reach it from the left and from the right. */
  predicate Grouped(cfg: Config, e: Expr, left: nat, right: nat) {
    UsuallyGrouped(cfg, e) && LeftReach(cfg, e) >= left && RightReach(e) >= right
  }

  lemma {:induction false} OnOperand(cfg: Config, b: Expr)
    requires Operands(b) && UsuallyGrouped(cfg, b) && RightReach(b) >= Precedence(Power) && !IsPower(b)
    ensures !b.Infix? && !b.Prefix? && RightReach(b) == TIGHTEST
  {
  }

  lemma {:induction false} AttachIndexGrouped(cfg: Config, b: Expr, i: Expr)
    requires Operands(b) && Grouped(cfg, b, 0, Precedence(Power)) && UsuallyGrouped(cfg, i)
    ensures Grouped(cfg, AttachIndex(b, i), LeftReach(cfg, b), Precedence(Power))
  {
    if IsPower(b) {
      AttachIndexGrouped(cfg, b.right, i);
    } else {
      OnOperand(cfg, b);
    }
  }

  lemma {:induction false} AttachAccessGrouped(cfg: Config, b: Expr, path: string)
    requires Operands(b) && Grouped(cfg, b, 0, Precedence(Power))
    ensures Grouped(cfg, AttachAccess(b, path), LeftReach(cfg, b), Precedence(Power))
  {
    if IsPower(b) {
      AttachAccessGrouped(cfg, b.right, path);
    } else {
      OnOperand(cfg, b);
    }
  }

  lemma {:induction false} AttachPowerGrouped(cfg: Config, l: Expr, r: Expr)
    requires Operands(l) && Grouped(cfg, l, 0, Precedence(Power)) && Grouped(cfg, r, Precedence(Power) + 1, 0)
    ensures Grouped(cfg, AttachPower(cfg.rightAssociativePower, l, r),
                    Min(Target(cfg, Power), LeftReach(cfg, l)), Min(Precedence(Power), RightReach(r)))
  {
    if cfg.rightAssociativePower && IsPower(l) {
      AttachPowerGrouped(cfg, l.right, r);
    } else if !IsPower(l) {
      OnOperand(cfg, l);
    }
  }

  lemma {:induction false} UsualGroups(cfg: Config, e: Expr, guarded: bool)
    requires Operands(e) && WellFormed(cfg, e, guarded)
    ensures Grouped(cfg, Usual(cfg.rightAssociativePower, e), LeftBinding(cfg, e),
            Min(Precedence(Power), RightBinding(e)))
    decreases e, 1
  {
    match e
    case Raise(_, _) => OperatorGroups(cfg, e, guarded);
    case Infix(_, _, _) => OperatorGroups(cfg, e, guarded);
    case Prefix(_, a) => UsualGroups(cfg, a, true);
    case Index(_, _) => PostfixGroups(cfg, e, guarded);
    case Access(_, _) => PostfixGroups(cfg, e, guarded);
    case Call1(_, a) => UsualGroups(cfg, a, false);
    case Call2(_, a, b) =>
      UsualGroups(cfg, a, false);
      UsualGroups(cfg, b, false);
    case Group(x) => UsualGroups(cfg, x, false);
    case Build(_, fields, _) =>
      forall i | 0 <= i < |fields| ensures UsuallyGrouped(cfg, Usual(cfg.rightAssociativePower, fields[i].value)) {
        UsualGroups(cfg, fields[i].value, false);
      }
    case _ =>
  }

  lemma {:induction false} OperatorGroups(cfg: Config, e: Expr, guarded: bool)
    requires Operands(e) && WellFormed(cfg, e, guarded) && (e.Raise? || e.Infix?)
    ensures Grouped(cfg, Usual(cfg.rightAssociativePower, e), LeftBinding(cfg, e),
            Min(Precedence(Power), RightBinding(e)))
    decreases e, 0
  {
    var right := cfg.rightAssociativePower;
    var l, r := Usual(right, e.left), Usual(right, e.right);
    OperandsWellFormed(cfg, e, guarded);
    UsualGroups(cfg, e.left, guarded);
    UsualGroups(cfg, e.right, false);
    UsualPrints(right, e.left);
    if e.Raise? || e.op.Power? {
      PowerBinds(cfg, e, guarded);
      PowerGroups(cfg, e.left, e.right, l, r);
    } else {
      InfixGroups(cfg, e.op, e.left, e.right, l, r);
    }
  }

  lemma {:induction false} OperandsWellFormed(cfg: Config, e: Expr, guarded: bool)
    requires Operands(e) && WellFormed(cfg, e, guarded) && (e.Raise? || e.Infix?)
    ensures Operands(e.left) && WellFormed(cfg, e.left, guarded) && Operands(e.right) && WellFormed(cfg, e.right, false)
  {
  }

  lemma {:induction false} PowerBinds(cfg: Config, e: Expr, guarded: bool)
    requires Operands(e) && WellFormed(cfg, e, guarded) && (e.Raise? || IsPower(e))
    ensures RightBinding(e.left) >= Precedence(Power) && LeftBinding(cfg, e.right) > Precedence(Power)
    ensures LeftBinding(cfg, e) <= Min(Target(cfg, Power), LeftBinding(cfg, e.left))
    ensures Min(Precedence(Power), RightBinding(e)) <= Min(Precedence(Power), RightBinding(e.right))
  {
    if e.Raise? {
      assert e.left.Index? && LeftBinding(cfg, e.left) <= Precedence(Subscript);
    }
  }

  lemma {:induction false} PowerGroups(cfg: Config, left: Expr, right: Expr, l: Expr, r: Expr)
    requires Operands(l) && RightBinding(left) >= Precedence(Power) && LeftBinding(cfg, right) > Precedence(Power)
    requires Grouped(cfg, l, LeftBinding(cfg, left), Min(Precedence(Power), RightBinding(left)))
    requires Grouped(cfg, r, LeftBinding(cfg, right), Min(Precedence(Power), RightBinding(right)))
    ensures Grouped(cfg, AttachPower(cfg.rightAssociativePower, l, r),
                    Min(Target(cfg, Power), LeftBinding(cfg, left)), Min(Precedence(Power), RightBinding(right)))
  {
    AttachPowerGrouped(cfg, l, r);
  }

  lemma LooserThanPower(cfg: Config, op: Operator)
    requires IsInfix(op) && !op.Power?
    ensures Target(cfg, op) == Precedence(op) < Precedence(Power)
  {
  }

  lemma {:induction false} InfixGroups(cfg: Config, op: Operator, left: Expr, right: Expr, l: Expr, r: Expr)
    requires IsInfix(op) && !op.Power? && RightBinding(left) >= Target(cfg, op)
             && LeftBinding(cfg, right) > Precedence(op)
    requires Grouped(cfg, l, LeftBinding(cfg, left), Min(Precedence(Power), RightBinding(left)))
    requires Grouped(cfg, r, LeftBinding(cfg, right), Min(Precedence(Power), RightBinding(right)))
    ensures Grouped(cfg, Infix(op, l, r), Min(Target(cfg, op), LeftBinding(cfg, left)),
            Min(Precedence(op), RightBinding(right)))
  {
    LooserThanPower(cfg, op);
    JoinsGrouped(cfg, op, l, r, LeftBinding(cfg, left), RightBinding(left), LeftBinding(cfg, right),
        RightBinding(right));
  }

  lemma {:induction false} JoinsGrouped(cfg: Config, op: Operator, l: Expr, r: Expr, ll: nat, lr: nat, rl: nat, rr: nat)
    requires Target(cfg, op) == Precedence(op) < Precedence(Power) && lr >= Precedence(op) && rl > Precedence(op)
    requires Grouped(cfg, l, ll, Min(Precedence(Power), lr)) && Grouped(cfg, r, rl, Min(Precedence(Power), rr))
    ensures Grouped(cfg, Infix(op, l, r), Min(Precedence(op), ll), Min(Precedence(op), rr))
  {
  }

  lemma {:induction false} PostfixGroups(cfg: Config, e: Expr, guarded: bool)
    requires Operands(e) && WellFormed(cfg, e, guarded) && (e.Index? || e.Access?)
    ensures Grouped(cfg, Usual(cfg.rightAssociativePower, e), LeftBinding(cfg, e),
            Min(Precedence(Power), RightBinding(e)))
    decreases e, 0
  {
    var right := cfg.rightAssociativePower;
    var b := Usual(right, e.base);
    PostfixBinds(cfg, e, guarded);
    UsualGroups(cfg, e.base, guarded);
    UsualPrints(right, e.base);
    if e.Index? {
      UsualGroups(cfg, e.index, false);
      AttachIndexGrouped(cfg, b, Usual(right, e.index));
    } else {
      AttachAccessGrouped(cfg, b, e.path);
    }
  }

  lemma {:induction false} PostfixBinds(cfg: Config, e: Expr, guarded: bool)
    requires Operands(e) && WellFormed(cfg, e, guarded) && (e.Index? || e.Access?)
    ensures Operands(e.base) && WellFormed(cfg, e.base, guarded) && RightBinding(e.base) >= Precedence(Power)
    ensures e.Index? ==> Operands(e.index) && WellFormed(cfg, e.index, false)
    ensures LeftBinding(cfg, e) <= LeftBinding(cfg, e.base)
  {
  }

  // ------------------------------------------------------------------------
  // When it means the same

  /** Some subscript or field stands on a power that is not in parentheses. */
  predicate HasPowerBase(e: Expr) {
    match e
    case Raise(l, r) => HasPowerBase(l) || HasPowerBase(r)
    case Infix(_, l, r) => HasPowerBase(l) || HasPowerBase(r)
    case Prefix(_, a) => HasPowerBase(a)
    case Index(b, i) => IsPower(b) || b.Raise? || HasPowerBase(b) || HasPowerBase(i)
    case Access(b, _) => IsPower(b) || b.Raise? || HasPowerBase(b)
    case Call1(_, a) => HasPowerBase(a)
    case Call2(_, a, b) => HasPowerBase(a) || HasPowerBase(b)
    case Group(x) => HasPowerBase(x)
    case Build(_, fields, _) => exists i | 0 <= i < |fields| :: HasPowerBase(fields[i].value)
    case _ => false
  }

  function Weight(t: Tree): (w: nat)
    ensures w > 0
  {
    match t
    case PostfixField(base, _) => Weight(base) + 1
    case Unary(_, a) => Weight(a) + 1
    case Binary(_, l, r) => Weight(l) + Weight(r) + 1
    case _ => 1
  }

  lemma {:induction false} AttachIndexWeight(b: Expr, i: Expr)
    requires Operands(b) && Operands(i)
    ensures Operands(AttachIndex(b, i)) && Weight(Meaning(AttachIndex(b, i)))
            == Weight(Meaning(b)) + Weight(Meaning(i)) + 1
  {
    if IsPower(b) {
      AttachIndexWeight(b.right, i);
    }
  }

  lemma {:induction false} AttachAccessWeight(b: Expr, path: string)
    requires Operands(b)
    ensures Operands(AttachAccess(b, path)) && Weight(Meaning(AttachAccess(b, path))) == Weight(Meaning(b)) + 1
  {
    if IsPower(b) {
      AttachAccessWeight(b.right, path);
    }
  }

  lemma {:induction false} AttachPowerWeight(toRight: bool, l: Expr, r: Expr)
    requires Operands(l) && Operands(r)
    ensures Operands(AttachPower(toRight, l, r))
    ensures Weight(Meaning(AttachPower(toRight, l, r))) == Weight(Meaning(l)) + Weight(Meaning(r)) + 1
  {
    if toRight && IsPower(l) {
      AttachPowerWeight(toRight, l.right, r);
    }
  }

  lemma {:induction false} UsualWeight(toRight: bool, e: Expr)
    requires Operands(e)
    ensures Operands(Usual(toRight, e)) && Weight(Meaning(Usual(toRight, e))) == Weight(Meaning(e))
    decreases e, 1
  {
    match e
    case Raise(_, _) => OperatorWeight(toRight, e);
    case Infix(_, _, _) => OperatorWeight(toRight, e);
    case Index(_, _) => PostfixWeight(toRight, e);
    case Access(_, _) => PostfixWeight(toRight, e);
    case Call2(_, _, _) => PairWeight(toRight, e);
    case Build(_, _, _) => UsualPrints(toRight, e);
    case _ => ClosedWeight(toRight, e);
  }

  lemma {:induction false} ClosedWeight(toRight: bool, e: Expr)
    requires Operands(e) && !e.Raise? && !e.Infix? && !e.Index? && !e.Access? && !e.Call2? && !e.Build?
    ensures Operands(Usual(toRight, e)) && Weight(Meaning(Usual(toRight, e))) == Weight(Meaning(e))
    decreases e, 0
  {
    match e
    case Prefix(_, a) => UsualWeight(toRight, a);
    case Call1(_, a) => UsualWeight(toRight, a);
    case Group(x) => UsualWeight(toRight, x);
    case _ =>
  }

  lemma {:induction false} PairWeight(toRight: bool, e: Expr)
    requires Operands(e) && e.Call2?
    ensures Operands(Usual(toRight, e)) && Weight(Meaning(Usual(toRight, e))) == Weight(Meaning(e))
    decreases e, 0
  {
    var a, b := Usual(toRight, e.first), Usual(toRight, e.second);
    UsualWeight(toRight, e.first);
    UsualWeight(toRight, e.second);
    Call2Weight(e.fn, e.first, e.second);
    Call2Weight(e.fn, a, b);
  }

  lemma {:induction false} Call2Weight(fn: Operator, a: Expr, b: Expr)
    requires Operands(Call2(fn, a, b))
    ensures Weight(Meaning(Call2(fn, a, b))) == Weight(Meaning(a)) + Weight(Meaning(b)) + 1
  {
  }

  lemma {:induction false} OperatorWeight(toRight: bool, e: Expr)
    requires Operands(e) && (e.Raise? || e.Infix?)
    ensures Operands(Usual(toRight, e)) && Weight(Meaning(Usual(toRight, e))) == Weight(Meaning(e))
    decreases e, 0
  {
    var l, r := Usual(toRight, e.left), Usual(toRight, e.right);
    UsualWeight(toRight, e.left);
    UsualWeight(toRight, e.right);
    if e.Raise? {
      RaiseWeight(e.left, e.right);
      AttachPowerWeight(toRight, l, r);
    } else if e.op.Power? {
      InfixWeight(e.op, e.left, e.right);
      AttachPowerWeight(toRight, l, r);
    } else {
      InfixWeight(e.op, e.left, e.right);
      InfixWeight(e.op, l, r);
    }
  }

  lemma {:induction false} InfixWeight(op: Operator, l: Expr, r: Expr)
    requires IsInfix(op) && Operands(l) && Operands(r)
    ensures Weight(Meaning(Infix(op, l, r))) == Weight(Meaning(l)) + Weight(Meaning(r)) + 1
  {
  }

  lemma {:induction false} RaiseWeight(l: Expr, r: Expr)
    requires Operands(Raise(l, r))
    ensures Weight(Meaning(Raise(l, r))) == Weight(Meaning(l)) + Weight(Meaning(r)) + 1
  {
    var inner := Binary(Arithmetic(POWER), Meaning(l.index), Meaning(r));
    assert Meaning(Raise(l, r)) == Binary(OnList(SUBSCRIPT), Meaning(l.base), inner);
    assert Meaning(l) == Binary(OnList(SUBSCRIPT), Meaning(l.base), Meaning(l.index));
  }

  lemma {:induction false} PostfixWeight(toRight: bool, e: Expr)
    requires Operands(e) && (e.Index? || e.Access?)
    ensures Operands(Usual(toRight, e)) && Weight(Meaning(Usual(toRight, e))) == Weight(Meaning(e))
    decreases e, 0
  {
    UsualWeight(toRight, e.base);
    if e.Index? {
      UsualWeight(toRight, e.index);
      AttachIndexWeight(Usual(toRight, e.base), Usual(toRight, e.index));
    } else {
      AttachAccessWeight(Usual(toRight, e.base), e.path);
    }
  }

  /** Where the usual reading of `e` is a power. */
  predicate ReadsAsPower(e: Expr) {
    IsPower(e) || e.Raise? || ((e.Index? || e.Access?) && ReadsAsPower(e.base))
  }

  lemma {:induction false} PowerReadings(toRight: bool, e: Expr)
    ensures IsPower(Usual(toRight, e)) <==> ReadsAsPower(e)
    ensures (e.Index? || e.Access?) && ReadsAsPower(e) ==> HasPowerBase(e)
  {
    if e.Index? || e.Access? {
      PowerReadings(toRight, e.base);
    }
  }

  /** A field on a power, raised again: the left operand of the whole cannot be the same. */
  lemma {:induction false} AccessRegroups(e: Expr)
    requires Operands(e) && e.Access? && ReadsAsPower(e.base)
    ensures
      var u := Usual(true, e);
      IsPower(u) && Operands(u) && Meaning(u.left) != Meaning(e)
  {
    UsualPrints(true, e);
    UsualPrints(true, e.base);
    PowerReadings(true, e);
    PowerReadings(true, e.base);
    UsualWeight(true, e.base);
    var b := Usual(true, e.base);
    assert Weight(Meaning(b.left)) < Weight(Meaning(b));
  }

  /** `u` means the same as `e` just when `same`. */
  predicate MeansWhen(u: Expr, e: Expr, same: bool) {
    Operands(u) && Operands(e) && (Meaning(u) == Meaning(e) <==> same)
  }

  /** No power enters a subscript, and no subscript or field stands on a bare power. */
  predicate Unsurprising(e: Expr) { !HasRaise(e) && !HasPowerBase(e) }

  /** It means what the compiler computes just when no power enters a subscript, and no subscript
      or field stands on a bare power. */
  lemma {:induction false} UsualMeans(cfg: Config, e: Expr, guarded: bool)
    requires Operands(e) && WellFormed(cfg, e, guarded)
    ensures MeansWhen(Usual(cfg.rightAssociativePower, e), e, Unsurprising(e))
    decreases e, 1
  {
    match e
    case Raise(_, _) => RootsDiffer(cfg.rightAssociativePower, e);
    case Infix(_, _, _) => InfixMeans(cfg, e, guarded);
    case Index(_, _) => PostfixMeans(cfg, e, guarded);
    case Access(_, _) => PostfixMeans(cfg, e, guarded);
    case Build(_, _, _) => BuildMeans(cfg, e);
    case _ => ClosedMeans(cfg, e, guarded);
  }

  lemma {:induction false} ClosedMeans(cfg: Config, e: Expr, guarded: bool)
    requires Operands(e) && WellFormed(cfg, e, guarded) && !e.Raise? && !e.Infix? && !e.Index? && !e.Access?
             && !e.Build?
    ensures MeansWhen(Usual(cfg.rightAssociativePower, e), e, Unsurprising(e))
    decreases e, 0
  {
    match e
    case Prefix(_, a) => UsualMeans(cfg, a, true);
    case Call1(_, a) => UsualMeans(cfg, a, false);
    case Call2(_, a, b) =>
      UsualMeans(cfg, a, false);
      UsualMeans(cfg, b, false);
    case Group(x) => UsualMeans(cfg, x, false);
    case _ =>
  }

  /** The usual reading is a power, and the compiler's tree is not. */
  lemma {:induction false} RootsDiffer(toRight: bool, e: Expr)
    requires Operands(e) && (e.Raise? || ((e.Index? || e.Access?) && ReadsAsPower(e.base)))
    ensures MeansWhen(Usual(toRight, e), e, Unsurprising(e)) && !Unsurprising(e)
  {
    UsualPrints(toRight, e);
    PowerReadings(toRight, e);
    assert Meaning(Usual(toRight, e)).Binary? && Meaning(Usual(toRight, e)).op == Arithmetic(POWER);
  }

  lemma {:induction false} BuildMeans(cfg: Config, e: Expr)
    requires Operands(e) && WellFormed(cfg, e, false) && e.Build?
    ensures MeansWhen(Usual(cfg.rightAssociativePower, e), e, Unsurprising(e))
    decreases e, 0
  {
    var right := cfg.rightAssociativePower;
    UsualPrints(right, e);
    var m, u := Meaning(e).assigns, Meaning(Usual(right, e)).assigns;
    forall i | 0 <= i < |e.fields| ensures m[i] == u[i] <==> Unsurprising(e.fields[i].value) {
      UsualMeans(cfg, e.fields[i].value, false);
    }
    if m == u {
      assert forall i | 0 <= i < |e.fields| :: m[i] == u[i];
    }
  }

  lemma {:induction false} InfixMeans(cfg: Config, e: Expr, guarded: bool)
    requires Operands(e) && WellFormed(cfg, e, guarded) && e.Infix?
    ensures MeansWhen(Usual(cfg.rightAssociativePower, e), e, Unsurprising(e))
    decreases e, 0
  {
    var right := cfg.rightAssociativePower;
    var l, r := Usual(right, e.left), Usual(right, e.right);
    UsualMeans(cfg, e.left, guarded);
    UsualMeans(cfg, e.right, false);
    UsualPrints(right, e);
    if right && e.op.Power? && IsPower(l) {
      PowerReadings(right, e.left);
      AccessRegroups(e.left);
    } else {
      assert Usual(right, e) == Infix(e.op, l, r);
    }
  }

  lemma {:induction false} PostfixMeans(cfg: Config, e: Expr, guarded: bool)
    requires Operands(e) && WellFormed(cfg, e, guarded) && (e.Index? || e.Access?)
    ensures MeansWhen(Usual(cfg.rightAssociativePower, e), e, Unsurprising(e))
    decreases e, 0
  {
    var right := cfg.rightAssociativePower;
    var b := Usual(right, e.base);
    PowerReadings(right, e.base);
    if IsPower(b) {
      RootsDiffer(right, e);
    } else {
      UsualMeans(cfg, e.base, guarded);
      if e.Index? {
        UsualMeans(cfg, e.index, false);
      }
    }
  }

  /** An accepted text that compiles gets the tree of its usual reading if and only if no subscript
      or field stands on a bare power and, where power groups to the right, no closing bracket is
      directly followed by a power sign. */
  lemma {:induction false} UsualJustWhen(cfg: Config, ls: seq<Lexeme>)
    requires Parse(cfg, ls).Some? && CompileSource(cfg, ls).Ok?
    ensures
      var e := Parse(cfg, ls).value;
      var u := Usual(cfg.rightAssociativePower, e);
      && Operands(u) && Print(u) == ls && UsuallyGrouped(cfg, u)
      && (CompileSource(cfg, ls).value.tree == Meaning(u)
          <==> !HasPowerBase(e) && !(cfg.rightAssociativePower && RaisesSubscript(ls)))
  {
    AgreesWithReference(cfg, ls);
    var e := Parse(cfg, ls).value;
    UsualPrints(cfg.rightAssociativePower, e);
    UsualGroups(cfg, e, false);
    UsualMeans(cfg, e, false);
    if cfg.rightAssociativePower {
      TextShowsRaise(cfg, e, false);
    } else {
      LeftModeNeverRaises(cfg, e, false);
    }
  }
}
