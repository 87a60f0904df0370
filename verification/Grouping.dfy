/** What a text means, told by the signs written in it. Nothing here mentions the compiler's table
    of levels or its tables of operators, names and clocks: the classes of operators are written
    out, and so is the node each sign stands for. */
module Grouping {
  import opened Wrappers
  import opened Operators
  import opened Trees
  import opened Shunting
  import opened Tokenizer
  import opened Grammar
  import opened ScanProof
  import opened Reference
  import opened ReferenceProof

  // ------------------------------------------------------------------------
  // Which operators an expression leaves open, and which may stay open beside another

  /** The classes of operators, loosest first. */
  function Rank(op: Operator): nat {
    match op
    case Or => 1
    case And => 2
    case Xor => 3
    case Eq | NotEq => 4
    case Gt | GtEq | Lt | LtEq => 5
    case Add | Subtract | UnaryMinus => 6
    case Multiply | Divide | Modulo => 7
    case Not => 8
    case Power | Subscript => 9
    case _ => 0
  }

  /** The operators of `e` whose left operand reaches to the left end of `e`. */
  function OpenLeft(e: Expr): set<Operator> {
    match e
    case Infix(op, l, _) => {op} + OpenLeft(l)
    case Raise(l, _) => OpenLeft(l)
    case Index(b, _) => {Subscript} + OpenLeft(b)
    case Access(b, _) => {Subscript} + OpenLeft(b)
    case _ => {}
  }

  /** The operators of `e` whose last operand reaches to the right end of `e`. A subscript at the
      end counts as one of them. */
  function OpenRight(e: Expr): set<Operator> {
    match e
    case Infix(op, _, r) => {op} + OpenRight(r)
    case Raise(_, r) => {Subscript} + OpenRight(r)
    case Prefix(op, a) => {op} + OpenRight(a)
    case Index(_, _) => {Subscript}
    case _ => {}
  }

  /** Nothing looser than a power. */
  predicate OnlyPower(ops: set<Operator>) { forall o <- ops :: Rank(o) >= 9 }

  /** Every operator left open where `e` meets another operator is tighter than that operator, or
      of its class on the side to which the class groups. */
  predicate Grouped(toRight: bool, e: Expr) {
    match e
    case Infix(op, l, r) =>
      && Grouped(toRight, l) && Grouped(toRight, r)
      && (forall o <- OpenRight(l) :: Rank(o) > Rank(op) || (Rank(o) == Rank(op) && !(toRight && op.Power?)))
      && (forall o <- OpenLeft(r) :: Rank(o) > Rank(op) || (toRight && op.Power? && o.Power?))
    case Raise(l, r) => Grouped(toRight, l) && Grouped(toRight, r) && forall o <- OpenLeft(r) :: o.Power?
    case Prefix(op, a) => Grouped(toRight, a) && forall o <- OpenLeft(a) :: Rank(o) > Rank(op)
    case Index(b, i) => Grouped(toRight, b) && Grouped(toRight, i) && OnlyPower(OpenRight(b))
    case Access(b, _) => Grouped(toRight, b) && OnlyPower(OpenRight(b))
    case Call1(_, a) => Grouped(toRight, a)
    case Call2(_, a, b) => Grouped(toRight, a) && Grouped(toRight, b)
    case Group(x) => Grouped(toRight, x)
    case Build(_, fields, _) => forall i | 0 <= i < |fields| :: Grouped(toRight, fields[i].value)
    case _ => true
  }

  /** All that well-formedness asks for besides the grouping. */
  predicate Placed(toRight: bool, e: Expr, guarded: bool) {
    match e
    case Name(s) => PathOk(s)
    case Now(clock) => ClockNamed(clock).Some?
    case Build(ty, fields, comma) =>
      && (ty.Some? ==> ty.value != "")
      && (comma ==> fields != [])
      && (forall i, j | 0 <= i < j < |fields| :: fields[i].name != fields[j].name)
      && (forall i | 0 <= i < |fields| :: '.' !in fields[i].name)
      && (forall i | 0 <= i < |fields| :: Placed(toRight, fields[i].value, false))
    case Prefix(op, a) => Placed(toRight, a, true) && (op.UnaryMinus? ==> !StartsWithNumber(a))
    case Infix(_, l, r) => Placed(toRight, l, guarded) && Placed(toRight, r, false)
    case Raise(l, r) => toRight && Placed(toRight, l, guarded) && Placed(toRight, r, false)
    case Index(b, i) => Placed(toRight, b, guarded) && Placed(toRight, i, false)
    case Access(b, path) => Placed(toRight, b, guarded) && PostfixPathOk(path) && !EndsInBuilder(b)
    case Call1(_, a) => Placed(toRight, a, false)
    case Call2(_, a, b) => Placed(toRight, a, false) && Placed(toRight, b, false)
    case Group(x) => Placed(toRight, x, false) && (guarded || x.Prefix? || x.Infix? || x.Raise? || x.Index? || x.Build?)
    case _ => true
  }

  predicate Joins(op: Operator) { IsInfix(op) || IsPrefix(op) || op.Subscript? }

  lemma {:induction false} LeftEnd(cfg: Config, e: Expr, k: nat)
    requires Operands(e) && k < TIGHTEST
    ensures LeftBinding(cfg, e) > k <==> forall o <- OpenLeft(e) :: Target(cfg, o) > k
    ensures forall o <- OpenLeft(e) :: IsInfix(o) || o.Subscript?
  {
    assert Target(cfg, Subscript) == Precedence(Subscript);
    match e
    case Infix(op, l, _) =>
      LeftEnd(cfg, l, k);
      assert op in OpenLeft(e);
    case Raise(l, _) => LeftEnd(cfg, l, k);
    case Index(b, _) =>
      LeftEnd(cfg, b, k);
      assert Subscript in OpenLeft(e);
    case Access(b, _) =>
      LeftEnd(cfg, b, k);
      assert Subscript in OpenLeft(e);
    case _ =>
  }

  lemma {:induction false} RightEnd(e: Expr, k: nat)
    requires Operands(e) && k < TIGHTEST
    ensures RightBinding(e) >= k <==> forall o <- OpenRight(e) :: Precedence(o) >= k
    ensures forall o <- OpenRight(e) :: Joins(o)
  {
    match e
    case Infix(_, _, r) => RightEnd(r, k);
    case Raise(_, r) => RightEnd(r, k);
    case Prefix(_, a) => RightEnd(a, k);
    case _ =>
  }

  /** The level of a class. */
  function LevelOf(rank: nat): nat {
    if rank <= 2 then 3 + rank else if rank == 3 then 7 else if rank <= 5 then 5 + rank else 6 + rank
  }

  lemma LevelOfClass(op: Operator)
    requires Joins(op)
    ensures Precedence(op) == LevelOf(Rank(op)) && 1 <= Rank(op) <= 9
  {
  }

  lemma RankIsLevel(a: Operator, b: Operator)
    requires Joins(a) && Joins(b)
    ensures Rank(a) < Rank(b) <==> Precedence(a) < Precedence(b)
    ensures 0 < Precedence(a) < TIGHTEST - 1
  {
    LevelOfClass(a);
    LevelOfClass(b);
  }

  lemma {:induction false} LeftPair(cfg: Config, o: Operator, op: Operator)
    requires Joins(o) && IsInfix(op)
    ensures Precedence(o) >= Target(cfg, op)
       <==> Rank(o) > Rank(op) || (Rank(o) == Rank(op) && !(cfg.rightAssociativePower && op.Power?))
  {
    RankIsLevel(o, op);
    RankIsLevel(op, o);
    LevelOfClass(o);
  }

  lemma {:induction false} RightPair(cfg: Config, op: Operator, o: Operator)
    requires Joins(op) && (IsInfix(o) || o.Subscript?)
    ensures Target(cfg, o) > Precedence(op)
       <==> Rank(o) > Rank(op) || (cfg.rightAssociativePower && o.Power? && Rank(op) == 9)
  {
    RankIsLevel(op, o);
    LevelOfClass(op);
  }

  /** The operators open on the left of an infix operator are as the classes say. */
  lemma {:induction false} LeftSide(cfg: Config, op: Operator, l: Expr)
    requires IsInfix(op) && Operands(l)
    ensures RightBinding(l) >= Target(cfg, op) <==> forall o <- OpenRight(l) ::
              Rank(o) > Rank(op) || (Rank(o) == Rank(op) && !(cfg.rightAssociativePower && op.Power?))
  {
    LevelOfClass(op);
    RightEnd(l, Target(cfg, op));
    forall o | o in OpenRight(l)
      ensures Precedence(o) >= Target(cfg, op)
         <==> Rank(o) > Rank(op) || (Rank(o) == Rank(op) && !(cfg.rightAssociativePower && op.Power?)) {
      LeftPair(cfg, o, op);
    }
  }

  lemma {:induction false} RightSide(cfg: Config, op: Operator, r: Expr)
    requires (IsInfix(op) || IsPrefix(op)) && Operands(r)
    ensures LeftBinding(cfg, r) > Precedence(op) <==> forall o <- OpenLeft(r) ::
              Rank(o) > Rank(op) || (cfg.rightAssociativePower && op.Power? && o.Power?)
  {
    LevelOfClass(op);
    LeftEnd(cfg, r, Precedence(op));
    forall o | o in OpenLeft(r)
      ensures Target(cfg, o) > Precedence(op)
         <==> Rank(o) > Rank(op) || (cfg.rightAssociativePower && op.Power? && o.Power?) {
      RightPair(cfg, op, o);
    }
  }

  lemma {:induction false} BaseSide(b: Expr)
    requires Operands(b)
    ensures RightBinding(b) >= Precedence(Subscript) <==> OnlyPower(OpenRight(b))
  {
    RightEnd(b, Precedence(Subscript));
    forall o | o in OpenRight(b) ensures Precedence(o) >= Precedence(Subscript) <==> Rank(o) >= 9 {
      RankIsLevel(o, Subscript);
    }
  }

  /** The levels agree with the classes on `e`. */
  predicate Agrees(cfg: Config, e: Expr, guarded: bool)
    requires Operands(e)
  {
    WellFormed(cfg, e, guarded) == (Placed(cfg.rightAssociativePower, e, guarded)
        && Grouped(cfg.rightAssociativePower, e))
  }

  lemma {:induction false} InfixAgrees(cfg: Config, e: Expr, guarded: bool)
    requires Operands(e) && (e.Infix? || e.Raise?) && Agrees(cfg, e.left, guarded) && Agrees(cfg, e.right, false)
    ensures Agrees(cfg, e, guarded)
  {
    if e.Infix? {
      LeftSide(cfg, e.op, e.left);
      RightSide(cfg, e.op, e.right);
    } else if cfg.rightAssociativePower {
      RightSide(cfg, Power, e.right);
      AboveExponent(e.right);
    }
  }

  lemma AboveExponent(e: Expr)
    requires Operands(e)
    ensures forall o <- OpenLeft(e) :: Rank(o) <= Rank(Power)
  {
  }

  lemma {:induction false} PostfixAgrees(cfg: Config, e: Expr, guarded: bool)
    requires Operands(e) && (e.Index? || e.Access?) && Agrees(cfg, e.base, guarded)
    requires e.Index? ==> Agrees(cfg, e.index, false)
    ensures Agrees(cfg, e, guarded)
  {
    BaseSide(e.base);
  }

  lemma {:induction false} PrefixAgrees(cfg: Config, e: Expr, guarded: bool)
    requires Operands(e) && e.Prefix? && Agrees(cfg, e.arg, true)
    ensures Agrees(cfg, e, guarded)
  {
    RightSide(cfg, e.op, e.arg);
  }

  lemma {:induction false} AllAgree(cfg: Config, e: Expr, guarded: bool)
    requires Operands(e)
    ensures Agrees(cfg, e, guarded)
    decreases e, 1
  {
    match e
    case Infix(_, l, r) =>
      AllAgree(cfg, l, guarded);
      AllAgree(cfg, r, false);
      InfixAgrees(cfg, e, guarded);
    case Raise(l, r) =>
      AllAgree(cfg, l, guarded);
      AllAgree(cfg, r, false);
      InfixAgrees(cfg, e, guarded);
    case Prefix(_, a) =>
      AllAgree(cfg, a, true);
      PrefixAgrees(cfg, e, guarded);
    case Index(b, i) =>
      AllAgree(cfg, b, guarded);
      AllAgree(cfg, i, false);
      PostfixAgrees(cfg, e, guarded);
    case Access(b, _) =>
      AllAgree(cfg, b, guarded);
      PostfixAgrees(cfg, e, guarded);
    case _ => ClosedAgrees(cfg, e, guarded);
  }

  lemma {:induction false} ClosedAgrees(cfg: Config, e: Expr, guarded: bool)
    requires Operands(e) && !e.Infix? && !e.Raise? && !e.Prefix? && !e.Index? && !e.Access?
    ensures Agrees(cfg, e, guarded)
    decreases e, 0
  {
    match e
    case Call1(_, a) => AllAgree(cfg, a, false);
    case Call2(_, a, b) =>
      AllAgree(cfg, a, false);
      AllAgree(cfg, b, false);
    case Group(x) => AllAgree(cfg, x, false);
    case Build(_, fields, _) =>
      forall i | 0 <= i < |fields| ensures Agrees(cfg, fields[i].value, false) {
        AllAgree(cfg, fields[i].value, false);
      }
    case _ =>
  }

  /** The parser's levels group operators just as the classes say. */
  lemma {:induction false} GroupedJustWhen(cfg: Config, e: Expr, guarded: bool)
    requires Operands(e)
    ensures WellFormed(cfg, e, guarded)
       <==> (Placed(cfg.rightAssociativePower, e, guarded) && Grouped(cfg.rightAssociativePower, e))
  {
    AllAgree(cfg, e, guarded);
  }

  /** Whatever the reference parser reads is grouped by the classes. */
  lemma {:induction false} ReadsGrouped(cfg: Config, ls: seq<Lexeme>)
    requires Parse(cfg, ls).Some?
    ensures Grouped(cfg.rightAssociativePower, Parse(cfg, ls).value)
  {
    AgreesWithReference(cfg, ls);
    GroupedJustWhen(cfg, Parse(cfg, ls).value, false);
  }
}
