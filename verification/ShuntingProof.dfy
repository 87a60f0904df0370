/** The shunting-yard machine reads every well-formed expression as the grammar means it.

    After the tokens of an expression its right spine is still pending on the two stacks
    (`PendingOps`, `PendingOperands`); whatever comes next first reduces that spine to the
    expression's own operand (`SpineShrinks`). */
module ShuntingProof {
  import opened Wrappers
  import opened Operators
  import opened Trees
  import opened Shunting
  import opened ShuntingSteps
  import opened Tokenizer
  import opened Grammar

  predicate IsLink(e: Expr) {
    if e.Group? then IsLink(e.inner) else IsChainLink(e)
  }

  /** The operand an expression leaves on the stack. */
  function Value(e: Expr): Operand<Tree>
    requires Operands(e)
  {
    Operand(Meaning(e), IsLink(e), e.Group?)
  }

  function PendingOps(e: Expr): seq<Operator> {
    match e
    case Infix(op, _, r) => [op] + PendingOps(r)
    case Raise(_, r) => [Subscript, Power] + PendingOps(r)
    case Prefix(op, arg) => [op] + PendingOps(arg)
    case Index(_, _) => [Subscript]
    case _ => []
  }

  function PendingOperands(e: Expr): seq<Operand<Tree>>
    requires Operands(e)
  {
    match e
    case Infix(_, l, r) => [Value(l)] + PendingOperands(r)
    case Raise(l, r) => [Value(l.base), Value(l.index)] + PendingOperands(r)
    case Prefix(_, arg) => PendingOperands(arg)
    case Index(b, i) => [Value(b), Value(i)]
    case _ => [Value(e)]
  }

  function Pending(st: State, e: Expr): State
    requires Operands(e)
  {
    State(st.operands + PendingOperands(e), st.ops + PendingOps(e))
  }

  function Reduced(st: State, e: Expr): State
    requires Operands(e)
  {
    State(st.operands + [Value(e)], st.ops)
  }

  lemma PendingInfix(st: State, e: Expr)
    requires Operands(e) && e.Infix?
    ensures Pending(st, e) == Pending(State(st.operands + [Value(e.left)], st.ops + [e.op]), e.right)
  {
    Assoc(st.operands, [Value(e.left)], PendingOperands(e.right));
    Assoc(st.ops, [e.op], PendingOps(e.right));
  }

  lemma PendingRaise(st: State, e: Expr)
    requires Operands(e) && e.Raise?
    ensures Pending(st, e)
         == Pending(State(st.operands + [Value(e.left.base), Value(e.left.index)], st.ops + [Subscript, Power]),
             e.right)
  {
    Assoc(st.operands, [Value(e.left.base), Value(e.left.index)], PendingOperands(e.right));
    Assoc(st.ops, [Subscript, Power], PendingOps(e.right));
  }

  lemma PendingPrefix(st: State, e: Expr)
    requires Operands(e) && e.Prefix?
    ensures Pending(st, e) == Pending(State(st.operands, st.ops + [e.op]), e.arg)
  {
    Assoc(st.ops, [e.op], PendingOps(e.arg));
  }

  /** A chain met while the pending spine of `e` is reduced. */
  predicate SpineChain(e: Expr) {
    match e
    case Infix(op, l, r) => SpineChain(r) || (IsComparison(op) && (IsChainLink(l) || IsChainLink(r)))
    case Raise(_, r) => SpineChain(r)
    case Prefix(_, arg) => SpineChain(arg)
    case _ => false
  }

  /** A chain met before that, while the tokens of `e` are read. */
  predicate InnerChain(e: Expr) {
    match e
    case Infix(_, l, r) => HasOwnChain(l) || InnerChain(r)
    case Raise(l, r) => HasOwnChain(l) || InnerChain(r)
    case Prefix(_, arg) => InnerChain(arg)
    case _ => HasOwnChain(e)
  }

  predicate Rejected(cfg: Config, chain: bool) { cfg.disallowChaining && chain }

  lemma {:induction false} ChainSplit(e: Expr)
    ensures HasOwnChain(e) <==> InnerChain(e) || SpineChain(e)
  {
    match e
    case Infix(_, _, r) => ChainSplit(r);
    case Raise(_, r) => ChainSplit(r);
    case Prefix(_, arg) => ChainSplit(arg);
    case _ =>
  }

  lemma UnguardedValue(e: Expr)
    requires Operands(e)
    ensures Unguarded(Value(e)) <==> IsChainLink(e)
  {
  }

  lemma {:induction false} SpineShrinks(cfg: Config, st: State, e: Expr)
    requires Operands(e)
    ensures Shrinks(cfg, RightBinding(e), Pending(st, e), Rejected(cfg, SpineChain(e)), Reduced(st, e))
    decreases e, 1
  {
    match e
    case Infix(_, _, _) => InfixShrinks(cfg, st, e);
    case Raise(_, _) => RaiseShrinks(cfg, st, e);
    case Prefix(op, arg) =>
      var st1 := State(st.operands, st.ops + [op]);
      PendingPrefix(st, e);
      SpineShrinks(cfg, st1, arg);
      ShrinkOne(cfg, st.operands, st.ops, op, Value(arg));
      assert Reduced(st, e).operands == st.operands + [Applied(op, Meaning(arg))];
      ShrinksTrans(cfg, RightBinding(arg), Precedence(op), RightBinding(e), Pending(st, e),
                   Rejected(cfg, SpineChain(arg)), Reduced(st1, arg), false, Reduced(st, e));
    case Index(b, i) =>
      ShrinkTwo(cfg, st.operands, st.ops, Subscript, Value(b), Value(i));
      assert Reduced(st, e).operands == st.operands + [Combined(Subscript, Meaning(b), Meaning(i))];
    case _ =>
      assert Pending(st, e) == Reduced(st, e);
  }

  lemma {:induction false} InfixShrinks(cfg: Config, st: State, e: Expr)
    requires Operands(e) && e.Infix?
    ensures Shrinks(cfg, RightBinding(e), Pending(st, e), Rejected(cfg, SpineChain(e)), Reduced(st, e))
    decreases e, 0
  {
    var op, l, r := e.op, e.left, e.right;
    var st1 := State(st.operands + [Value(l)], st.ops + [op]);
    PendingInfix(st, e);
    SpineShrinks(cfg, st1, r);
    ShrinkTwo(cfg, st.operands, st.ops, op, Value(l), Value(r));
    assert Reduced(st1, r) == State(st.operands + [Value(l), Value(r)], st.ops + [op]);
    assert Reduced(st, e).operands == st.operands + [Combined(op, Meaning(l), Meaning(r))];
    ShrinksTrans(cfg, RightBinding(r), Precedence(op), RightBinding(e), Pending(st, e),
                 Rejected(cfg, SpineChain(r)), Reduced(st1, r), Chained(cfg, op, Value(l), Value(r)), Reduced(st, e));
    UnguardedValue(l);
    UnguardedValue(r);
  }

  /** A power on top of a pending subscript: first the power is built, then the subscript. */
  lemma ShrinkPower(cfg: Config, operands: seq<Operand<Tree>>, ops: seq<Operator>, x: Operand<Tree>, y: Operand<Tree>,
                    z: Operand<Tree>)
    ensures Shrinks(cfg, Precedence(Subscript), State(operands + [x, y, z], ops + [Subscript, Power]), false,
                    State(operands + [Combined(Subscript, x.value, Combined(Power, y.value, z.value).value)], ops))
  {
    var power := Combined(Power, y.value, z.value);
    ShrinkTwo(cfg, operands + [x], ops + [Subscript], Power, y, z);
    ShrinkTwo(cfg, operands, ops, Subscript, x, power);
    assert operands + [x] + [y, z] == operands + [x, y, z] && operands + [x] + [power] == operands + [x, power];
    assert ops + [Subscript] + [Power] == ops + [Subscript, Power];
    ShrinksTrans(cfg, Precedence(Power), Precedence(Subscript), Precedence(Subscript),
        State(operands + [x, y, z], ops + [Subscript, Power]),
                 false, State(operands + [x, power], ops + [Subscript]), false,
                 State(operands + [Combined(Subscript, x.value, power.value)], ops));
  }

  lemma {:induction false} RaiseShrinks(cfg: Config, st: State, e: Expr)
    requires Operands(e) && e.Raise?
    ensures Shrinks(cfg, RightBinding(e), Pending(st, e), Rejected(cfg, SpineChain(e)), Reduced(st, e))
    decreases e, 0
  {
    var r := e.right;
    var st1 := State(st.operands + [Value(e.left.base), Value(e.left.index)], st.ops + [Subscript, Power]);
    PendingRaise(st, e);
    SpineShrinks(cfg, st1, r);
    ReducedRaise(cfg, st, e);
    ShrinksTrans(cfg, RightBinding(r), Precedence(Subscript), RightBinding(e), Pending(st, e),
                 Rejected(cfg, SpineChain(r)), Reduced(st1, r), false, Reduced(st, e));
  }

  lemma {:induction false} ReducedRaise(cfg: Config, st: State, e: Expr)
    requires Operands(e) && e.Raise?
    ensures
      var st1 := State(st.operands + [Value(e.left.base), Value(e.left.index)], st.ops + [Subscript, Power]);
      Shrinks(cfg, Precedence(Subscript), Reduced(st1, e.right), false, Reduced(st, e))
  {
    var x, y, z := Value(e.left.base), Value(e.left.index), Value(e.right);
    ShrinkPower(cfg, st.operands, st.ops, x, y, z);
    assert st.operands + [x, y] + [z] == st.operands + [x, y, z];
    assert Value(e) == Combined(Subscript, x.value, Combined(Power, y.value, z.value).value);
  }

  lemma {:induction false} LastOfRight(e: Expr)
    requires Operands(e) && (e.Infix? || e.Raise?)
    ensures Last(Tokens(e)) == Last(Tokens(e.right))
  {
  }

  lemma {:induction false} LastTokenIsOperand(e: Expr)
    requires Operands(e)
    ensures IsOperandToken(Last(Tokens(e)))
    ensures !EndsInBuilder(e) ==> !(Last(Tokens(e)).Whole? && Last(Tokens(e)).node.Builder?)
  {
    if e.Infix? || e.Raise? {
      LastOfRight(e);
      LastTokenIsOperand(e.right);
    } else if e.Prefix? {
      LastTokenIsOperand(e.arg);
    }
  }

  lemma {:induction false} BindingBounds(cfg: Config, e: Expr)
    requires Operands(e)
    ensures LeftBinding(cfg, e) >= 4 && RightBinding(e) >= 4
  {
    match e
    case Infix(_, l, r) => BindingBounds(cfg, l); BindingBounds(cfg, r);
    case Raise(l, r) => BindingBounds(cfg, l); BindingBounds(cfg, r);
    case Prefix(_, arg) => BindingBounds(cfg, arg);
    case Index(b, _) => BindingBounds(cfg, b);
    case Access(b, _) => BindingBounds(cfg, b);
    case _ =>
  }

  /** The machine is about to read `e`. */
  predicate Ready(cfg: Config, e: Expr, guarded: bool, ops: seq<Operator>) {
    && Operands(e) && WellFormed(cfg, e, guarded)
    && Blocks(ops, LeftBinding(cfg, e))
    && (ops == [] || !IsFunctionLike(Last(ops)))
    && (guarded ==> ops != [] && IsUnary(Last(ops)))
  }

  lemma {:induction false} ReadyAfter(cfg: Config, r: Expr, ops: seq<Operator>, op: Operator)
    requires IsInfix(op) && Operands(r) && WellFormed(cfg, r, false) && LeftBinding(cfg, r) > Precedence(op)
    ensures Ready(cfg, r, false, ops + [op])
  {
    assert Last(ops + [op]) == op;
  }

  /** Reading `e` leaves its spine pending, whatever was on the stacks before. */
  lemma {:induction false} ReadExpr(cfg: Config, e: Expr, guarded: bool, prev: Option<Token<Tree>>, st: State)
    requires Ready(cfg, e, guarded, st.ops)
    ensures Leads(cfg, prev, Tokens(e), st, Rejected(cfg, InnerChain(e)), Pending(st, e))
    decreases e, 1
  {
    match e
    case Prefix(_, _) => ReadPrefix(cfg, e, guarded, prev, st);
    case Infix(_, _, _) => ReadInfix(cfg, e, guarded, prev, st);
    case Raise(_, _) => ReadRaise(cfg, e, guarded, prev, st);
    case Index(_, _) => ReadIndex(cfg, e, guarded, prev, st);
    case Access(_, _) => ReadAccess(cfg, e, guarded, prev, st);
    case Call1(_, _) => ReadCall1(cfg, e, guarded, prev, st);
    case Call2(_, _, _) => ReadCall2(cfg, e, guarded, prev, st);
    case Group(_) => ReadGroup(cfg, e, guarded, prev, st);
    case _ => ReadLeaf(cfg, e, guarded, prev, st);
  }

  lemma ReadLeaf(cfg: Config, e: Expr, guarded: bool, prev: Option<Token<Tree>>, st: State)
    requires (e.Name? || e.Num? || e.NegNum? || e.Bool? || e.Now? || e.Build?) && Ready(cfg, e, guarded, st.ops)
    ensures Leads(cfg, prev, Tokens(e), st, Rejected(cfg, InnerChain(e)), Pending(st, e))
  {
    assert Pending(st, e) == State(st.operands + [Leaf(Meaning(e))], st.ops);
    if e.Name? {
      ReadSource(cfg, prev, SplitDots(e.ident), st);
    } else if e.Now? || e.Build? {
      ReadWhole(cfg, prev, Meaning(e), st);
    } else {
      ReadLiteral(cfg, prev, Meaning(e).c, st);
    }
  }

  lemma {:induction false} ReadPrefix(cfg: Config, e: Expr, guarded: bool, prev: Option<Token<Tree>>, st: State)
    requires e.Prefix? && Ready(cfg, e, guarded, st.ops)
    ensures Leads(cfg, prev, Tokens(e), st, Rejected(cfg, InnerChain(e)), Pending(st, e))
    decreases e, 0
  {
    var op, arg := e.op, e.arg;
    var st1 := State(st.operands, st.ops + [op]);
    ReadOpening(cfg, prev, op, st);
    ReadExpr(cfg, arg, true, Some(Op(op)), st1);
    LeadsTrans(cfg, prev, [Op(op)], st, false, st1, Tokens(arg), Rejected(cfg, InnerChain(arg)), Pending(st1, arg));
    PendingPrefix(st, e);
  }

  lemma {:induction false} ReadInfix(cfg: Config, e: Expr, guarded: bool, prev: Option<Token<Tree>>, st: State)
    requires e.Infix? && Ready(cfg, e, guarded, st.ops)
    ensures Leads(cfg, prev, Tokens(e), st, Rejected(cfg, InnerChain(e)), Pending(st, e))
    decreases e, 0
  {
    var op, l, r := e.op, e.left, e.right;
    ReadExpr(cfg, l, guarded, prev, st);
    var st1 := State(st.operands + [Value(l)], st.ops + [op]);
    ReadRightOperand(cfg, op, l, r, st);
    LeadsTrans(cfg, prev, Tokens(l), st, Rejected(cfg, InnerChain(l)), Pending(st, l),
               [Op(op)] + Tokens(r), Rejected(cfg, SpineChain(l)) || Rejected(cfg, InnerChain(r)), Pending(st1, r));
    ChainSplit(l);
    PendingInfix(st, e);
  }

  /** An infix operator reduces its left operand `l`. */
  lemma {:induction false} ReadLeftEnd(cfg: Config, op: Operator, l: Expr, st: State)
    requires IsInfix(op) && Operands(l) && RightBinding(l) >= Target(cfg, op) && Blocks(st.ops, Target(cfg, op))
    ensures Leads(cfg, Some(Last(Tokens(l))), [Op(op)], Pending(st, l), Rejected(cfg, SpineChain(l)),
                  State(st.operands + [Value(l)], st.ops + [op]))
  {
    SpineShrinks(cfg, st, l);
    ReadInfixOp(cfg, Some(Last(Tokens(l))), op, RightBinding(l), Pending(st, l), Rejected(cfg, SpineChain(l)),
        Reduced(st, l));
  }

  /** An infix operator and its right operand, after the left operand `l`. */
  lemma {:induction false} ReadRightOperand(cfg: Config, op: Operator, l: Expr, r: Expr, st: State)
    requires IsInfix(op) && Operands(l) && Operands(r) && WellFormed(cfg, r, false)
    requires RightBinding(l) >= Target(cfg, op) && LeftBinding(cfg, r) > Precedence(op)
             && Blocks(st.ops, Target(cfg, op))
    ensures Leads(cfg, Some(Last(Tokens(l))), [Op(op)] + Tokens(r), Pending(st, l),
                  Rejected(cfg, SpineChain(l)) || Rejected(cfg, InnerChain(r)),
                  Pending(State(st.operands + [Value(l)], st.ops + [op]), r))
    decreases r, 2
  {
    var st1 := State(st.operands + [Value(l)], st.ops + [op]);
    ReadLeftEnd(cfg, op, l, st);
    ReadyAfter(cfg, r, st.ops, op);
    ReadExpr(cfg, r, false, Some(Op(op)), st1);
    LeadsTrans(cfg, Some(Last(Tokens(l))), [Op(op)], Pending(st, l), Rejected(cfg, SpineChain(l)), st1,
               Tokens(r), Rejected(cfg, InnerChain(r)), Pending(st1, r));
  }

  /** A right-associative power leaves the subscript before it pending. */
  lemma {:induction false} ReadPower(cfg: Config, l: Expr, r: Expr, st: State)
    requires cfg.rightAssociativePower && Operands(l) && l.Index?
    requires Operands(r) && WellFormed(cfg, r, false) && LeftBinding(cfg, r) > Precedence(Power)
    ensures
      var st1 := Pending(st, l);
      Leads(cfg, Some(Last(Tokens(l))), [Op(Power)] + Tokens(r), st1, Rejected(cfg, InnerChain(r)),
          Pending(State(st1.operands, st1.ops + [Power]), r))
    decreases r, 2
  {
    var prev, st1 := Some(Last(Tokens(l))), Pending(st, l);
    var st2 := State(st1.operands, st1.ops + [Power]);
    assert Last(st1.ops) == Subscript;
    ReadInfixOp(cfg, prev, Power, Target(cfg, Power), st1, false, st1);
    ReadyAfter(cfg, r, st1.ops, Power);
    ReadExpr(cfg, r, false, Some(Op(Power)), st2);
    LeadsTrans(cfg, prev, [Op(Power)], st1, false, st2, Tokens(r), Rejected(cfg, InnerChain(r)), Pending(st2, r));
  }

  lemma {:induction false} ReadRaise(cfg: Config, e: Expr, guarded: bool, prev: Option<Token<Tree>>, st: State)
    requires e.Raise? && Ready(cfg, e, guarded, st.ops)
    ensures Leads(cfg, prev, Tokens(e), st, Rejected(cfg, InnerChain(e)), Pending(st, e))
    decreases e, 0
  {
    var l, r := e.left, e.right;
    ReadExpr(cfg, l, guarded, prev, st);
    ReadPower(cfg, l, r, st);
    RaisePending(st, e);
    LeadsTrans(cfg, prev, Tokens(l), st, Rejected(cfg, InnerChain(l)), Pending(st, l),
               [Op(Power)] + Tokens(r), Rejected(cfg, InnerChain(r)), Pending(st, e));
  }

  lemma RaisePending(st: State, e: Expr)
    requires Operands(e) && e.Raise?
    ensures
      var st1 := Pending(st, e.left);
      Pending(State(st1.operands, st1.ops + [Power]), e.right) == Pending(st, e)
  {
    PendingRaise(st, e);
    Assoc(st.ops, [Subscript], [Power]);
    assert [Subscript] + [Power] == [Subscript, Power];
  }

  /** What stands between brackets, and the closing one. */
  lemma {:induction false} ReadInBrackets(cfg: Config, i: Expr, operands: seq<Operand<Tree>>, ops: seq<Operator>)
    requires Operands(i) && WellFormed(cfg, i, false)
    ensures Leads(cfg, Some(Op(LeftSquareBracket)), Tokens(i) + [Op(RightSquareBracket)],
            State(operands, ops + [Subscript, LeftSquareBracket]),
                  Rejected(cfg, InnerChain(i))
                      || Rejected(cfg, SpineChain(i)), State(operands + [Value(i)], ops + [Subscript]))
    decreases i, 5
  {
    var st, st1 := State(operands, ops + [Subscript, LeftSquareBracket]),
        State(operands + [Value(i)], ops + [Subscript]);
    BindingBounds(cfg, i);
    ReadExpr(cfg, i, false, Some(Op(LeftSquareBracket)), st);
    SpineShrinks(cfg, st, i);
    ReadRightBracket(cfg, Some(Last(Tokens(i))), RightBinding(i), Pending(st, i), Rejected(cfg, SpineChain(i)),
        Reduced(st, i), ops);
    LeadsTrans(cfg, Some(Op(LeftSquareBracket)), Tokens(i), st, Rejected(cfg, InnerChain(i)), Pending(st, i),
               [Op(RightSquareBracket)], Rejected(cfg, SpineChain(i)), st1);
  }

  lemma {:induction false} ReadIndex(cfg: Config, e: Expr, guarded: bool, prev: Option<Token<Tree>>, st: State)
    requires e.Index? && Ready(cfg, e, guarded, st.ops)
    ensures Leads(cfg, prev, Tokens(e), st, Rejected(cfg, InnerChain(e)), Pending(st, e))
    decreases e, 0
  {
    var b, i, open: seq<Token<Tree>> := e.base, e.index, [Op(LeftSquareBracket)];
    ReadExpr(cfg, b, guarded, prev, st);
    SpineShrinks(cfg, st, b);
    var st1 := State(st.operands + [Value(b)], st.ops + [Subscript, LeftSquareBracket]);
    ReadLeftBracket(cfg, Some(Last(Tokens(b))), RightBinding(b), Pending(st, b), Rejected(cfg, SpineChain(b)),
        Reduced(st, b));
    ReadInBrackets(cfg, i, st1.operands, st.ops);
    assert st1.operands + [Value(i)] == Pending(st, e).operands;
    var st2 := Pending(st, e);
    LeadsTrans(cfg, Some(Last(Tokens(b))), open, Pending(st, b), Rejected(cfg, SpineChain(b)), st1,
               Tokens(i) + [Op(RightSquareBracket)], Rejected(cfg, InnerChain(i)) || Rejected(cfg, SpineChain(i)), st2);
    LeadsTrans(cfg, prev, Tokens(b), st, Rejected(cfg, InnerChain(b)), Pending(st, b),
        open + (Tokens(i) + [Op(RightSquareBracket)]),
               Rejected(cfg, SpineChain(b)) || (Rejected(cfg, InnerChain(i)) || Rejected(cfg, SpineChain(i))), st2);
    ChainSplit(b);
    ChainSplit(i);
  }

  lemma {:induction false} ReadAccess(cfg: Config, e: Expr, guarded: bool, prev: Option<Token<Tree>>, st: State)
    requires e.Access? && Ready(cfg, e, guarded, st.ops)
    ensures Leads(cfg, prev, Tokens(e), st, Rejected(cfg, InnerChain(e)), Pending(st, e))
    decreases e, 0
  {
    var b, parts := e.base, SplitDots(e.path);
    ReadExpr(cfg, b, guarded, prev, st);
    SpineShrinks(cfg, st, b);
    LastTokenIsOperand(b);
    ReadPostfix(cfg, Last(Tokens(b)), parts, RightBinding(b), Pending(st, b), Rejected(cfg, SpineChain(b)), st.operands,
        Value(b), st.ops);
    assert Pending(st, e) == Reduced(st, e);
    LeadsTrans(cfg, prev, Tokens(b), st, Rejected(cfg, InnerChain(b)), Pending(st, b), [Path(parts)],
        Rejected(cfg, SpineChain(b)), Pending(st, e));
    ChainSplit(b);
  }

  lemma {:induction false} ReadGroup(cfg: Config, e: Expr, guarded: bool, prev: Option<Token<Tree>>, st: State)
    requires e.Group? && Ready(cfg, e, guarded, st.ops)
    ensures Leads(cfg, prev, Tokens(e), st, Rejected(cfg, InnerChain(e)), Pending(st, e))
    decreases e, 0
  {
    var x, close := e.inner, [Op(RightParen)];
    var st1 := State(st.operands, st.ops + [LeftParen]);
    ReadOpening(cfg, prev, LeftParen, st);
    BindingBounds(cfg, x);
    ReadExpr(cfg, x, false, Some(Op(LeftParen)), st1);
    SpineShrinks(cfg, st1, x);
    LastTokenIsOperand(x);
    ReadGroupEnd(cfg, Last(Tokens(x)), RightBinding(x), Pending(st1, x), Rejected(cfg, SpineChain(x)), st.operands,
        Value(x), st.ops);
    assert Pending(st, e) == Reduced(st, e);
    LeadsTrans(cfg, Some(Op(LeftParen)), Tokens(x), st1, Rejected(cfg, InnerChain(x)), Pending(st1, x),
               close, Rejected(cfg, SpineChain(x)), Pending(st, e));
    LeadsTrans(cfg, prev, [Op(LeftParen)], st, false, st1,
               Tokens(x) + close, Rejected(cfg, InnerChain(x)) || Rejected(cfg, SpineChain(x)), Pending(st, e));
    ChainSplit(x);
  }

  /** The closing parenthesis of the call `e`, after its last argument `a`. */
  lemma {:induction false} CloseCall(cfg: Config, e: Expr, a: Expr, fn: Operator, st: State,
                                     operands: seq<Operand<Tree>>)
    requires Operands(e) && (e.Call1? || e.Call2?) && IsFunctionLike(fn) && Operands(a)
    requires Combine(cfg, fn, st.operands + operands + [Value(a).(parenthesized := true)])
             == Ok(st.operands + [Value(e)])
    ensures Leads(cfg, Some(Last(Tokens(a))), [Op(RightParen)],
            Pending(State(st.operands + operands, st.ops + [fn, LeftParen]), a),
                  Rejected(cfg, SpineChain(a)), Pending(st, e))
  {
    var st1 := State(st.operands + operands, st.ops + [fn, LeftParen]);
    BindingBounds(cfg, a);
    SpineShrinks(cfg, st1, a);
    LastTokenIsOperand(a);
    ReadCallEnd(cfg, Last(Tokens(a)), RightBinding(a), Pending(st1, a), Rejected(cfg, SpineChain(a)), st1.operands,
        Value(a), st.ops, fn,
                st.operands + [Value(e)]);
    assert Pending(st, e) == Reduced(st, e);
  }

  /** The last argument `a` of a call and its closing parenthesis; `operands` are its
      other arguments, and `e` is the whole call. */
  lemma {:induction false} ReadLastArgument(cfg: Config, e: Expr, a: Expr, fn: Operator, prev: Token<Tree>, st: State,
                                            operands: seq<Operand<Tree>>)
    requires Operands(e) && (e.Call1? || e.Call2?) && IsFunctionLike(fn)
    requires Operands(a) && WellFormed(cfg, a, false)
    requires Combine(cfg, fn, st.operands + operands + [Value(a).(parenthesized := true)])
             == Ok(st.operands + [Value(e)])
    ensures Leads(cfg, Some(prev), Tokens(a) + [Op(RightParen)],
            State(st.operands + operands, st.ops + [fn, LeftParen]),
                  Rejected(cfg, HasOwnChain(a)), Pending(st, e))
    decreases a, 2
  {
    var st1 := State(st.operands + operands, st.ops + [fn, LeftParen]);
    BindingBounds(cfg, a);
    ReadExpr(cfg, a, false, Some(prev), st1);
    CloseCall(cfg, e, a, fn, st, operands);
    LeadsTrans(cfg, Some(prev), Tokens(a), st1, Rejected(cfg, InnerChain(a)), Pending(st1, a),
               [Op(RightParen)], Rejected(cfg, SpineChain(a)), Pending(st, e));
    ChainSplit(a);
  }

  lemma {:induction false} ReadCall1(cfg: Config, e: Expr, guarded: bool, prev: Option<Token<Tree>>, st: State)
    requires e.Call1? && Ready(cfg, e, guarded, st.ops)
    ensures Leads(cfg, prev, Tokens(e), st, Rejected(cfg, InnerChain(e)), Pending(st, e))
    decreases e, 0
  {
    var fn, a := e.fn, e.arg;
    ReadFunctionName(cfg, prev, fn, st);
    assert st.operands + [] == st.operands;
    CombineOne(cfg, fn, st.operands, Value(a).(parenthesized := true));
    ReadLastArgument(cfg, e, a, fn, Op(LeftParen), st, []);
    LeadsTrans(cfg, prev, [Op(fn), Op(LeftParen)], st, false, State(st.operands, st.ops + [fn, LeftParen]),
               Tokens(a) + [Op(RightParen)], Rejected(cfg, HasOwnChain(a)), Pending(st, e));
  }

  /** The first argument `a` of a call of `fn` and the comma after it. */
  lemma {:induction false} ReadFirstArgument(cfg: Config, a: Expr, fn: Operator, st: State)
    requires IsFunctionLike(fn) && Operands(a) && WellFormed(cfg, a, false)
    ensures
      var st1 := State(st.operands, st.ops + [fn, LeftParen]);
      Leads(cfg, Some(Op(LeftParen)), Tokens(a) + [Op(Comma)], st1, Rejected(cfg, HasOwnChain(a)), Reduced(st1, a))
    decreases a, 2
  {
    var st1 := State(st.operands, st.ops + [fn, LeftParen]);
    BindingBounds(cfg, a);
    ReadExpr(cfg, a, false, Some(Op(LeftParen)), st1);
    SpineShrinks(cfg, st1, a);
    LastTokenIsOperand(a);
    ReadComma(cfg, Last(Tokens(a)), RightBinding(a), Pending(st1, a), Rejected(cfg, SpineChain(a)), Reduced(st1, a),
        st.ops, fn);
    LeadsTrans(cfg, Some(Op(LeftParen)), Tokens(a), st1, Rejected(cfg, InnerChain(a)), Pending(st1, a),
               [Op(Comma)], Rejected(cfg, SpineChain(a)), Reduced(st1, a));
    ChainSplit(a);
  }

  lemma {:induction false} ReadCall2(cfg: Config, e: Expr, guarded: bool, prev: Option<Token<Tree>>, st: State)
    requires e.Call2? && Ready(cfg, e, guarded, st.ops)
    ensures Leads(cfg, prev, Tokens(e), st, Rejected(cfg, InnerChain(e)), Pending(st, e))
    decreases e, 0
  {
    var fn, a, b, comma := e.fn, e.first, e.second, [Op(Comma)];
    var st1 := State(st.operands, st.ops + [fn, LeftParen]);
    ReadFunctionName(cfg, prev, fn, st);
    ReadFirstArgument(cfg, a, fn, st);
    ReadSecondArgument(cfg, e, st);
    var tail := Tokens(b) + [Op(RightParen)];
    LeadsTrans(cfg, Some(Op(LeftParen)), Tokens(a) + comma, st1, Rejected(cfg, HasOwnChain(a)), Reduced(st1, a),
               tail, Rejected(cfg, HasOwnChain(b)), Pending(st, e));
    Assoc(Tokens(a), comma, tail);
    LeadsTrans(cfg, prev, [Op(fn), Op(LeftParen)], st, false, st1, Tokens(a) + (comma + tail),
               Rejected(cfg, HasOwnChain(a)) || Rejected(cfg, HasOwnChain(b)), Pending(st, e));
  }

  lemma {:induction false} ReadSecondArgument(cfg: Config, e: Expr, st: State)
    requires e.Call2? && Operands(e) && WellFormed(cfg, e, false)
    ensures Leads(cfg, Some(Op(Comma)), Tokens(e.second) + [Op(RightParen)],
            Reduced(State(st.operands, st.ops + [e.fn, LeftParen]), e.first),
                  Rejected(cfg, HasOwnChain(e.second)), Pending(st, e))
    decreases e.second, 3
  {
    var fn, a, b := e.fn, e.first, e.second;
    var y := Value(b).(parenthesized := true);
    CombineTwo(cfg, fn, st.operands, Value(a), y);
    assert st.operands + [Value(a)] + [y] == st.operands + [Value(a), y];
    ReadLastArgument(cfg, e, b, fn, Op(Comma), st, [Value(a)]);
  }

  lemma {:induction false} NoBrackets(e: Expr)
    requires Operands(e)
    ensures LeftParen !in PendingOps(e) && LeftSquareBracket !in PendingOps(e)
  {
    match e
    case Infix(_, _, r) => NoBrackets(r);
    case Raise(_, r) => NoBrackets(r);
    case Prefix(_, arg) => NoBrackets(arg);
    case _ =>
  }

  /** What is pending of `e` is reduced at the end, under operators that are no brackets. */
  lemma {:induction false} FinishSpine(cfg: Config, st: State, e: Expr)
    requires Operands(e) && LeftParen !in st.ops && LeftSquareBracket !in st.ops
    ensures Finish(cfg, Pending(st, e)) == Rejecting(Rejected(cfg, SpineChain(e)), Finish(cfg, Reduced(st, e)))
  {
    NoBrackets(e);
    BindingBounds(cfg, e);
    SpineShrinks(cfg, st, e);
    assert Collapse(cfg, 1, Pending(st, e))
        == Rejecting(Rejected(cfg, SpineChain(e)), Collapse(cfg, 1, Reduced(st, e)));
  }

  /** Reading the whole of a text and finishing. */
  lemma CompileLeads(cfg: Config, toks: seq<Token<Tree>>, bad1: bool, st: State, bad2: bool, r: Result<Tree, Error>)
    requires toks != [] && Leads(cfg, None, toks, EMPTY, bad1, st) && Finish(cfg, st) == Rejecting(bad2, r)
    ensures Compile(cfg, toks) == Rejecting(bad1 || bad2, r)
  {
    assert toks + [] == toks;
    assert Run(cfg, None, toks + [], EMPTY) == Rejecting(bad1, Run(cfg, Some(Last(toks)), [], st));
  }

  /** Every well-formed expression compiles, from its tokens, to exactly its meaning;
      the strict mode rejects it just when it writes a comparison chain. */
  lemma CompilesToMeaning(cfg: Config, e: Expr)
    requires Operands(e) && WellFormed(cfg, e, false)
    ensures Compile(cfg, Tokens(e)) == Rejecting(Rejected(cfg, HasOwnChain(e)), Ok(Meaning(e)))
  {
    ReadExpr(cfg, e, false, None, EMPTY);
    FinishSpine(cfg, EMPTY, e);
    assert Collapse(cfg, 1, Reduced(EMPTY, e)) == Ok(Reduced(EMPTY, e));
    CompileLeads(cfg, Tokens(e), Rejected(cfg, InnerChain(e)), Pending(EMPTY, e), Rejected(cfg, SpineChain(e)),
        Ok(Meaning(e)));
    ChainSplit(e);
  }
}
