/** Which error the usual mistakes are refused with, around any expression that compiles. */
module Refusals {
  import opened Wrappers
  import opened Operators
  import opened Trees
  import opened Shunting
  import opened ShuntingSteps
  import opened ShuntingProof
  import opened Tokenizer
  import opened TokenizerProof
  import opened Grammar
  import opened ScanProof
  import opened Reference
  import opened ReferenceProof
  import opened Signs

  const START := Tokenized([], [])

  /** `ls` has been tokenized and read, which leaves the machine in `st`. */
  ghost predicate Past(cfg: Config, ls: seq<Lexeme>, f: Follow, toks: seq<Token<Tree>>, log: seq<Tree>, st: State) {
    toks != [] && Scans(cfg, START, ls, f, false, toks, log) && Leads(cfg, None, toks, EMPTY, false, st)
  }

  lemma {:induction false} PastThen(cfg: Config, ls: seq<Lexeme>, f: Follow, toks: seq<Token<Tree>>, log: seq<Tree>,
                                    st: State, b: seq<Lexeme>, f2: Follow, t2: seq<Token<Tree>>, g2: seq<Tree>,
                                    st2: State)
    requires Past(cfg, ls, f, toks, log, st) && Joins(f, b, f2) && t2 != []
    requires Scans(cfg, Extend(START, toks, log), b, f2, false, t2, g2)
    requires Leads(cfg, Some(Last(toks)), t2, st, false, st2)
    ensures Past(cfg, ls + b, f2, toks + t2, log + g2, st2)
  {
    ScansTrans(cfg, START, ls, f, false, toks, log, b, f2, false, t2, g2);
    LeadsTrans(cfg, None, toks, EMPTY, false, st, t2, false, st2);
  }

  /** `e` can be read, and is not rejected for a chain of comparisons. */
  predicate Plain(cfg: Config, e: Expr) {
    Operands(e) && WellFormed(cfg, e, false) && !Rejected(cfg, HasFieldChain(e)) && !Rejected(cfg, HasOwnChain(e))
  }

  lemma {:induction false} PastExpr(cfg: Config, e: Expr)
    requires Plain(cfg, e)
    ensures Past(cfg, Print(e), AfterOperand(EndsInBuilder(e)), Tokens(e), FieldLog(e), Pending(EMPTY, e))
  {
    ScanExpr(cfg, START, e, false);
    ReadExpr(cfg, e, false, None, EMPTY);
    ChainSplit(e);
  }

  /** An expression after an opening bracket. */
  lemma {:induction false} InnerScans(cfg: Config, toks: seq<Token<Tree>>, e: Expr)
    requires LastIsOperator(toks) && Plain(cfg, e)
    ensures Scans(cfg, Extend(START, toks, []), Print(e), AfterOperand(EndsInBuilder(e)), false, Tokens(e), FieldLog(e))
  {
    var acc := Extend(START, toks, []);
    assert acc.tokens == toks;
    ScanExpr(cfg, acc, e, false);
  }

  lemma {:induction false} InnerLeads(cfg: Config, prev: Option<Token<Tree>>, st: State, e: Expr)
    requires Plain(cfg, e) && st.ops != [] && (Last(st.ops).LeftParen? || Last(st.ops).LeftSquareBracket?)
    ensures Leads(cfg, prev, Tokens(e), st, false, Pending(st, e))
  {
    ReadyInside(cfg, e, st.ops);
    ReadExpr(cfg, e, false, prev, st);
    ChainSplit(e);
  }

  lemma {:induction false} ReadyInside(cfg: Config, e: Expr, ops: seq<Operator>)
    requires Plain(cfg, e) && ops != [] && (Last(ops).LeftParen? || Last(ops).LeftSquareBracket?)
    ensures Ready(cfg, e, false, ops)
  {
    BindingBounds(cfg, e);
    assert Precedence(Last(ops)) == 0;
  }

  lemma {:induction false} PastInner(cfg: Config, ls: seq<Lexeme>, toks: seq<Token<Tree>>, st: State, e: Expr)
    requires Past(cfg, ls, Anything, toks, [], st) && LastIsOperator(toks) && Plain(cfg, e)
    requires st.ops != [] && (Last(st.ops).LeftParen? || Last(st.ops).LeftSquareBracket?)
    ensures Past(cfg, ls + Print(e), AfterOperand(EndsInBuilder(e)), toks + Tokens(e), FieldLog(e), Pending(st, e))
  {
    InnerScans(cfg, toks, e);
    InnerLeads(cfg, Some(Last(toks)), st, e);
    var text, tokens, log, st2 := Print(e), Tokens(e), FieldLog(e), Pending(st, e);
    PastThen(cfg, ls, Anything, toks, [], st, text, AfterOperand(EndsInBuilder(e)), tokens, log, st2);
    assert [] + log == log;
  }

  /** What closes or separates reduces the expression before it. */
  lemma {:induction false} Settles(cfg: Config, st: State, e: Expr)
    requires Plain(cfg, e) && Blocks(st.ops, 1)
    ensures Collapse(cfg, 1, Pending(st, e)) == Ok(Reduced(st, e))
  {
    SpineShrinks(cfg, st, e);
    BindingBounds(cfg, e);
    ChainSplit(e);
    assert Collapse(cfg, 1, Reduced(st, e)) == Ok(Reduced(st, e));
  }

  lemma {:induction false} RefusedAtStep(cfg: Config, ls: seq<Lexeme>, f: Follow, toks: seq<Token<Tree>>,
                                         log: seq<Tree>, st: State, l: Lexeme, op: Operator, err: Error)
    requires Past(cfg, ls, f, toks, log, st) && MayFollow(f, [l, Eof]) && OperatorOf(l) == Some(op)
    requires Step(cfg, Some(Last(toks)), Op(op), None, st) == Err(err)
    ensures TreeOf(cfg, ls + [l]) == Err(err)
  {
    var acc := Extend(START, toks, log);
    ScanOperator(cfg, acc, l, op);
    Assoc(ls, [l], [Eof]);
    ScansAt(cfg, START, ls, f, false, toks, log, [l, Eof]);
    ScansAt(cfg, acc, [l], Anything, false, [Op(op)], [], [Eof]);
    assert [l] + [Eof] == [l, Eof];
    assert Run(cfg, None, toks + [Op(op)], EMPTY) == Run(cfg, Some(Last(toks)), [Op(op)], st);
    assert StreamOf(ls + [l]) == ls + [l] + [Eof];
    RunCons(cfg, Some(Last(toks)), Op(op), [], st);
    var one: seq<Token<Tree>> := [Op(op)];
    assert one + [] == one;
    assert Compile(cfg, toks + [Op(op)]) == Err(err);
    assert Extend(acc, [Op(op)], []).tokens == toks + [Op(op)];
  }

  lemma {:induction false} RefusedAtEnd(cfg: Config, ls: seq<Lexeme>, f: Follow, toks: seq<Token<Tree>>,
                                        log: seq<Tree>, st: State, err: Error)
    requires Past(cfg, ls, f, toks, log, st) && ls != [] && !Last(ls).Eof? && Finish(cfg, st) == Err(err)
    ensures TreeOf(cfg, ls) == Err(err)
  {
    ScansAt(cfg, START, ls, f, false, toks, log, [Eof]);
    assert StreamOf(ls) == ls + [Eof];
    assert toks + [] == toks;
    assert Run(cfg, None, toks + [], EMPTY) == Run(cfg, Some(Last(toks)), [], st);
    assert Extend(START, toks, log).tokens == toks;
  }

  /** A text that can be read, and compiles. */
  predicate Reads(cfg: Config, a: seq<Lexeme>) { Parse(cfg, a).Some? && TreeOf(cfg, a).Ok? }

  lemma {:induction false} Spelt(cfg: Config, a: seq<Lexeme>) returns (e: Expr)
    requires Reads(cfg, a)
    ensures Plain(cfg, e) && Print(e) == a
  {
    AgreesWithReference(cfg, a);
    e := Parse(cfg, a).value;
  }

  // ------------------------------------------------------------------------
  // What the machine says once an expression is reduced

  /** The error for a closing bracket or comma, where no bracket is open. */
  function StrayError(l: Lexeme): Error {
    match l
    case RParen => UnmatchedRightParen
    case RBracket => UnmatchedRightBracket
    case _ => CommaOutsideCall
  }

  predicate ClosesOrSeparates(l: Lexeme) { l.RParen? || l.RBracket? || l.CommaSign? }

  /** How the token of `l` fares: each of the three on its own. */
  lemma {:induction false} ClosingSteps(cfg: Config, prev: Token<Tree>, st: State, st1: State)
    requires IsOperandToken(prev) && Collapse(cfg, 1, st) == Ok(st1)
    ensures Step(cfg, Some(prev), Op(RightParen), None, st) == CloseParen(cfg, |st1.ops| != |st.ops|, st1)
    ensures Step(cfg, Some(prev), Op(RightSquareBracket), None, st) == CloseBracket(st1)
    ensures Step(cfg, Some(prev), Op(Comma), None, st) == AfterComma(st1)
  {
  }

  /** The machine's answer to `l`, once the expression before it is reduced. */
  function Answer(cfg: Config, l: Lexeme, found: bool, st: State): Result<State, Error>
    requires ClosesOrSeparates(l)
  {
    match l
    case RParen => CloseParen(cfg, found, st)
    case RBracket => CloseBracket(st)
    case CommaSign => AfterComma(st)
  }

  lemma {:induction false} Answers(cfg: Config, prev: Token<Tree>, st: State, st1: State, l: Lexeme)
    requires IsOperandToken(prev) && Collapse(cfg, 1, st) == Ok(st1) && ClosesOrSeparates(l)
    ensures Step(cfg, Some(prev), Op(OperatorOf(l).value), None, st) == Answer(cfg, l, |st1.ops| != |st.ops|, st1)
  {
    var t: Token<Tree> := Op(OperatorOf(l).value);
    if l.RParen? {
      assert t == Op(RightParen);
    } else if l.RBracket? {
      assert t == Op(RightSquareBracket);
    } else {
      assert t == Op(Comma);
    }
    ClosingSteps(cfg, prev, st, st1);
  }

  lemma {:induction false} AnswerNothingOpen(cfg: Config, found: bool, xs: seq<Operand<Tree>>, l: Lexeme)
    requires ClosesOrSeparates(l)
    ensures Answer(cfg, l, found, State(xs, [])) == Err(StrayError(l))
  {
  }

  lemma {:induction false} AnswerInParen(cfg: Config, found: bool, xs: seq<Operand<Tree>>, l: Lexeme)
    requires l.RBracket? || l.CommaSign?
    ensures Answer(cfg, l, found, State(xs, [LeftParen])) == Err(StrayError(l))
  {
  }

  lemma {:induction false} AnswerInBracket(cfg: Config, found: bool, xs: seq<Operand<Tree>>, l: Lexeme)
    requires l.RParen? || l.CommaSign?
    ensures Answer(cfg, l, found, State(xs, [Subscript, LeftSquareBracket]))
         == Err(if l.RParen? then UnmatchedRightParen else CommaInSubscript)
  {
  }

  // ------------------------------------------------------------------------
  // Brackets that do not match

  lemma {:induction false} ReducedAlone(cfg: Config, e: Expr)
    requires Plain(cfg, e)
    ensures Collapse(cfg, 1, Pending(EMPTY, e)) == Ok(State([Value(e)], []))
  {
    Settles(cfg, EMPTY, e);
    assert [] + [Value(e)] == [Value(e)];
  }

  /** `a` has been read. */
  lemma {:induction false} PastAlone(cfg: Config, a: seq<Lexeme>)
    returns (e: Expr, f: Follow, toks: seq<Token<Tree>>, log: seq<Tree>, st: State)
    requires Reads(cfg, a)
    ensures Past(cfg, a, f, toks, log, st) && f.AfterOperand? && IsOperandToken(Last(toks)) && Operands(e)
    ensures Collapse(cfg, 1, st) == Ok(State([Value(e)], []))
  {
    e := Spelt(cfg, a);
    PastExpr(cfg, e);
    ReducedAlone(cfg, e);
    LastTokenIsOperand(e);
    f, toks, log, st := AfterOperand(EndsInBuilder(e)), Tokens(e), FieldLog(e), Pending(EMPTY, e);
  }

  /** `a)`, `a]` and `a,` */
  lemma {:induction false} NothingToClose(cfg: Config, a: seq<Lexeme>, l: Lexeme)
    requires Reads(cfg, a) && ClosesOrSeparates(l)
    ensures TreeOf(cfg, a + [l]) == Err(StrayError(l))
  {
    var e, f, toks, log, st := PastAlone(cfg, a);
    Answers(cfg, Last(toks), st, State([Value(e)], []), l);
    AnswerNothingOpen(cfg, |st.ops| != 0, [Value(e)], l);
    RefusedAtStep(cfg, a, f, toks, log, st, l, OperatorOf(l).value, StrayError(l));
  }

  lemma {:induction false} PastParen(cfg: Config)
    ensures Past(cfg, [LParen], Anything, [Op(LeftParen)], [], State([], [LeftParen]))
  {
    ScanOperator(cfg, START, LParen, LeftParen);
    ReadOpening(cfg, None, LeftParen, EMPTY);
    assert [] + [LeftParen] == [LeftParen];
  }

  lemma {:induction false} InsideReduces(cfg: Config, e: Expr, xs: seq<Operand<Tree>>, ops: seq<Operator>)
    requires Plain(cfg, e) && Blocks(ops, 1) && ops != []
    ensures
      var st := Pending(State(xs, ops), e);
      Collapse(cfg, 1, st) == Ok(State(xs + [Value(e)], ops)) && st.ops[|ops| - 1] == Last(ops)
  {
    Settles(cfg, State(xs, ops), e);
  }

  lemma {:induction false} LastOf(open: seq<Token<Tree>>, e: Expr)
    requires Operands(e)
    ensures IsOperandToken(Last(open + Tokens(e)))
  {
    LastTokenIsOperand(e);
  }

  /** An expression after an opening bracket, and a lexeme that the machine refuses there. */
  lemma {:induction false} InnerRefused(cfg: Config, ls: seq<Lexeme>, open: seq<Token<Tree>>, st: State, e: Expr,
                                        l: Lexeme, err: Error)
    requires Past(cfg, ls, Anything, open, [], st) && LastIsOperator(open) && Plain(cfg, e)
    requires st.ops != [] && (Last(st.ops).LeftParen? || Last(st.ops).LeftSquareBracket?) && ClosesOrSeparates(l)
    requires Step(cfg, Some(Last(open + Tokens(e))), Op(OperatorOf(l).value), None, Pending(st, e)) == Err(err)
    ensures TreeOf(cfg, ls + Print(e) + [l]) == Err(err)
  {
    PastInner(cfg, ls, open, st, e);
    var text, toks, log, st1 := ls + Print(e), open + Tokens(e), FieldLog(e), Pending(st, e);
    RefusedAtStep(cfg, text, AfterOperand(EndsInBuilder(e)), toks, log, st1, l, OperatorOf(l).value, err);
  }

  /** The same where the text ends. */
  lemma {:induction false} InnerUnfinished(cfg: Config, ls: seq<Lexeme>, open: seq<Token<Tree>>, st: State, e: Expr,
                                           err: Error)
    requires Past(cfg, ls, Anything, open, [], st) && LastIsOperator(open) && Plain(cfg, e) && !Last(Print(e)).Eof?
    requires st.ops != [] && (Last(st.ops).LeftParen? || Last(st.ops).LeftSquareBracket?)
    requires Finish(cfg, Pending(st, e)) == Err(err)
    ensures TreeOf(cfg, ls + Print(e)) == Err(err)
  {
    PastInner(cfg, ls, open, st, e);
    var text, toks, log, st1 := ls + Print(e), open + Tokens(e), FieldLog(e), Pending(st, e);
    assert Last(text) == Last(Print(e));
    RefusedAtEnd(cfg, text, AfterOperand(EndsInBuilder(e)), toks, log, st1, err);
  }

  /** `(a` */
  lemma {:induction false} ParenLeftOpen(cfg: Config, a: seq<Lexeme>)
    requires Reads(cfg, a) && !Last(a).Eof?
    ensures TreeOf(cfg, [LParen] + a) == Err(UnmatchedLeftParen)
  {
    var e := Spelt(cfg, a);
    PastParen(cfg);
    EndInParen(cfg, e);
    InnerUnfinished(cfg, [LParen], [Op(LeftParen)], State([], [LeftParen]), e, UnmatchedLeftParen);
  }

  /** `(a]` and `(a,` */
  lemma {:induction false} ParenNotClosed(cfg: Config, a: seq<Lexeme>, l: Lexeme)
    requires Reads(cfg, a) && (l.RBracket? || l.CommaSign?)
    ensures TreeOf(cfg, [LParen] + a + [l]) == Err(StrayError(l))
  {
    var e := Spelt(cfg, a);
    PastParen(cfg);
    StepInParen(cfg, e, l);
    InnerRefused(cfg, [LParen], [Op(LeftParen)], State([], [LeftParen]), e, l, StrayError(l));
  }

  lemma {:induction false} StepInParen(cfg: Config, e: Expr, l: Lexeme)
    requires Plain(cfg, e) && (l.RBracket? || l.CommaSign?)
    ensures Step(cfg, Some(Last([Op(LeftParen)] + Tokens(e))), Op(OperatorOf(l).value), None,
                 Pending(State([], [LeftParen]), e)) == Err(StrayError(l))
  {
    var open, st := [Op(LeftParen)], Pending(State([], [LeftParen]), e);
    InsideReduces(cfg, e, [], [LeftParen]);
    LastOf(open, e);
    Answers(cfg, Last(open + Tokens(e)), st, State([] + [Value(e)], [LeftParen]), l);
    AnswerInParen(cfg, 1 != |st.ops|, [] + [Value(e)], l);
  }

  lemma {:induction false} EndInParen(cfg: Config, e: Expr)
    requires Plain(cfg, e)
    ensures Finish(cfg, Pending(State([], [LeftParen]), e)) == Err(UnmatchedLeftParen)
  {
    assert Pending(State([], [LeftParen]), e).ops[0] == LeftParen;
  }

  /** `w[` */
  lemma {:induction false} PastBracket(cfg: Config, w: seq<string>)
    requires IsWord(w)
    ensures Past(cfg, [Identifier(Dotted(w)), LBracket], Anything, [Path(w), Op(LeftSquareBracket)], [],
                 State([Leaf(Named(w))], [Subscript, LeftSquareBracket]))
  {
    var st := State([Leaf(Named(w))], []);
    var t2: seq<Token<Tree>>, st2 := [Op(LeftSquareBracket)], State(st.operands, [Subscript, LeftSquareBracket]);
    PastWord(cfg, w);
    ScanOperator(cfg, Extend(START, [Path(w)], []), LBracket, LeftSquareBracket);
    ReadLeftBracket(cfg, Some(Path(w)), Precedence(Subscript), st, false, st);
    assert st.ops + [Subscript, LeftSquareBracket] == [Subscript, LeftSquareBracket];
    var none: seq<Tree> := [];
    PastThen(cfg, [Identifier(Dotted(w))], AfterOperand(false), [Path(w)], none, st, [LBracket], Anything, t2, none,
        st2);
    assert none + none == none;
    assert [Identifier(Dotted(w))] + [LBracket] == [Identifier(Dotted(w)), LBracket];
    assert [Path(w)] + t2 == [Path(w), Op(LeftSquareBracket)];
  }

  /** `w` */
  lemma {:induction false} PastWord(cfg: Config, w: seq<string>)
    requires IsWord(w)
    ensures Past(cfg, [Identifier(Dotted(w))], AfterOperand(false), [Path(w)], [], State([Leaf(Named(w))], []))
  {
    WordMeans(w);
    SplitWord(w);
    ScanPath(cfg, START, Dotted(w));
    ReadSource(cfg, None, w, EMPTY);
    assert [] + [Leaf(Named(w))] == [Leaf(Named(w))];
  }

  lemma {:induction false} SplitWord(w: seq<string>)
    requires IsWord(w)
    ensures SplitDots(Dotted(w)) == w && w[0] != ""
  {
    forall i | 0 <= i < |w| ensures '.' !in w[i] && w[i] != "" {
      assert IsPart(w[i]);
    }
    SplitJoined(w);
  }

  /** `w[a` */
  lemma {:induction false} BracketLeftOpen(cfg: Config, w: seq<string>, a: seq<Lexeme>)
    requires IsWord(w) && Reads(cfg, a) && !Last(a).Eof?
    ensures TreeOf(cfg, [Identifier(Dotted(w)), LBracket] + a) == Err(UnmatchedLeftBracket)
  {
    var e := Spelt(cfg, a);
    var st := State([Leaf(Named(w))], [Subscript, LeftSquareBracket]);
    PastBracket(cfg, w);
    NoBrackets(e);
    assert Pending(st, e).ops[1] == LeftSquareBracket;
    InnerUnfinished(cfg, [Identifier(Dotted(w)), LBracket], [Path(w), Op(LeftSquareBracket)], st, e,
        UnmatchedLeftBracket);
  }

  /** `w[a)` and `w[a,` */
  lemma {:induction false} BracketNotClosed(cfg: Config, w: seq<string>, a: seq<Lexeme>, l: Lexeme)
    requires IsWord(w) && Reads(cfg, a) && (l.RParen? || l.CommaSign?)
    ensures TreeOf(cfg, [Identifier(Dotted(w)), LBracket] + a + [l])
         == Err(if l.RParen? then UnmatchedRightParen else CommaInSubscript)
  {
    var e := Spelt(cfg, a);
    var open, st := [Path(w), Op(LeftSquareBracket)], State([Leaf(Named(w))], [Subscript, LeftSquareBracket]);
    PastBracket(cfg, w);
    StepInBracket(cfg, w, e, l);
    InnerRefused(cfg, [Identifier(Dotted(w)), LBracket], open, st, e, l,
        if l.RParen? then UnmatchedRightParen else CommaInSubscript);
  }

  lemma {:induction false} StepInBracket(cfg: Config, w: seq<string>, e: Expr, l: Lexeme)
    requires w != [] && Plain(cfg, e) && (l.RParen? || l.CommaSign?)
    ensures Step(cfg, Some(Last([Path(w), Op(LeftSquareBracket)] + Tokens(e))), Op(OperatorOf(l).value), None,
                 Pending(State([Leaf(Named(w))], [Subscript, LeftSquareBracket]), e))
         == Err(if l.RParen? then UnmatchedRightParen else CommaInSubscript)
  {
    var open, st := [Path(w), Op(LeftSquareBracket)], State([Leaf(Named(w))], [Subscript, LeftSquareBracket]);
    InsideReduces(cfg, e, [Leaf(Named(w))], [Subscript, LeftSquareBracket]);
    LastOf(open, e);
    var st1, xs := Pending(st, e), [Leaf(Named(w))] + [Value(e)];
    Answers(cfg, Last(open + Tokens(e)), st1, State(xs, [Subscript, LeftSquareBracket]), l);
    AnswerInBracket(cfg, 2 != |st1.ops|, xs, l);
  }
}
