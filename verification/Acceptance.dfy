/** Which texts the compiler accepts: a text that compiles, alternates and gives its calls what
    they are due is one that the reference parser reads.

    The proof follows the reference parser while the compiler reads the same text: wherever the
    parser would fail, the compiler has failed too. */
module Acceptance {
  import opened Wrappers
  import opened Operators
  import opened Trees
  import opened Shunting
  import opened ShuntingSteps
  import opened ShuntingProof
  import opened Tokenizer
  import opened TokenizerLaws
  import opened TokenizerProof
  import opened Grammar
  import opened ScanProof
  import opened Reference
  import opened ReferenceProof
  import opened ReferenceComplete
  import opened Regularity
  import opened RegularText
  import opened EndOfText

  // ------------------------------------------------------------------------
  // The compiler in the middle of a text

  function Prev(tokens: seq<Token<Tree>>): Option<Token<Tree>> {
    if tokens == [] then None else Some(Last(tokens))
  }

  /** Reading `tokens` takes the machine to `st`. */
  ghost predicate Reached(cfg: Config, tokens: seq<Token<Tree>>, st: State) {
    forall more :: Run(cfg, None, tokens + more, EMPTY) == Run(cfg, Prev(tokens), more, st)
  }

  /** After `acc` the compiler goes through the rest of the text and succeeds. */
  predicate Alive(cfg: Config, acc: Tokenized, ls: seq<Lexeme>) {
    Tokenize(cfg, acc, ls).Ok? && Compile(cfg, Tokenize(cfg, acc, ls).value.tokens).Ok?
  }

  ghost predicate Live(cfg: Config, acc: Tokenized, st: State, ls: seq<Lexeme>) {
    Reached(cfg, acc.tokens, st) && Alive(cfg, acc, ls)
  }

  lemma {:induction false} TokenizeExtends(cfg: Config, acc: Tokenized, ls: seq<Lexeme>)
    requires Tokenize(cfg, acc, ls).Ok?
    ensures acc.tokens <= Tokenize(cfg, acc, ls).value.tokens
    decreases |ls|
  {
    if At(ls, 0).Eof? {
    } else if BuilderStart(ls).Some? {
      var start := BuilderStart(ls).value;
      var b := ParseBuilder(cfg, start.0, Built([], acc.log), ls[start.1..]).value;
      TokenizeExtends(cfg, Tokenized(acc.tokens + [Whole(b.tree)], b.log), b.rest);
    } else if TimestampStart(ls) {
      var clock := ParseTimestamp(ls[1..]).value;
      TokenizeExtends(cfg, Snoc(acc, Whole(Timestamp(clock))), ls[4..]);
    } else {
      var t: Result<(Token<Tree>, nat), Error> := SimpleToken(LastIsOperator(acc.tokens), ls);
      TokenizeExtends(cfg, Snoc(acc, t.value.0), ls[t.value.1..]);
    }
  }

  lemma {:induction false} ReachedSnoc(cfg: Config, tokens: seq<Token<Tree>>, st: State, toks: seq<Token<Tree>>,
                                       st1: State)
    requires Reached(cfg, tokens, st) && toks != [] && Leads(cfg, Prev(tokens), toks, st, false, st1)
    ensures Reached(cfg, tokens + toks, st1)
  {
    forall more ensures Run(cfg, None, tokens + toks + more, EMPTY) == Run(cfg, Prev(tokens + toks), more, st1) {
      Assoc(tokens, toks, more);
      assert Run(cfg, None, tokens + (toks + more), EMPTY) == Run(cfg, Prev(tokens), toks + more, st);
      assert Last(tokens + toks) == Last(toks);
    }
  }

  /** Past a piece of text that both the tokenizer and the machine get through. */
  lemma {:induction false} Proceed(cfg: Config, acc: Tokenized, st: State, text: seq<Lexeme>, rest: seq<Lexeme>,
                                   f: Follow,
                                   toks: seq<Token<Tree>>, log: seq<Tree>, st1: State)
    requires Live(cfg, acc, st, text + rest) && MayFollow(f, rest) && toks != []
    requires Scans(cfg, acc, text, f, false, toks, log) && Leads(cfg, Prev(acc.tokens), toks, st, false, st1)
    ensures Live(cfg, Extend(acc, toks, log), st1, rest)
  {
    ScansAt(cfg, acc, text, f, false, toks, log, rest);
    ReachedSnoc(cfg, acc.tokens, st, toks, st1);
  }

  lemma {:induction false} ProceedOp(cfg: Config, acc: Tokenized, st: State, ls: seq<Lexeme>, op: Operator, st1: State)
    requires Live(cfg, acc, st, ls) && ls != [] && OperatorOf(ls[0]) == Some(op)
             && Leads(cfg, Prev(acc.tokens), [Op(op)], st, false, st1)
    ensures Live(cfg, Extend(acc, [Op(op)], []), st1, ls[1..])
  {
    HeadTail(ls);
    ScanOperator(cfg, acc, ls[0], op);
    Proceed(cfg, acc, st, [ls[0]], ls[1..], Anything, [Op(op)], [], st1);
  }

  /** The machine gets past the next token, whatever it is. */
  lemma {:induction false} NextStep(cfg: Config, acc: Tokenized, st: State, ls: seq<Lexeme>, t: Token<Tree>,
                                    acc1: Tokenized, ls1: seq<Lexeme>)
    requires Live(cfg, acc, st, ls) && acc1.tokens == acc.tokens + [t]
             && Tokenize(cfg, acc, ls) == Tokenize(cfg, acc1, ls1)
    ensures
      var all := Tokenize(cfg, acc, ls).value.tokens;
      |all| > |acc.tokens| && Step(cfg, Prev(acc.tokens), t, First(all[|acc.tokens| + 1..]), st).Ok?
  {
    var all := Tokenize(cfg, acc, ls).value.tokens;
    TokenizeExtends(cfg, acc1, ls1);
    var more := all[|acc.tokens| + 1..];
    assert all == acc.tokens + ([t] + more);
    RunCons(cfg, Prev(acc.tokens), t, more, st);
  }

  /** At the end of the text the machine finishes. */
  lemma {:induction false} EndStep(cfg: Config, acc: Tokenized, st: State, ls: seq<Lexeme>)
    requires Live(cfg, acc, st, ls) && At(ls, 0).Eof?
    ensures Finish(cfg, st).Ok?
  {
    assert acc.tokens + [] == acc.tokens;
    assert Run(cfg, None, acc.tokens + [], EMPTY) == Run(cfg, Prev(acc.tokens), [], st);
  }

  // ------------------------------------------------------------------------
  // The end of an expression

  /** The compiler has read `e`, which is followed by something that ends it. */
  ghost predicate AtEnd(cfg: Config, acc: Tokenized, st: State, e: Expr, ls: seq<Lexeme>) {
    && !cfg.disallowChaining && EndsIn(acc.tokens, e) && Blocks(st.ops, 1)
    && Live(cfg, acc, Pending(st, e), ls) && WantsOperator(ls) && Level(cfg, ls) == 0
  }

  lemma {:induction false} CollapsesTo(cfg: Config, st: State, e: Expr)
    requires !cfg.disallowChaining && Operands(e) && Blocks(st.ops, 1)
    ensures Collapse(cfg, 1, Pending(st, e)) == Ok(Reduced(st, e))
  {
    SpineShrinks(cfg, st, e);
    BindingBounds(cfg, e);
    assert Collapse(cfg, 1, Reduced(st, e)) == Ok(Reduced(st, e));
  }

  lemma {:induction false} Enders(cfg: Config, ls: seq<Lexeme>)
    requires WantsOperator(ls) && Level(cfg, ls) == 0
    ensures At(ls, 0).Eof? || At(ls, 0).RParen? || At(ls, 0).RBracket? || At(ls, 0).CommaSign?
  {
    OperatorHead(ls);
    NoLevel(cfg, ls);
  }

  lemma {:induction false} OperatorHead(ls: seq<Lexeme>)
    requires WantsOperator(ls)
    ensures
      var l := At(ls, 0);
      l.Eof? || InfixOf(l).Some? || l.LBracket? || l.CommaSign? || l.RParen? || l.RBracket? || DirectFieldAccess(l)
  {
  }

  lemma {:induction false} NoLevel(cfg: Config, ls: seq<Lexeme>)
    requires Level(cfg, ls) == 0
    ensures InfixOf(At(ls, 0)).None? && !At(ls, 0).LBracket? && !DirectFieldAccess(At(ls, 0))
  {
    if InfixOf(At(ls, 0)).Some? {
      InfixLexemeOf(At(ls, 0));
    }
  }

  lemma {:induction false} NoOpenEnd(cfg: Config, acc: Tokenized, st: State, e: Expr, ls: seq<Lexeme>)
    requires AtEnd(cfg, acc, st, e, ls) && At(ls, 0).Eof?
    ensures LeftParen !in st.ops && LeftSquareBracket !in st.ops
  {
    EndStep(cfg, acc, Pending(st, e), ls);
    assert forall op | op in st.ops :: op in Pending(st, e).ops;
  }

  lemma {:induction false} OperatorStep(cfg: Config, acc: Tokenized, st: State, ls: seq<Lexeme>, op: Operator)
    requires Live(cfg, acc, st, ls) && ls != [] && OperatorOf(ls[0]) == Some(op)
    ensures exists next :: Step(cfg, Prev(acc.tokens), Op(op), next, st).Ok?
  {
    ScanOperator(cfg, acc, ls[0], op);
    assert ls == [ls[0]] + ls[1..];
    ScansAt(cfg, acc, [ls[0]], Anything, false, [Op(op)], [], ls[1..]);
    NextStep(cfg, acc, st, ls, Op(op), Extend(acc, [Op(op)], []), ls[1..]);
  }

  /** The reduced state accepts what ends the expression. */
  predicate Accepts(cfg: Config, l: Lexeme, found: bool, st: State) {
    match l
    case CommaSign => AfterComma(st).Ok?
    case RParen => CloseParen(cfg, found, st).Ok?
    case RBracket => CloseBracket(st).Ok?
    case _ => false
  }

  lemma {:induction false} EndingStep(cfg: Config, prev: Option<Token<Tree>>, l: Lexeme, op: Operator,
                                      next: Option<Token<Tree>>, st: State, st1: State)
    requires OperatorOf(l) == Some(op) && (l.CommaSign? || l.RParen? || l.RBracket?)
    requires Step(cfg, prev, Op(op), next, st).Ok? && Collapse(cfg, 1, st) == Ok(st1)
    ensures Accepts(cfg, l, |st1.ops| != |st.ops|, st1)
  {
  }

  /** What ends an expression finds its operators reduced. */
  lemma {:induction false} ReducedEnd(cfg: Config, acc: Tokenized, st: State, e: Expr, ls: seq<Lexeme>, op: Operator)
    requires AtEnd(cfg, acc, st, e, ls) && ls != [] && OperatorOf(ls[0]) == Some(op)
             && (ls[0].CommaSign? || ls[0].RParen? || ls[0].RBracket?)
    ensures Accepts(cfg, ls[0], |st.ops| != |Pending(st, e).ops|, Reduced(st, e))
  {
    CollapsesTo(cfg, st, e);
    OperatorStep(cfg, acc, Pending(st, e), ls, op);
    var next :| Step(cfg, Prev(acc.tokens), Op(op), next, Pending(st, e)).Ok?;
    EndingStep(cfg, Prev(acc.tokens), ls[0], op, next, Pending(st, e), Reduced(st, e));
  }

  lemma Refused(cfg: Config, l: Lexeme, found: bool, st: State)
    requires Accepts(cfg, l, found, st)
    ensures st.ops != [] && (Last(st.ops).LeftSquareBracket? ==> l.RBracket?)
    ensures Last(st.ops).LeftParen? ==> !l.RBracket?
    ensures Front(st.ops) == [] || !IsFunctionLike(Last(Front(st.ops))) ==> !l.CommaSign?
  {
  }

  /** What follows, if it is not the end, is accepted by the reduced state. */
  lemma {:induction false} WhatEnds(cfg: Config, acc: Tokenized, st: State, e: Expr, ls: seq<Lexeme>)
    requires AtEnd(cfg, acc, st, e, ls)
    ensures At(ls, 0).Eof? ==> LeftParen !in st.ops && LeftSquareBracket !in st.ops
    ensures !At(ls, 0).Eof? ==> Accepts(cfg, At(ls, 0), |st.ops| != |Pending(st, e).ops|, Reduced(st, e))
  {
    Enders(cfg, ls);
    if At(ls, 0).Eof? {
      NoOpenEnd(cfg, acc, st, e, ls);
    } else {
      var op := if At(ls, 0).CommaSign? then Comma else if At(ls, 0).RParen? then RightParen else RightSquareBracket;
      ReducedEnd(cfg, acc, st, e, ls, op);
    }
  }

  /** At the top of a text an expression is followed by the end. */
  lemma {:induction false} TopEnd(cfg: Config, acc: Tokenized, st: State, e: Expr, ls: seq<Lexeme>)
    requires AtEnd(cfg, acc, st, e, ls) && st.ops == []
    ensures At(ls, 0).Eof?
  {
    WhatEnds(cfg, acc, st, e, ls);
    if !At(ls, 0).Eof? {
      Refused(cfg, At(ls, 0), |st.ops| != |Pending(st, e).ops|, Reduced(st, e));
    }
  }

  /** Inside a subscript it is followed by the closing bracket. */
  lemma {:induction false} SubscriptEnd(cfg: Config, acc: Tokenized, st: State, e: Expr, ls: seq<Lexeme>)
    requires AtEnd(cfg, acc, st, e, ls) && st.ops != [] && Last(st.ops).LeftSquareBracket?
    ensures At(ls, 0).RBracket?
  {
    WhatEnds(cfg, acc, st, e, ls);
    if !At(ls, 0).Eof? {
      Refused(cfg, At(ls, 0), |st.ops| != |Pending(st, e).ops|, Reduced(st, e));
    }
  }

  /** Inside a call it is followed by a comma or the closing parenthesis. */
  lemma {:induction false} ArgumentEnd(cfg: Config, acc: Tokenized, st: State, e: Expr, ls: seq<Lexeme>)
    requires AtEnd(cfg, acc, st, e, ls) && st.ops != [] && Last(st.ops).LeftParen?
    ensures At(ls, 0).RParen? || At(ls, 0).CommaSign?
  {
    WhatEnds(cfg, acc, st, e, ls);
    if !At(ls, 0).Eof? {
      Refused(cfg, At(ls, 0), |st.ops| != |Pending(st, e).ops|, Reduced(st, e));
    }
  }

  /** Inside a group it is followed by the closing parenthesis, and the group is not redundant. */
  lemma {:induction false} GroupEnd(cfg: Config, acc: Tokenized, st: State, below: seq<Operator>, e: Expr,
                                    ls: seq<Lexeme>)
    requires AtEnd(cfg, acc, st, e, ls) && st.ops == below + [LeftParen]
             && (below == [] || !IsFunctionLike(Last(below)))
    ensures At(ls, 0).RParen? && GroupOk(below != [] && IsUnary(Last(below)), e)
  {
    assert Front(st.ops) == below && Last(st.ops) == LeftParen;
    WhatEnds(cfg, acc, st, e, ls);
    if !At(ls, 0).Eof? {
      Refused(cfg, At(ls, 0), |st.ops| != |Pending(st, e).ops|, Reduced(st, e));
    }
    BareIsBuild(e);
    NotRedundant(cfg, PendingOps(e) != [], Reduced(st, e), below, Value(e));
  }

  lemma NotRedundant(cfg: Config, found: bool, st: State, below: seq<Operator>, x: Operand<Tree>)
    requires st.ops == below + [LeftParen] && (below == [] || !IsFunctionLike(Last(below))) && st.operands != []
             && Last(st.operands) == x
    requires CloseParen(cfg, found, st).Ok?
    ensures found || (!x.parenthesized && x.value.Builder?) || (below != [] && IsUnary(Last(below)))
  {
    assert Front(st.ops) == below;
  }

  lemma {:induction false} BareIsBuild(e: Expr)
    requires Operands(e)
    ensures !Value(e).parenthesized && Value(e).value.Builder? ==> e.Build?
    ensures PendingOps(e) != [] ==> e.Prefix? || e.Infix? || e.Raise? || e.Index?
  {
  }

  // ------------------------------------------------------------------------
  // Following the parser

  /** The machine is ready for an operand of operators of level `min`. */
  predicate OperandPlace(min: nat, guarded: bool, acc: Tokenized, ops: seq<Operator>) {
    && LastIsOperator(acc.tokens) && Blocks(ops, if min == 0 then 1 else min)
    && (ops == [] || !IsFunctionLike(Last(ops))) && (guarded <==> ops != [] && IsUnary(Last(ops)))
  }

  /** The compiler succeeds on a regular text, of which `ls` is left where an operand is wanted. */
  ghost predicate Place(cfg: Config, min: nat, guarded: bool, acc: Tokenized, st: State, open: seq<Slot>,
                        ls: seq<Lexeme>) {
    && !cfg.disallowChaining && min <= 16 && OperandPlace(min, guarded, acc, st.ops) && Live(cfg, acc, st, ls)
    && WantsOperand(ls) && ArityFrom(open, ls) && WellLexed(ls)
  }

  lemma NamedSuffix(ls: seq<Lexeme>, k: nat)
    requires WellLexed(ls) && k <= |ls|
    ensures WellLexed(ls[k..])
  {
  }

  /** The parser has read `e`, and what is left is regular where an operator is wanted. */
  ghost predicate Goes(open: seq<Slot>, e: Expr, rest: seq<Lexeme>) {
    && WantsOperator(rest) && ArityFrom(open, rest) && WellLexed(rest)
    && (EndsInBuilder(e) ==> !DirectFieldAccess(At(rest, 0)))
  }

  lemma {:induction false} GoesFollows(open: seq<Slot>, e: Expr, rest: seq<Lexeme>)
    requires Goes(open, e, rest)
    ensures MayFollow(AfterOperand(EndsInBuilder(e)), rest)
  {
    if At(rest, 0).Identifier? {
      assert WantsOperator(rest[1..]) && At(rest[1..], 0) == At(rest, 1);
    }
  }

  lemma {:induction false} PlaceReady(cfg: Config, min: nat, guarded: bool, acc: Tokenized, st: State, e: Expr)
    requires OperandPlace(min, guarded, acc, st.ops) && Operands(e) && WellFormed(cfg, e, guarded)
             && LeftBinding(cfg, e) >= min
    ensures ScanReady(cfg, acc, e, guarded) && Ready(cfg, e, guarded, st.ops)
  {
    BindingBounds(cfg, e);
  }

  /** The tokens end in those of `e`, which are an operand. */
  ghost predicate EndsIn(tokens: seq<Token<Tree>>, e: Expr) {
    Operands(e) && tokens != [] && Last(tokens) == Last(Tokens(e)) && !LastIsOperator(tokens)
  }

  lemma {:induction false} ExtendEndsIn(acc: Tokenized, e: Expr)
    requires Operands(e)
    ensures EndsIn(Extend(acc, Tokens(e), FieldLog(e)).tokens, e)
  {
    LastTokenIsOperand(e);
    assert Last(acc.tokens + Tokens(e)) == Last(Tokens(e));
  }

  /** The compiler gets past the expression that the parser has read. */
  lemma {:induction false} Past(cfg: Config, min: nat, guarded: bool, acc: Tokenized, st: State, open: seq<Slot>,
                                ls: seq<Lexeme>, e: Expr, rest: seq<Lexeme>)
    requires Place(cfg, min, guarded, acc, st, open, ls) && Spells(cfg, guarded, e, ls, rest)
             && LeftBinding(cfg, e) >= min && Goes(open, e, rest)
    ensures Live(cfg, Extend(acc, Tokens(e), FieldLog(e)), Pending(st, e), rest)
            && EndsIn(Extend(acc, Tokens(e), FieldLog(e)).tokens, e)
  {
    PlaceReady(cfg, min, guarded, acc, st, e);
    GoesFollows(open, e, rest);
    PastReady(cfg, guarded, acc, st, e, rest);
    ExtendEndsIn(acc, e);
  }

  lemma {:induction false} PastReady(cfg: Config, guarded: bool, acc: Tokenized, st: State, e: Expr, rest: seq<Lexeme>)
    requires !cfg.disallowChaining && ScanReady(cfg, acc, e, guarded) && Ready(cfg, e, guarded, st.ops)
    requires Live(cfg, acc, st, Print(e) + rest) && MayFollow(AfterOperand(EndsInBuilder(e)), rest)
    ensures Live(cfg, Extend(acc, Tokens(e), FieldLog(e)), Pending(st, e), rest)
  {
    ScanExpr(cfg, acc, e, guarded);
    ReadExpr(cfg, e, guarded, Prev(acc.tokens), st);
    Proceed(cfg, acc, st, Print(e), rest, AfterOperand(EndsInBuilder(e)), Tokens(e), FieldLog(e), Pending(st, e));
  }

  /** The parser got through, and what is left is regular. */
  ghost predicate Took(open: seq<Slot>, r: Option<Found>) {
    r.Some? && Goes(open, r.value.e, r.value.rest)
  }

  lemma {:induction false} ParsesExpr(cfg: Config, min: nat, guarded: bool, acc: Tokenized, st: State, open: seq<Slot>,
                                      ls: seq<Lexeme>)
    requires Place(cfg, min, guarded, acc, st, open, ls)
    ensures Took(open, ParseExpr(cfg, min, guarded, ls))
            && ReadAt(cfg, min, guarded, ls, ParseExpr(cfg, min, guarded, ls).value)
    decreases |ls|, 6
  {
    ParsesOperand(cfg, min, guarded, acc, st, open, ls);
    PrimarySound(cfg, guarded, ls);
    var left := ParsePrimary(cfg, guarded, ls).value;
    ParsesOperators(cfg, min, guarded, acc, st, open, ls, left.e, left.rest);
    ExprSound(cfg, min, guarded, ls);
  }

  /** Of a text that starts in an operand place, `left` has been read. */
  ghost predicate Started(cfg: Config, min: nat, guarded: bool, acc: Tokenized, st: State, open: seq<Slot>,
                          all: seq<Lexeme>, left: Expr, ls: seq<Lexeme>) {
    && Place(cfg, min, guarded, acc, st, open, all) && Spells(cfg, guarded, left, all, ls) && Fits(cfg, min, left, ls)
    && Goes(open, left, ls)
    && |ls| < |all|
  }

  lemma {:induction false} ParsesOperators(cfg: Config, min: nat, guarded: bool, acc: Tokenized, st: State,
                                           open: seq<Slot>, all: seq<Lexeme>, left: Expr, ls: seq<Lexeme>)
    requires Started(cfg, min, guarded, acc, st, open, all, left, ls)
    ensures Took(open, ParseOperators(cfg, min, left, ls))
    decreases |all|, 5, |ls|
  {
    if Level(cfg, ls) != 0 && Level(cfg, ls) >= min {
      ParsesOperator(cfg, min, guarded, acc, st, open, all, left, ls);
      OperatorSound(cfg, min, guarded, left, all, ls);
      var more := ParseOperator(cfg, left, ls).value;
      ParsesOperators(cfg, min, guarded, acc, st, open, all, more.e, more.rest);
    }
  }

  /** `left` has been read, by the compiler too, and `ls` is left. */
  ghost predicate HasRead(cfg: Config, min: nat, acc: Tokenized, st: State, open: seq<Slot>, left: Expr,
                          ls: seq<Lexeme>) {
    && !cfg.disallowChaining && EndsIn(acc.tokens, left) && Live(cfg, acc, Pending(st, left), ls)
    && Goes(open, left, ls)
    && Blocks(st.ops, if min == 0 then 1 else min) && (Level(cfg, ls) <= RightBinding(left) || Enters(cfg, left, ls))
  }

  lemma {:induction false} ParsesOperator(cfg: Config, min: nat, guarded: bool, acc: Tokenized, st: State,
                                          open: seq<Slot>, all: seq<Lexeme>, left: Expr, ls: seq<Lexeme>)
    requires Started(cfg, min, guarded, acc, st, open, all, left, ls) && Level(cfg, ls) != 0 && Level(cfg, ls) >= min
    ensures Took(open, ParseOperator(cfg, left, ls))
    decreases |all|, 4
  {
    Past(cfg, min, guarded, acc, st, open, all, left, ls);
    var acc1 := Extend(acc, Tokens(left), FieldLog(left));
    if InfixOf(At(ls, 0)).Some? {
      ParsesInfix(cfg, min, acc1, st, open, left, ls, InfixOf(ls[0]).value);
    } else if At(ls, 0).LBracket? {
      ParsesSubscript(cfg, min, acc1, st, open, left, ls);
    } else {
      ParsesAccess(cfg, acc1, Pending(st, left), open, left, ls);
    }
  }

  /** An infix operator, and its right operand. */
  lemma {:induction false} ParsesInfix(cfg: Config, min: nat, acc: Tokenized, st: State, open: seq<Slot>, left: Expr,
                                       ls: seq<Lexeme>, op: Operator)
    requires Level(cfg, ls) != 0 && HasRead(cfg, min, acc, st, open, left, ls) && ls != [] && InfixOf(ls[0]) == Some(op)
             && min <= Target(cfg, op)
    ensures Took(open, ParseOperator(cfg, left, ls))
    decreases |ls|, 7
  {
    var st1 := AfterInfix(cfg, min, acc, st, open, left, ls, op);
    RightLevelBound(ls[0]);
    InfixPlace(cfg, acc, st1, open, left, ls, op);
    ParsesExpr(cfg, RightLevel(op), false, Extend(acc, [Op(op)], []), st1, open, ls[1..]);
    InfixDone(cfg, open, left, ls, op, ParseExpr(cfg, RightLevel(op), false, ls[1..]).value);
  }

  lemma {:induction false} InfixDone(cfg: Config, open: seq<Slot>, left: Expr, ls: seq<Lexeme>, op: Operator,
                                     right: Found)
    requires ls != [] && InfixOf(ls[0]) == Some(op) && Level(cfg, ls) != 0
    requires ParseExpr(cfg, RightLevel(op), false, ls[1..]) == Some(right) && Goes(open, right.e, right.rest)
    ensures Took(open, ParseOperator(cfg, left, ls))
  {
  }

  lemma {:induction false} AfterInfix(cfg: Config, min: nat, acc: Tokenized, st: State, open: seq<Slot>, left: Expr,
                                      ls: seq<Lexeme>, op: Operator) returns (st1: State)
    requires HasRead(cfg, min, acc, st, open, left, ls) && ls != [] && InfixOf(ls[0]) == Some(op)
             && min <= Target(cfg, op)
    ensures Live(cfg, Extend(acc, [Op(op)], []), st1, ls[1..]) && st1.ops != [] && Last(st1.ops) == op
  {
    InfixLexemeOf(ls[0]);
    st1 := InfixLeads(cfg, min, st, left, ls, op);
    ScanInfixLexeme(cfg, acc, op);
    HeadTail(ls);
    Proceed(cfg, acc, Pending(st, left), [ls[0]], ls[1..], Anything, [Op(op)], [], st1);
  }

  lemma {:induction false} InfixLeads(cfg: Config, min: nat, st: State, left: Expr, ls: seq<Lexeme>, op: Operator)
      returns (st1: State)
    requires !cfg.disallowChaining && Operands(left) && ls != [] && IsInfix(op) && InfixOf(ls[0]) == Some(op)
             && min <= Target(cfg, op)
    requires Blocks(st.ops, if min == 0 then 1 else min)
             && (Level(cfg, ls) <= RightBinding(left) || Enters(cfg, left, ls))
    ensures Leads(cfg, Some(Last(Tokens(left))), [Op(op)], Pending(st, left), false, st1) && st1.ops != []
            && Last(st1.ops) == op
  {
    if Target(cfg, op) <= RightBinding(left) {
      st1 := State(st.operands + [Value(left)], st.ops + [op]);
      ReadLeftEnd(cfg, op, left, st);
    } else {
      var st0 := Pending(st, left);
      st1 := State(st0.operands, st0.ops + [op]);
      assert Last(st0.ops) == Subscript;
      ReadInfixOp(cfg, Some(Last(Tokens(left))), op, Target(cfg, op), st0, false, st0);
    }
  }

  lemma {:induction false} InfixPlace(cfg: Config, acc: Tokenized, st1: State, open: seq<Slot>, left: Expr,
                                      ls: seq<Lexeme>, op: Operator)
    requires !cfg.disallowChaining && ls != [] && InfixOf(ls[0]) == Some(op) && Goes(open, left, ls)
    requires Live(cfg, Extend(acc, [Op(op)], []), st1, ls[1..]) && st1.ops != [] && Last(st1.ops) == op
             && RightLevel(op) <= 16
    ensures Place(cfg, RightLevel(op), false, Extend(acc, [Op(op)], []), st1, open, ls[1..])
  {
    InfixLexemeOf(ls[0]);
    HeadTail(ls);
    OperatorGoesOn(ls[0], open, ls[1..]);
    InfixOperandPlace(acc, st1.ops, op);
  }

  lemma InfixOperandPlace(acc: Tokenized, ops: seq<Operator>, op: Operator)
    requires IsInfix(op) && ops != [] && Last(ops) == op
    ensures OperandPlace(RightLevel(op), false, Extend(acc, [Op(op)], []), ops)
  {
  }

  // ------------------------------------------------------------------------
  // Subscripts and postfix fields

  lemma {:induction false} ParsesSubscript(cfg: Config, min: nat, acc: Tokenized, st: State, open: seq<Slot>,
                                           left: Expr, ls: seq<Lexeme>)
    requires Level(cfg, ls) != 0 && HasRead(cfg, min, acc, st, open, left, ls) && ls != [] && ls[0].LBracket?
             && min <= Level(cfg, ls)
    ensures Took(open, ParseOperator(cfg, left, ls))
    decreases |ls|, 7
  {
    var acc1, st1 := Extend(acc, [Op(LeftSquareBracket)], []),
        State(st.operands + [Value(left)], st.ops + [Subscript, LeftSquareBracket]);
    BracketBinds(cfg, left, ls);
    AfterBracket(cfg, min, acc, st, left, ls);
    BracketPlace(cfg, acc, st1, open, left, ls);
    ParsesExpr(cfg, 0, false, acc1, st1, open + [Plain], ls[1..]);
    SubscriptDone(cfg, acc1, st1, open, left, ls, ParseExpr(cfg, 0, false, ls[1..]).value);
  }

  lemma {:induction false} SubscriptDone(cfg: Config, acc: Tokenized, st: State, open: seq<Slot>, left: Expr,
                                         ls: seq<Lexeme>, i: Found)
    requires Level(cfg, ls) != 0 && ls != [] && ls[0].LBracket?
             && Place(cfg, 0, false, acc, st, open + [Plain], ls[1..])
    requires ParseExpr(cfg, 0, false, ls[1..]) == Some(i) && ReadAt(cfg, 0, false, ls[1..], i)
             && Goes(open + [Plain], i.e, i.rest)
    requires st.ops != [] && Last(st.ops).LeftSquareBracket?
    ensures Took(open, ParseOperator(cfg, left, ls))
  {
    PastClosed(cfg, acc, st, open + [Plain], ls[1..], i);
    SubscriptEnd(cfg, Extend(acc, Tokens(i.e), FieldLog(i.e)), st, i.e, i.rest);
    CloseGoes(open, Plain, i.rest, Index(left, i.e));
    SubscriptStep(cfg, left, ls, i);
  }

  lemma {:induction false} Shrunk(cfg: Config, st: State, e: Expr)
    requires !cfg.disallowChaining && Operands(e)
    ensures Shrinks(cfg, RightBinding(e), Pending(st, e), false, Reduced(st, e))
  {
    SpineShrinks(cfg, st, e);
  }

  lemma {:induction false} AfterBracket(cfg: Config, min: nat, acc: Tokenized, st: State, left: Expr, ls: seq<Lexeme>)
    requires !cfg.disallowChaining && Operands(left) && Live(cfg, acc, Pending(st, left), ls) && ls != []
             && ls[0].LBracket?
    requires Blocks(st.ops, if min == 0 then 1 else min) && min <= Precedence(Subscript) <= RightBinding(left)
    ensures Live(cfg, Extend(acc, [Op(LeftSquareBracket)], []),
            State(st.operands + [Value(left)], st.ops + [Subscript, LeftSquareBracket]), ls[1..])
  {
    BracketLeads(cfg, min, Prev(acc.tokens), st, left);
    ProceedOp(cfg, acc, Pending(st, left), ls, LeftSquareBracket,
        State(st.operands + [Value(left)], st.ops + [Subscript, LeftSquareBracket]));
  }

  lemma {:induction false} BracketBinds(cfg: Config, left: Expr, ls: seq<Lexeme>)
    requires ls != [] && ls[0].LBracket? && (Level(cfg, ls) <= RightBinding(left) || Enters(cfg, left, ls))
    ensures Level(cfg, ls) == Precedence(Subscript) <= RightBinding(left)
  {
  }

  lemma {:induction false} BracketLeads(cfg: Config, min: nat, prev: Option<Token<Tree>>, st: State, left: Expr)
    requires !cfg.disallowChaining && Operands(left)
    requires Blocks(st.ops, if min == 0 then 1 else min) && min <= Precedence(Subscript) <= RightBinding(left)
    ensures Leads(cfg, prev, [Op(LeftSquareBracket)], Pending(st, left), false,
                  State(st.operands + [Value(left)], st.ops + [Subscript, LeftSquareBracket]))
  {
    Shrunk(cfg, st, left);
    ReadLeftBracket(cfg, prev, RightBinding(left), Pending(st, left), false, Reduced(st, left));
  }

  lemma {:induction false} BracketPlace(cfg: Config, acc: Tokenized, st1: State, open: seq<Slot>, left: Expr,
                                        ls: seq<Lexeme>)
    requires !cfg.disallowChaining && ls != [] && ls[0].LBracket? && Goes(open, left, ls)
    requires Live(cfg, Extend(acc, [Op(LeftSquareBracket)], []), st1, ls[1..]) && st1.ops != []
             && Last(st1.ops) == LeftSquareBracket
    ensures Place(cfg, 0, false, Extend(acc, [Op(LeftSquareBracket)], []), st1, open + [Plain], ls[1..])
  {
    HeadTail(ls);
    BracketOpens(open, ls[1..]);
  }

  lemma {:induction false} PastClosed(cfg: Config, acc: Tokenized, st: State, open: seq<Slot>, ls: seq<Lexeme>,
                                      r: Found)
    requires Place(cfg, 0, false, acc, st, open, ls) && ReadAt(cfg, 0, false, ls, r) && Goes(open, r.e, r.rest)
    ensures AtEnd(cfg, Extend(acc, Tokens(r.e), FieldLog(r.e)), st, r.e, r.rest)
  {
    Past(cfg, 0, false, acc, st, open, ls, r.e, r.rest);
  }

  /** Past a closing bracket. */
  lemma {:induction false} CloseGoes(open: seq<Slot>, slot: Slot, rest: seq<Lexeme>, e: Expr)
    requires rest != [] && (rest[0].RParen? || rest[0].RBracket?) && WantsOperator(rest)
             && ArityFrom(open + [slot], rest) && WellLexed(rest)
    requires !EndsInBuilder(e)
    ensures Goes(open, e, rest[1..])
  {
    HeadTail(rest);
    OneMore(rest[0], rest[1..]);
    assert Front(open + [slot]) == open && Last(open + [slot]) == slot;
  }

  lemma {:induction false} ParsesAccess(cfg: Config, acc: Tokenized, st: State, open: seq<Slot>, left: Expr,
                                        ls: seq<Lexeme>)
    requires ls != [] && DirectFieldAccess(ls[0]) && Level(cfg, ls) != 0 && InfixOf(ls[0]).None?
    requires Live(cfg, acc, st, ls) && Goes(open, left, ls)
    ensures Took(open, ParseOperator(cfg, left, ls))
  {
    PathTaken(cfg, acc, ls);
    HeadTail(ls);
    PathGoesOn(ls[0].name, open, ls[1..]);
  }

  /** The tokenizer takes an identifier only if its parts are not empty. */
  lemma {:induction false} PathTaken(cfg: Config, acc: Tokenized, ls: seq<Lexeme>)
    requires Alive(cfg, acc, ls) && ls != [] && DirectFieldAccess(ls[0])
    ensures PostfixPathOk(ls[0].name)
  {
    assert BuilderStart(ls).None? && !TimestampStart(ls);
    var t: Result<(Token<Tree>, nat), Error> := SimpleToken(LastIsOperator(acc.tokens), ls);
    assert t.Ok?;
  }

  // ------------------------------------------------------------------------
  // Operands

  lemma {:induction false} ParsesOperand(cfg: Config, min: nat, guarded: bool, acc: Tokenized, st: State,
                                         open: seq<Slot>, ls: seq<Lexeme>)
    requires Place(cfg, min, guarded, acc, st, open, ls)
    ensures Took(open, ParsePrimary(cfg, guarded, ls))
    decreases |ls|, 5
  {
    var l := At(ls, 0);
    if l.Truth? || l.Number? || (l.MinusSign? && At(ls, 1).Number?) || TimestampStart(ls) {
      ParsesLeaf(cfg, guarded, acc, open, ls);
    } else if l.MinusSign? || l.Exclamation? {
      ParsesPrefix(cfg, min, guarded, acc, st, open, ls, if l.MinusSign? then UnaryMinus else Not);
    } else if l.LParen? {
      ParsesGroup(cfg, min, guarded, acc, st, open, ls);
    } else if BuilderStart(ls).Some? {
      ParsesBuild(cfg, guarded, acc, open, ls);
    } else if l.Identifier? && FunctionNamed(l.name).Some? {
      ParsesCall(cfg, min, guarded, acc, st, open, ls, FunctionNamed(l.name).value);
    } else {
      ParsesName(cfg, guarded, acc, st, open, ls);
    }
  }

  lemma {:induction false} ParsesLeaf(cfg: Config, guarded: bool, acc: Tokenized, open: seq<Slot>, ls: seq<Lexeme>)
    requires Alive(cfg, acc, ls) && LastIsOperator(acc.tokens) && WantsOperand(ls) && ArityFrom(open, ls)
             && WellLexed(ls)
    requires At(ls, 0).Truth? || At(ls, 0).Number? || (At(ls, 0).MinusSign? && At(ls, 1).Number?) || TimestampStart(ls)
    ensures Took(open, ParsePrimary(cfg, guarded, ls))
  {
    assert BuilderStart(ls).None?;
    if At(ls, 0).MinusSign? {
      NegativeGoes(open, ls);
    } else if TimestampStart(ls) {
      TimestampTaken(cfg, acc, ls);
    }
  }

  lemma {:induction false} NegativeGoes(open: seq<Slot>, ls: seq<Lexeme>)
    requires WantsOperand(ls) && ArityFrom(open, ls) && At(ls, 0).MinusSign? && At(ls, 1).Number?
    ensures WantsOperator(ls[2..]) && ArityFrom(open, ls[2..])
  {
    assert WantsOperand(ls[1..]) && ArityFrom(open, ls[1..]) && At(ls[1..], 0) == ls[1] && ls[1..][1..] == ls[2..];
  }

  lemma {:induction false} TimestampTaken(cfg: Config, acc: Tokenized, ls: seq<Lexeme>)
    requires Alive(cfg, acc, ls) && TimestampStart(ls)
    ensures At(ls, 2).Identifier? && At(ls, 3).RParen? && ClockNamed(ls[2].name).Some?
  {
    assert BuilderStart(ls).None?;
    assert ParseTimestamp(ls[1..]).Ok?;
    assert At(ls[1..], 1) == At(ls, 2) && At(ls[1..], 2) == At(ls, 3);
  }

  lemma {:induction false} ParsesName(cfg: Config, guarded: bool, acc: Tokenized, st: State, open: seq<Slot>,
                                      ls: seq<Lexeme>)
    requires Live(cfg, acc, st, ls) && LastIsOperator(acc.tokens) && WantsOperand(ls) && ArityFrom(open, ls)
             && WellLexed(ls)
    requires BuilderStart(ls).None? && !TimestampStart(ls) && At(ls, 0).Identifier?
             && FunctionNamed(At(ls, 0).name).None?
    ensures Took(open, ParsePrimary(cfg, guarded, ls))
  {
    NameTaken(cfg, acc, st, ls);
  }

  /** A path where an operand is wanted is a source path. */
  lemma {:induction false} NameTaken(cfg: Config, acc: Tokenized, st: State, ls: seq<Lexeme>)
    requires Live(cfg, acc, st, ls) && LastIsOperator(acc.tokens)
    requires BuilderStart(ls).None? && !TimestampStart(ls) && At(ls, 0).Identifier?
             && FunctionNamed(At(ls, 0).name).None?
    ensures PathOk(ls[0].name)
  {
    var t: Result<(Token<Tree>, nat), Error> := SimpleToken(LastIsOperator(acc.tokens), ls);
    var path: Token<Tree> := Path(SplitDots(ls[0].name));
    assert t == Ok((path, 1));
    NextStep(cfg, acc, st, ls, path, Snoc(acc, path), ls[1..]);
  }

  function PrefixLexeme(op: Operator): Lexeme { if op.Not? then Exclamation else MinusSign }

  /** `ls` starts with the prefix operator `op`. */
  predicate StartsPrefix(ls: seq<Lexeme>, op: Operator) {
    IsPrefix(op) && ls != [] && ls[0] == PrefixLexeme(op) && (op.UnaryMinus? ==> !At(ls, 1).Number?)
  }

  lemma {:induction false} ParsesPrefix(cfg: Config, min: nat, guarded: bool, acc: Tokenized, st: State,
                                        open: seq<Slot>, ls: seq<Lexeme>, op: Operator)
    requires Place(cfg, min, guarded, acc, st, open, ls) && StartsPrefix(ls, op)
    ensures Took(open, ParsePrimary(cfg, guarded, ls))
    decreases |ls|, 4
  {
    var acc1, st1 := Extend(acc, [Op(op)], []), State(st.operands, st.ops + [op]);
    PrefixPlace(cfg, acc, st, open, ls, op);
    var arg := ParseExpr(cfg, Precedence(op) + 1, true, ls[1..]);
    assert Took(open, arg) by {
      ParsesExpr(cfg, Precedence(op) + 1, true, acc1, st1, open, ls[1..]);
    }
    PrefixDone(cfg, guarded, open, ls, op, arg);
  }

  lemma {:induction false} PrefixPlace(cfg: Config, acc: Tokenized, st: State, open: seq<Slot>, ls: seq<Lexeme>,
                                       op: Operator)
    requires !cfg.disallowChaining && Live(cfg, acc, st, ls) && LastIsOperator(acc.tokens) && StartsPrefix(ls, op)
    requires WantsOperand(ls) && ArityFrom(open, ls) && WellLexed(ls)
    ensures Place(cfg, Precedence(op) + 1, true, Extend(acc, [Op(op)], []), State(st.operands, st.ops + [op]), open,
            ls[1..])
  {
    HeadTail(ls);
    PrefixGoesOn(ls[0], open, ls[1..]);
    NamedSuffix(ls, 1);
    PrefixLive(cfg, acc, st, ls, op);
    PrefixOperandPlace(acc, st.ops, op);
  }

  lemma PrefixOperandPlace(acc: Tokenized, ops: seq<Operator>, op: Operator)
    requires IsPrefix(op)
    ensures OperandPlace(Precedence(op) + 1, true, Extend(acc, [Op(op)], []), ops + [op]) && Precedence(op) + 1 <= 16
  {
    assert Last(ops + [op]) == op;
    assert Last(acc.tokens + [Op(op)]) == Op(op);
  }

  lemma GroupOperandPlace(acc: Tokenized, ops: seq<Operator>)
    ensures OperandPlace(0, false, Extend(acc, [Op(LeftParen)], []), ops + [LeftParen])
  {
    assert Last(ops + [LeftParen]) == LeftParen;
    assert Last(acc.tokens + [Op(LeftParen)]) == Op(LeftParen);
  }

  lemma {:induction false} PrefixLive(cfg: Config, acc: Tokenized, st: State, ls: seq<Lexeme>, op: Operator)
    requires Live(cfg, acc, st, ls) && LastIsOperator(acc.tokens) && StartsPrefix(ls, op)
    ensures Live(cfg, Extend(acc, [Op(op)], []), State(st.operands, st.ops + [op]), ls[1..])
  {
    HeadTail(ls);
    ReadOpening(cfg, Prev(acc.tokens), op, st);
    PrefixScans(cfg, acc, op);
    Proceed(cfg, acc, st, [ls[0]], ls[1..], if op.Not? then Anything else NotNumber, [Op(op)], [],
            State(st.operands, st.ops + [op]));
  }

  lemma {:induction false} PrefixScans(cfg: Config, acc: Tokenized, op: Operator)
    requires IsPrefix(op) && LastIsOperator(acc.tokens)
    ensures Scans(cfg, acc, [PrefixLexeme(op)], if op.Not? then Anything else NotNumber, false, [Op(op)], [])
  {
    ScanMinus(cfg, acc);
    ScanOperator(cfg, acc, Exclamation, Not);
  }

  lemma {:induction false} PrefixDone(cfg: Config, guarded: bool, open: seq<Slot>, ls: seq<Lexeme>, op: Operator,
                                      arg: Option<Found>)
    requires StartsPrefix(ls, op)
    requires ParseExpr(cfg, Precedence(op) + 1, true, ls[1..]) == arg && Took(open, arg)
    ensures Took(open, ParsePrimary(cfg, guarded, ls))
  {
    assert ParsePrefix(cfg, op, ls) == Some(Found(Prefix(op, arg.value.e), arg.value.rest));
  }

  lemma {:induction false} ParsesGroup(cfg: Config, min: nat, guarded: bool, acc: Tokenized, st: State, open: seq<Slot>,
                                       ls: seq<Lexeme>)
    requires Place(cfg, min, guarded, acc, st, open, ls) && ls != [] && ls[0].LParen?
    ensures Took(open, ParsePrimary(cfg, guarded, ls))
    decreases |ls|, 4
  {
    var acc1, st1 := Extend(acc, [Op(LeftParen)], []), State(st.operands, st.ops + [LeftParen]);
    GroupPlace(cfg, min, guarded, acc, st, open, ls);
    ParsesExpr(cfg, 0, false, acc1, st1, open + [Plain], ls[1..]);
    GroupDone(cfg, guarded, acc1, st1, st.ops, open, ls, ParseExpr(cfg, 0, false, ls[1..]).value);
  }

  lemma {:induction false} GroupPlace(cfg: Config, min: nat, guarded: bool, acc: Tokenized, st: State, open: seq<Slot>,
                                      ls: seq<Lexeme>)
    requires Place(cfg, min, guarded, acc, st, open, ls) && ls != [] && ls[0].LParen?
    ensures Place(cfg, 0, false, Extend(acc, [Op(LeftParen)], []), State(st.operands, st.ops + [LeftParen]),
            open + [Plain], ls[1..])
  {
    HeadTail(ls);
    ParenOpens(open, ls[1..]);
    GroupLive(cfg, acc, st, ls);
    GroupOperandPlace(acc, st.ops);
  }

  lemma {:induction false} GroupLive(cfg: Config, acc: Tokenized, st: State, ls: seq<Lexeme>)
    requires Live(cfg, acc, st, ls) && ls != [] && ls[0].LParen?
    ensures Live(cfg, Extend(acc, [Op(LeftParen)], []), State(st.operands, st.ops + [LeftParen]), ls[1..])
  {
    ReadOpening(cfg, Prev(acc.tokens), LeftParen, st);
    ProceedOp(cfg, acc, st, ls, LeftParen, State(st.operands, st.ops + [LeftParen]));
  }

  lemma {:induction false} GroupDone(cfg: Config, guarded: bool, acc: Tokenized, st: State, below: seq<Operator>,
                                     open: seq<Slot>, ls: seq<Lexeme>, x: Found)
    requires ls != [] && ls[0].LParen? && Place(cfg, 0, false, acc, st, open + [Plain], ls[1..])
             && st.ops == below + [LeftParen]
    requires (below == [] || !IsFunctionLike(Last(below))) && (guarded <==> below != [] && IsUnary(Last(below)))
    requires ParseExpr(cfg, 0, false, ls[1..]) == Some(x) && ReadAt(cfg, 0, false, ls[1..], x)
             && Goes(open + [Plain], x.e, x.rest)
    ensures Took(open, ParsePrimary(cfg, guarded, ls))
  {
    PastClosed(cfg, acc, st, open + [Plain], ls[1..], x);
    GroupEnd(cfg, Extend(acc, Tokens(x.e), FieldLog(x.e)), st, below, x.e, x.rest);
    CloseGoes(open, Plain, x.rest, Group(x.e));
    GroupParses(cfg, guarded, ls, x);
  }

  lemma {:induction false} GroupParses(cfg: Config, guarded: bool, ls: seq<Lexeme>, x: Found)
    requires ls != [] && ls[0].LParen? && ParseExpr(cfg, 0, false, ls[1..]) == Some(x)
    requires x.rest != [] && x.rest[0].RParen? && GroupOk(guarded, x.e)
    ensures ParsePrimary(cfg, guarded, ls) == Some(Found(Group(x.e), x.rest[1..]))
  {
  }

  // ------------------------------------------------------------------------
  // Calls

  lemma {:induction false} ParsesCall(cfg: Config, min: nat, guarded: bool, acc: Tokenized, st: State, open: seq<Slot>,
                                      ls: seq<Lexeme>, fn: Operator)
    requires Place(cfg, min, guarded, acc, st, open, ls) && ls != [] && ls[0].Identifier?
             && FunctionNamed(ls[0].name) == Some(fn)
    requires BuilderStart(ls).None? && !TimestampStart(ls)
    ensures Took(open, ParsePrimary(cfg, guarded, ls))
    decreases |ls|, 4
  {
    FunctionNameOf(ls[0].name);
    CallHasParen(cfg, acc, st, ls, fn);
    var acc1, st1 := Extend(acc, [Op(fn), Op(LeftParen)], []), State(st.operands, st.ops + [fn, LeftParen]);
    var open1 := open + [Slot.Call(if IsUnary(fn) then 0 else 1)];
    CallPlace(cfg, acc, st, open, ls, fn);
    ParsesExpr(cfg, 0, false, acc1, st1, open1, ls[2..]);
    var first := ParseExpr(cfg, 0, false, ls[2..]).value;
    PastClosed(cfg, acc1, st1, open1, ls[2..], first);
    var acc2 := Extend(acc1, Tokens(first.e), FieldLog(first.e));
    if IsUnary(fn) {
      Call1Done(cfg, acc2, st1, open, fn, ls, first);
    } else {
      ParsesSecond(cfg, acc2, st1, st.ops, open, fn, ls, first);
    }
  }

  /** A function name is followed by a parenthesis. */
  lemma {:induction false} CallHasParen(cfg: Config, acc: Tokenized, st: State, ls: seq<Lexeme>, fn: Operator)
    requires Live(cfg, acc, st, ls) && ls != [] && ls[0].Identifier? && FunctionNamed(ls[0].name) == Some(fn)
             && IsFunctionLike(fn)
    requires BuilderStart(ls).None? && !TimestampStart(ls)
    ensures At(ls, 1).LParen?
  {
    var t: Result<(Token<Tree>, nat), Error> := SimpleToken(LastIsOperator(acc.tokens), ls);
    var acc1 := Snoc(acc, Op(fn));
    assert t == Ok((Op(fn), 1));
    NextStep(cfg, acc, st, ls, Op(fn), acc1, ls[1..]);
    ParenToken(cfg, acc1, ls[1..]);
    assert At(ls[1..], 0) == At(ls, 1);
  }

  lemma {:induction false} ParenToken(cfg: Config, acc: Tokenized, ls: seq<Lexeme>)
    requires Tokenize(cfg, acc, ls).Ok?
    requires
      var all := Tokenize(cfg, acc, ls).value.tokens;
      |all| > |acc.tokens| && all[|acc.tokens|] == Op(LeftParen)
    ensures At(ls, 0).LParen?
  {
    var k := |acc.tokens|;
    if BuilderStart(ls).Some? {
      var start := BuilderStart(ls).value;
      var b := ParseBuilder(cfg, start.0, Built([], acc.log), ls[start.1..]).value;
      TokenAt(cfg, Tokenized(acc.tokens + [Whole(b.tree)], b.log), b.rest, k);
    } else if TimestampStart(ls) {
      TokenAt(cfg, Snoc(acc, Whole(Timestamp(ParseTimestamp(ls[1..]).value))), ls[4..], k);
    } else if !At(ls, 0).Eof? {
      var t: Result<(Token<Tree>, nat), Error> := SimpleToken(LastIsOperator(acc.tokens), ls);
      TokenAt(cfg, Snoc(acc, t.value.0), ls[t.value.1..], k);
      OnlyParen(LastIsOperator(acc.tokens), ls);
    }
  }

  /** Tokens once taken stay. */
  lemma {:induction false} TokenAt(cfg: Config, acc: Tokenized, ls: seq<Lexeme>, k: nat)
    requires Tokenize(cfg, acc, ls).Ok? && k < |acc.tokens|
    ensures k < |Tokenize(cfg, acc, ls).value.tokens| && Tokenize(cfg, acc, ls).value.tokens[k] == acc.tokens[k]
  {
    TokenizeExtends(cfg, acc, ls);
  }

  lemma {:induction false} OnlyParen(lastIsOperator: bool, ls: seq<Lexeme>)
    requires !At(ls, 0).Eof?
    ensures
      var t: Result<(Token<Tree>, nat), Error> := SimpleToken(lastIsOperator, ls);
      t.Ok? && t.value.0 == Op(LeftParen) ==> ls[0].LParen?
  {
    if ls[0].Identifier? && FunctionNamed(ls[0].name).Some? {
      FunctionNameOf(ls[0].name);
    }
  }

  lemma {:induction false} CallPlace(cfg: Config, acc: Tokenized, st: State, open: seq<Slot>, ls: seq<Lexeme>,
                                     fn: Operator)
    requires !cfg.disallowChaining && Live(cfg, acc, st, ls) && WantsOperand(ls) && ArityFrom(open, ls) && WellLexed(ls)
    requires |ls| >= 2 && IsFunctionLike(fn) && ls[0] == Identifier(FunctionName(fn)) && ls[1].LParen?
    ensures Place(cfg, 0, false, Extend(acc, [Op(fn), Op(LeftParen)], []), State(st.operands, st.ops + [fn, LeftParen]),
                  open + [Slot.Call(if IsUnary(fn) then 0 else 1)], ls[2..])
  {
    assert ls == [Identifier(FunctionName(fn)), LParen] + ls[2..];
    CallOpens(fn, open, ls[2..]);
    CallLive(cfg, acc, st, ls[2..], fn);
    ArgumentPlace(acc.tokens + [Op(fn), Op(LeftParen)], st.ops + [fn, LeftParen]);
  }

  lemma {:induction false} CallLive(cfg: Config, acc: Tokenized, st: State, rest: seq<Lexeme>, fn: Operator)
    requires IsFunctionLike(fn) && Live(cfg, acc, st, [Identifier(FunctionName(fn)), LParen] + rest)
    ensures Live(cfg, Extend(acc, [Op(fn), Op(LeftParen)], []), State(st.operands, st.ops + [fn, LeftParen]), rest)
  {
    ScanFunction(cfg, acc, fn);
    ReadFunctionName(cfg, Prev(acc.tokens), fn, st);
    Proceed(cfg, acc, st, [Identifier(FunctionName(fn)), LParen], rest, Anything, [Op(fn), Op(LeftParen)], [],
            State(st.operands, st.ops + [fn, LeftParen]));
  }

  lemma ArgumentPlace(tokens: seq<Token<Tree>>, ops: seq<Operator>)
    requires tokens != [] && (Last(tokens) == Op(LeftParen) || Last(tokens) == Op(Comma)) && ops != []
             && Last(ops) == LeftParen
    ensures forall log :: OperandPlace(0, false, Tokenized(tokens, log), ops)
  {
  }

  lemma {:induction false} Call1Done(cfg: Config, acc: Tokenized, st: State, open: seq<Slot>, fn: Operator,
                                     ls: seq<Lexeme>, x: Found)
    requires |ls| >= 2 && ls[0].Identifier? && FunctionNamed(ls[0].name) == Some(fn) && ls[1].LParen? && IsUnary(fn)
    requires BuilderStart(ls).None? && !TimestampStart(ls)
    requires ParseExpr(cfg, 0, false, ls[2..]) == Some(x) && Goes(open + [Slot.Call(0)], x.e, x.rest)
    requires AtEnd(cfg, acc, st, x.e, x.rest) && st.ops != [] && Last(st.ops).LeftParen?
    ensures forall guarded :: Took(open, ParsePrimary(cfg, guarded, ls))
  {
    ArgumentEnd(cfg, acc, st, x.e, x.rest);
    NoCommaDue(open, x.rest);
    CloseGoes(open, Slot.Call(0), x.rest, Call1(fn, x.e));
    assert ParseCall(cfg, fn, ls) == Some(Found(Call1(fn, x.e), x.rest[1..]));
  }

  lemma {:induction false} NoCommaDue(open: seq<Slot>, rest: seq<Lexeme>)
    requires ArityFrom(open + [Slot.Call(0)], rest)
    ensures !At(rest, 0).CommaSign?
  {
    assert Last(open + [Slot.Call(0)]) == Slot.Call(0);
  }

  lemma {:induction false} CommaDue(open: seq<Slot>, rest: seq<Lexeme>)
    requires ArityFrom(open + [Slot.Call(1)], rest)
    ensures !At(rest, 0).RParen?
  {
    assert Last(open + [Slot.Call(1)]) == Slot.Call(1);
  }

  lemma {:induction false} ParsesSecond(cfg: Config, acc: Tokenized, st: State, below: seq<Operator>, open: seq<Slot>,
                                        fn: Operator, ls: seq<Lexeme>, x: Found)
    requires |ls| >= 2 && ls[0].Identifier? && FunctionNamed(ls[0].name) == Some(fn) && ls[1].LParen?
             && IsFunctionLike(fn) && !IsUnary(fn)
    requires BuilderStart(ls).None? && !TimestampStart(ls)
    requires ParseExpr(cfg, 0, false, ls[2..]) == Some(x) && Goes(open + [Slot.Call(1)], x.e, x.rest)
    requires AtEnd(cfg, acc, st, x.e, x.rest) && st.ops == below + [fn, LeftParen]
    ensures forall guarded :: Took(open, ParsePrimary(cfg, guarded, ls))
    decreases |ls|, 3
  {
    ArgumentEnd(cfg, acc, st, x.e, x.rest);
    CommaDue(open, x.rest);
    SecondPlace(cfg, acc, st, below, open, fn, x);
    var acc2, st2 := Extend(acc, [Op(Comma)], []), Reduced(st, x.e);
    ParsesExpr(cfg, 0, false, acc2, st2, open + [Slot.Call(0)], x.rest[1..]);
    var y := ParseExpr(cfg, 0, false, x.rest[1..]).value;
    PastClosed(cfg, acc2, st2, open + [Slot.Call(0)], x.rest[1..], y);
    Call2Done(cfg, Extend(acc2, Tokens(y.e), FieldLog(y.e)), st2, open, fn, ls, x, y);
  }

  lemma {:induction false} SecondPlace(cfg: Config, acc: Tokenized, st: State, below: seq<Operator>, open: seq<Slot>,
                                       fn: Operator, x: Found)
    requires AtEnd(cfg, acc, st, x.e, x.rest) && st.ops == below + [fn, LeftParen] && IsFunctionLike(fn)
             && At(x.rest, 0).CommaSign?
    requires Goes(open + [Slot.Call(1)], x.e, x.rest)
    ensures Place(cfg, 0, false, Extend(acc, [Op(Comma)], []), Reduced(st, x.e), open + [Slot.Call(0)], x.rest[1..])
  {
    HeadTail(x.rest);
    CommaGoesOn(open, x.rest[1..]);
    CommaLive(cfg, acc, st, below, fn, x);
    ArgumentPlace(acc.tokens + [Op(Comma)], st.ops);
  }

  lemma {:induction false} CommaLive(cfg: Config, acc: Tokenized, st: State, below: seq<Operator>, fn: Operator,
                                     x: Found)
    requires !cfg.disallowChaining && EndsIn(acc.tokens, x.e) && Live(cfg, acc, Pending(st, x.e), x.rest)
    requires st.ops == below + [fn, LeftParen] && IsFunctionLike(fn) && x.rest != [] && x.rest[0].CommaSign?
    ensures Live(cfg, Extend(acc, [Op(Comma)], []), Reduced(st, x.e), x.rest[1..])
  {
    CommaLeads(cfg, st, below, fn, x.e);
    ProceedOp(cfg, acc, Pending(st, x.e), x.rest, Comma, Reduced(st, x.e));
  }

  lemma {:induction false} CommaLeads(cfg: Config, st: State, below: seq<Operator>, fn: Operator, e: Expr)
    requires !cfg.disallowChaining && Operands(e) && st.ops == below + [fn, LeftParen] && IsFunctionLike(fn)
    ensures Leads(cfg, Some(Last(Tokens(e))), [Op(Comma)], Pending(st, e), false, Reduced(st, e))
  {
    Shrunk(cfg, st, e);
    BindingBounds(cfg, e);
    LastTokenIsOperand(e);
    ReadComma(cfg, Last(Tokens(e)), RightBinding(e), Pending(st, e), false, Reduced(st, e), below, fn);
  }

  lemma {:induction false} Call2Done(cfg: Config, acc: Tokenized, st: State, open: seq<Slot>, fn: Operator,
                                     ls: seq<Lexeme>, x: Found, y: Found)
    requires |ls| >= 2 && ls[0].Identifier? && FunctionNamed(ls[0].name) == Some(fn) && ls[1].LParen? && !IsUnary(fn)
    requires BuilderStart(ls).None? && !TimestampStart(ls)
    requires ParseExpr(cfg, 0, false, ls[2..]) == Some(x) && x.rest != [] && x.rest[0].CommaSign?
    requires ParseExpr(cfg, 0, false, x.rest[1..]) == Some(y) && Goes(open + [Slot.Call(0)], y.e, y.rest)
    requires AtEnd(cfg, acc, st, y.e, y.rest) && st.ops != [] && Last(st.ops).LeftParen?
    ensures forall guarded :: Took(open, ParsePrimary(cfg, guarded, ls))
  {
    ArgumentEnd(cfg, acc, st, y.e, y.rest);
    NoCommaDue(open, y.rest);
    CloseGoes(open, Slot.Call(0), y.rest, Expr.Call2(fn, x.e, y.e));
    Call2Step(cfg, fn, ls, x, y);
  }

  // ------------------------------------------------------------------------
  // Builders

  lemma {:induction false} ParsesBuild(cfg: Config, guarded: bool, acc: Tokenized, open: seq<Slot>, ls: seq<Lexeme>)
    requires !cfg.disallowChaining && Alive(cfg, acc, ls) && BuilderStart(ls).Some? && WantsOperand(ls)
             && ArityFrom(open, ls) && WellLexed(ls)
    ensures Took(open, ParsePrimary(cfg, guarded, ls))
    decreases |ls|, 4
  {
    var start := BuilderStart(ls).value;
    var body := ls[start.1..];
    BuilderTaken(cfg, acc, open, ls);
    NamedSuffix(ls, start.1);
    if !At(body, 0).RCurly? {
      ParsesFields(cfg, start.0, Built([], acc.log), [], body);
    }
    BuildDone(cfg, guarded, acc, open, ls);
  }

  /** The tokenizer gets through the builder, whose fields are regular. */
  ghost predicate RegularBuilder(cfg: Config, ty: string, acc: Built, ls: seq<Lexeme>) {
    && ParseBuilder(cfg, ty, acc, ls).Ok? && SplitBuilder(ls).Some?
    && forall t | t in SplitBuilder(ls).value.texts :: Regular(t)
  }

  lemma {:induction false} BuilderTaken(cfg: Config, acc: Tokenized, open: seq<Slot>, ls: seq<Lexeme>)
    requires Alive(cfg, acc, ls) && BuilderStart(ls).Some? && WantsOperand(ls) && ArityFrom(open, ls)
    ensures
      var start := BuilderStart(ls).value;
      var body := ls[start.1..];
      && RegularBuilder(cfg, start.0, Built([], acc.log), body)
      && !DirectFieldAccess(At(ParseBuilder(cfg, start.0, Built([], acc.log), body).value.rest, 0))
      && WantsOperator(SplitBuilder(body).value.rest) && ArityFrom(open, SplitBuilder(body).value.rest)
  {
    var start := BuilderStart(ls).value;
    assert !At(ls, 0).Eof?;
    assert Tokenize(cfg, acc, ls) == TokenizeBuilder(cfg, acc, start.0, ls[start.1..]);
    RegularTexts(open, ls);
  }

  lemma {:induction false} RegularTexts(open: seq<Slot>, ls: seq<Lexeme>)
    requires BuilderStart(ls).Some? && WantsOperand(ls) && ArityFrom(open, ls)
    ensures
      var s := SplitBuilder(ls[BuilderStart(ls).value.1..]);
      s.Some? && (forall t | t in s.value.texts :: Regular(t)) && WantsOperator(s.value.rest)
          && ArityFrom(open, s.value.rest)
  {
    assert !At(ls, 0).Eof?;
  }

  lemma {:induction false} BuildDone(cfg: Config, guarded: bool, acc: Tokenized, open: seq<Slot>, ls: seq<Lexeme>)
    requires Alive(cfg, acc, ls) && BuilderStart(ls).Some? && WantsOperand(ls) && ArityFrom(open, ls) && WellLexed(ls)
    requires
      var body := ls[BuilderStart(ls).value.1..];
      !At(body, 0).RCurly? ==> FieldsParsed(cfg, BuilderStart(ls).value.0, Built([], acc.log), [], body)
    ensures Took(open, ParsePrimary(cfg, guarded, ls))
  {
    var start := BuilderStart(ls).value;
    BuilderTaken(cfg, acc, open, ls);
    BuildSome(cfg, acc, ls);
    var r := ParseBuild(cfg, ls).value;
    assert ParsePrimary(cfg, guarded, ls) == Some(r);
    PrimarySound(cfg, guarded, ls);
    NamedRest(Print(r.e), r.rest);
  }

  lemma NamedRest(a: seq<Lexeme>, b: seq<Lexeme>)
    requires WellLexed(a + b)
    ensures WellLexed(b)
  {
    NamedSuffix(a + b, |a|);
    assert (a + b)[|a|..] == b;
  }

  /** Tokenizer and parser agree where the builder ends. */
  ghost predicate FieldsParsed(cfg: Config, ty: string, acc: Built, facc: seq<FieldInit>, ls: seq<Lexeme>) {
    && ParseBuilder(cfg, ty, acc, ls).Ok? && SplitBuilder(ls).Some? && ParseFields(cfg, facc, ls).Some?
    && ParseFields(cfg, facc, ls).value.rest == SplitBuilder(ls).value.rest == ParseBuilder(cfg, ty, acc, ls).value.rest
  }

  lemma {:induction false} BuildSome(cfg: Config, acc: Tokenized, ls: seq<Lexeme>)
    requires BuilderStart(ls).Some? && WellLexed(ls)
    requires
      var start := BuilderStart(ls).value;
      var body := ls[start.1..];
      if At(body, 0).RCurly? then ParseBuilder(cfg, start.0, Built([], acc.log), body).Ok?
      else FieldsParsed(cfg, start.0, Built([], acc.log), [], body)
    ensures
      var start := BuilderStart(ls).value;
      var body := ls[start.1..];
      && ParseBuild(cfg, ls).Some? && ParseBuild(cfg, ls).value.e.Build? && SplitBuilder(body).Some?
      && ParseBuilder(cfg, start.0, Built([], acc.log), body).Ok?
      && ParseBuild(cfg, ls).value.rest == SplitBuilder(body).value.rest
            == ParseBuilder(cfg, start.0, Built([], acc.log), body).value.rest
  {
  }

  /** The names of the fields read so far. */
  ghost predicate SameNames(assigns: seq<Assign>, fields: seq<FieldInit>) {
    |assigns| == |fields| && forall i | 0 <= i < |fields| :: assigns[i].name == fields[i].name
  }

  /** `ls` starts with the field `name`, whose expression is `text`. */
  ghost predicate StartsField(acc: Built, ls: seq<Lexeme>, name: string, text: seq<Lexeme>, tail: seq<Lexeme>) {
    && ls == [Identifier(name), Colon] + (text + tail) && text != [] && tail != []
    && (tail[0].CommaSign? || tail[0].RCurly?)
    && Collect(text + tail, []) == Ok(|text|) && '.' !in name && forall i | 0 <= i < |acc.assigns| ::
          acc.assigns[i].name != name
  }

  lemma {:induction false} ParsesFields(cfg: Config, ty: string, acc: Built, facc: seq<FieldInit>, ls: seq<Lexeme>)
    requires !cfg.disallowChaining && RegularBuilder(cfg, ty, acc, ls) && WellLexed(ls) && !At(ls, 0).RCurly?
             && SameNames(acc.assigns, facc)
    ensures FieldsParsed(cfg, ty, acc, facc, ls)
    decreases |ls|, 4
  {
    var name, text, tail := FieldTaken(cfg, ty, acc, ls);
    TextReady(cfg, ty, acc, ls, name, text, tail);
    var e := ParsesText(cfg, acc.log, text);
    var field := CompileField(cfg, acc.log, text).value;
    var acc1, f := Built(acc.assigns + [Assign(name, field.0)], field.1), FieldInit(name, e);
    if !Closes(tail) {
      MoreFields(cfg, ty, acc, ls, name, text, tail);
      ParsesFields(cfg, ty, acc1, facc + [f], tail[1..]);
    }
    FieldParsed(cfg, ty, acc, facc, ls, name, text, tail, e);
  }

  lemma {:induction false} TextReady(cfg: Config, ty: string, acc: Built, ls: seq<Lexeme>, name: string,
                                     text: seq<Lexeme>, tail: seq<Lexeme>)
    requires RegularBuilder(cfg, ty, acc, ls) && WellLexed(ls) && StartsField(acc, ls, name, text, tail)
    ensures CompileField(cfg, acc.log, text).Ok? && Regular(text) && WellLexed(text) && NoEof(text)
            && WellLexed(tail[1..])
    ensures |text| + 1 < |ls| && |tail| < |ls|
  {
    FieldKnown(cfg, ty, acc, ls, name, text, tail);
    NamedFront([Identifier(name), Colon], text, tail);
    NamedRest([Identifier(name), Colon] + text, tail);
    NamedSuffix(tail, 1);
    FieldNoEof(text, tail);
  }

  lemma {:induction false} FieldTaken(cfg: Config, ty: string, acc: Built, ls: seq<Lexeme>)
    returns (name: string, text: seq<Lexeme>, tail: seq<Lexeme>)
    requires ParseBuilder(cfg, ty, acc, ls).Ok? && !At(ls, 0).RCurly?
    ensures StartsField(acc, ls, name, text, tail)
  {
    name := FieldName(acc.assigns, ls).value;
    var rest := ls[2..];
    assert ParseBuilder(cfg, ty, acc, ls) == ParseFieldBody(cfg, ty, acc, name, rest);
    var n := Collect(rest, []).value;
    text, tail := rest[..n], rest[n..];
    assert rest == text + tail && ls == [Identifier(name), Colon] + rest;
  }

  lemma FieldNoEof(text: seq<Lexeme>, tail: seq<Lexeme>)
    requires Collect(text + tail, []) == Ok(|text|)
    ensures NoEof(text)
  {
    CollectsBalanced(text + tail, |text|);
    forall i | 0 <= i < |text| ensures !text[i].Eof? {
      assert Within(text + tail, i);
    }
  }

  lemma NamedFront(a: seq<Lexeme>, b: seq<Lexeme>, c: seq<Lexeme>)
    requires WellLexed(a + (b + c))
    ensures WellLexed(b) && WellLexed(a + b + c)
  {
    Assoc(a, b, c);
    NamedRest(a, b + c);
    forall i | 0 <= i < |b| ensures b[i].Identifier? ==> b[i].name != "" {
      assert (b + c)[i] == b[i];
    }
  }

  /** The field compiles, and its text is regular. */
  lemma {:induction false} FieldKnown(cfg: Config, ty: string, acc: Built, ls: seq<Lexeme>, name: string,
                                      text: seq<Lexeme>, tail: seq<Lexeme>)
    requires RegularBuilder(cfg, ty, acc, ls) && StartsField(acc, ls, name, text, tail)
    ensures CompileField(cfg, acc.log, text).Ok? && Regular(text)
    ensures ParseBuilder(cfg, ty, acc, ls) == AfterField(cfg, ty, acc, name, CompileField(cfg, acc.log, text), tail)
  {
    Assoc([Identifier(name), Colon], text, tail);
    ParseOneField(cfg, ty, acc, name, text, tail);
    SplitStep(name, text, tail);
    assert text in SplitBuilder(ls).value.texts;
  }

  lemma {:induction false} MoreFields(cfg: Config, ty: string, acc: Built, ls: seq<Lexeme>, name: string,
                                      text: seq<Lexeme>, tail: seq<Lexeme>)
    requires RegularBuilder(cfg, ty, acc, ls) && StartsField(acc, ls, name, text, tail) && !Closes(tail)
    requires CompileField(cfg, acc.log, text).Ok?
    ensures
      var field := CompileField(cfg, acc.log, text).value;
      RegularBuilder(cfg, ty, Built(acc.assigns + [Assign(name, field.0)], field.1), tail[1..])
  {
    FieldKnown(cfg, ty, acc, ls, name, text, tail);
    SplitStep(name, text, tail);
    assert AfterSeparator(tail) == tail[1..];
    assert forall t | t in SplitBuilder(tail[1..]).value.texts :: t in SplitBuilder(ls).value.texts;
  }

  lemma {:induction false} FieldParsed(cfg: Config, ty: string, acc: Built, facc: seq<FieldInit>, ls: seq<Lexeme>,
                                       name: string, text: seq<Lexeme>, tail: seq<Lexeme>, e: Expr)
    requires RegularBuilder(cfg, ty, acc, ls) && StartsField(acc, ls, name, text, tail) && SameNames(acc.assigns, facc)
    requires Operands(e) && WellFormed(cfg, e, false) && Print(e) == text && CompileField(cfg, acc.log, text).Ok?
    requires
      var field := CompileField(cfg, acc.log, text).value;
      !Closes(tail) ==>
            FieldsParsed(cfg, ty, Built(acc.assigns + [Assign(name, field.0)], field.1), facc + [FieldInit(name, e)],
            tail[1..])
    ensures FieldsParsed(cfg, ty, acc, facc, ls)
  {
    FieldKnown(cfg, ty, acc, ls, name, text, tail);
    SplitStep(name, text, tail);
    ReadsField(cfg, e, tail);
    FieldReads(cfg, facc, FieldInit(name, e), text, tail);
  }

  // ------------------------------------------------------------------------
  // Whole texts

  /** A regular text that compiles is the text of a well-formed expression. */
  lemma {:induction false} ParsesText(cfg: Config, log: seq<Tree>, text: seq<Lexeme>) returns (e: Expr)
    requires !cfg.disallowChaining && CompileField(cfg, log, text).Ok? && Regular(text) && WellLexed(text)
             && NoEof(text)
    ensures Operands(e) && WellFormed(cfg, e, false) && Print(e) == text
    decreases |text| + 1, 8
  {
    var ls, acc := text + [Eof], Tokenized([], log);
    assert StreamOf(text) == ls;
    TextPlace(cfg, log, text);
    ParsesExpr(cfg, 0, false, acc, EMPTY, [], ls);
    var r := ParseExpr(cfg, 0, false, ls).value;
    PastClosed(cfg, acc, EMPTY, [], ls, r);
    TopEnd(cfg, Extend(acc, Tokens(r.e), FieldLog(r.e)), EMPTY, r.e, r.rest);
    LastLexeme(r.e);
    EofEnds(text, Print(r.e), r.rest);
    e := r.e;
  }

  lemma {:induction false} TextPlace(cfg: Config, log: seq<Tree>, text: seq<Lexeme>)
    requires !cfg.disallowChaining && CompileField(cfg, log, text).Ok? && Regular(text) && WellLexed(text)
             && NoEof(text)
    ensures Place(cfg, 0, false, Tokenized([], log), EMPTY, [], text + [Eof])
  {
    OperandEof(text);
    ArityEof([], text);
    assert StreamOf(text) == text + [Eof];
    ReachedNothing(cfg);
  }

  lemma {:induction false} ReachedNothing(cfg: Config)
    ensures Reached(cfg, [], EMPTY)
  {
    forall more: seq<Token<Tree>> ensures Run(cfg, None, [] + more, EMPTY) == Run(cfg, Prev([]), more, EMPTY) {
      assert [] + more == more;
    }
  }

  lemma EofEnds(text: seq<Lexeme>, a: seq<Lexeme>, rest: seq<Lexeme>)
    requires NoEof(text) && text + [Eof] == a + rest && a != [] && !Last(a).Eof? && At(rest, 0).Eof?
    ensures a == text
  {
    var ls := text + [Eof];
    assert ls[|a| - 1] == Last(a) && ls[|text|] == Eof;
    assert |a| <= |text|;
    assert ls[|a|] == rest[0];
    assert |a| == |text|;
    assert ls[..|text|] == text && (a + rest)[..|a|] == a;
  }

  // ------------------------------------------------------------------------

  lemma {:induction false} LooseWellFormed(cfg: Config, e: Expr, guarded: bool)
    requires Operands(e)
    ensures WellFormed(Loose(cfg), e, guarded) == WellFormed(cfg, e, guarded)
            && LeftBinding(Loose(cfg), e) == LeftBinding(cfg, e)
  {
    match e
    case Infix(_, l, r) => LooseWellFormed(cfg, l, guarded); LooseWellFormed(cfg, r, false);
    case Raise(l, r) => LooseWellFormed(cfg, l, guarded); LooseWellFormed(cfg, r, false);
    case Prefix(_, a) => LooseWellFormed(cfg, a, true);
    case Index(b, i) => LooseWellFormed(cfg, b, guarded); LooseWellFormed(cfg, i, false);
    case Access(b, _) => LooseWellFormed(cfg, b, guarded);
    case Call1(_, a) => LooseWellFormed(cfg, a, false);
    case Call2(_, a, b) => LooseWellFormed(cfg, a, false); LooseWellFormed(cfg, b, false);
    case Group(x) => LooseWellFormed(cfg, x, false);
    case Build(_, fields, _) =>
      forall i | 0 <= i < |fields|
        ensures WellFormed(Loose(cfg), fields[i].value, false) == WellFormed(cfg, fields[i].value, false) {
        LooseWellFormed(cfg, fields[i].value, false);
      }
    case _ =>
  }

  /** A text that the reference parser reads compiles without the strict mode, and is regular. */
  lemma {:induction false} ParsedCompiles(cfg: Config, ls: seq<Lexeme>)
    requires Parse(cfg, ls).Some?
    ensures CompileSource(Loose(cfg), ls).Ok? && Regular(ls)
  {
    AgreesWithReference(cfg, ls);
    var e := Parse(cfg, ls).value;
    LooseWellFormed(cfg, e, false);
    SourceMeans(Loose(cfg), e);
    PrintRegular(cfg, e);
  }

  /** A regular text that compiles is one the reference parser reads. */
  lemma {:induction false} CompiledParses(cfg: Config, ls: seq<Lexeme>)
    requires CompileSource(Loose(cfg), ls).Ok? && Regular(ls) && WellLexed(ls) && NoEof(ls)
    ensures Parse(cfg, ls).Some?
  {
    var e := ParsesText(Loose(cfg), [], ls);
    LooseWellFormed(cfg, e, false);
    ParsesPrint(cfg, e);
  }

  /** The reference parser accepts exactly the texts that compile, alternate and give every call
      the arguments its function takes. */
  lemma {:induction false} AcceptedJustWhen(cfg: Config, ls: seq<Lexeme>)
    requires WellLexed(ls) && NoEof(ls)
    ensures Parse(cfg, ls).Some? <==> CompileSource(Loose(cfg), ls).Ok? && Alternates(ls) && ArityOk(ls)
  {
    if Parse(cfg, ls).Some? {
      ParsedCompiles(cfg, ls);
    }
    if CompileSource(Loose(cfg), ls).Ok? && Alternates(ls) && ArityOk(ls) {
      CompiledParses(cfg, ls);
    }
  }
}
