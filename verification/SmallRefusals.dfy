/** The errors of the shortest texts that are not expressions. */
module SmallRefusals {
  import opened Wrappers
  import opened Operators
  import opened Trees
  import opened Shunting
  import opened ShuntingSteps
  import opened ShuntingProof
  import opened Tokenizer
  import opened TokenizerProof
  import opened Grammar
  import opened ScanProof
  import opened Signs
  import opened Refusals
  import Compounds

  // ------------------------------------------------------------------------
  // Texts whose first lexeme is refused

  /** The first lexeme is refused by the tokenizer. */
  lemma {:induction false} FirstRefused(cfg: Config, ls: seq<Lexeme>, err: Error)
    requires ls != [] && !ls[0].Eof? && BuilderStart(StreamOf(ls)).None? && !TimestampStart(StreamOf(ls))
    requires SimpleToken<Tree>(true, StreamOf(ls)) == Err(err)
    ensures TreeOf(cfg, ls) == Err(err)
  {
    var toks: seq<Token<Tree>> := [];
    assert LastIsOperator(toks);
    var rest := StreamOf(ls);
    assert At(rest, 0) == ls[0] && START.tokens == toks;
    assert Tokenize(cfg, START, rest) == Err(err);
  }

  lemma {:induction false} FirstLexemes(cfg: Config, name: string, n: Option<Const>)
    ensures TreeOf(cfg, [RCurly]) == Err(UnmatchedRightCurly)
    ensures TreeOf(cfg, [Colon]) == Err(UnexpectedColon)
    ensures TreeOf(cfg, [Number(None, n)]) == Err(NumberTooLarge)
  {
    FirstRefused(cfg, [RCurly], UnmatchedRightCurly);
    FirstRefused(cfg, [Colon], UnexpectedColon);
    FirstRefused(cfg, [Number(None, n)], NumberTooLarge);
  }

  lemma {:induction false} NegatedTooLarge(cfg: Config, n: Option<Const>)
    ensures TreeOf(cfg, [MinusSign, Number(n, None)]) == Err(NumberTooLarge)
  {
    FirstRefused(cfg, [MinusSign, Number(n, None)], NumberTooLarge);
  }

  lemma {:induction false} PathRefused(s: string)
    requires FunctionNamed(s).None? && SplitDots(s)[0] != "" && "" in SplitDots(s)
    ensures ParseValue<Tree>(s) == Err(EmptyFieldPart)
  {
  }

  /** A path with an empty part. */
  lemma {:induction false} EmptyPart(cfg: Config, parts: seq<string>)
    requires parts != [] && (forall i | 0 <= i < |parts| :: '.' !in parts[i]) && Dotted(parts) !in FUNCTIONS
    requires parts[0] != "" && "" in parts
    ensures TreeOf(cfg, [Identifier(Dotted(parts))]) == Err(EmptyFieldPart)
  {
    var s := Dotted(parts);
    SplitJoined(parts);
    NotAFunction(s);
    PathRefused(s);
    FirstRefused(cfg, [Identifier(s)], EmptyFieldPart);
  }

  /** `timestamp(` with anything but one clock. */
  lemma {:induction false} NoClock(cfg: Config, l: Lexeme)
    requires !l.Eof? && !l.Identifier?
    ensures TreeOf(cfg, [Identifier("timestamp"), LParen, l])
         == Err(if l.RParen? then TimestampWithoutParameter else BadTimestampParameter)
  {
    var err := if l.RParen? then TimestampWithoutParameter else BadTimestampParameter;
    assert ParseTimestamp([LParen] + [l] + [Eof]) == Err(err);
    TimestampRefused(cfg, [l], err);
    assert [Identifier("timestamp"), LParen] + [l] == [Identifier("timestamp"), LParen, l];
  }

  lemma {:induction false} AfterClock(cfg: Config, c: string, l: Lexeme)
    requires !l.Eof? && !l.RParen?
    ensures TreeOf(cfg, [Identifier("timestamp"), LParen, Identifier(c), l])
         == Err(if l.CommaSign? then TimestampWithManyParameters else TimestampUnclosed)
  {
    var err := if l.CommaSign? then TimestampWithManyParameters else TimestampUnclosed;
    assert ParseTimestamp([LParen] + [Identifier(c), l] + [Eof]) == Err(err);
    TimestampRefused(cfg, [Identifier(c), l], err);
    assert [Identifier("timestamp"), LParen] + [Identifier(c), l]
        == [Identifier("timestamp"), LParen, Identifier(c), l];
  }

  lemma {:induction false} TimestampRefused(cfg: Config, rest: seq<Lexeme>, err: Error)
    requires rest != [] && !Last(rest).Eof? && ParseTimestamp([LParen] + rest + [Eof]) == Err(err)
    ensures TreeOf(cfg, [Identifier("timestamp"), LParen] + rest) == Err(err)
  {
    var ls := [Identifier("timestamp"), LParen] + rest;
    assert StreamOf(ls) == ls + [Eof] && BuilderStart(ls + [Eof]).None? && TimestampStart(ls + [Eof]);
    assert (ls + [Eof])[1..] == [LParen] + rest + [Eof];
    assert !At(ls + [Eof], 0).Eof?;
    assert Tokenize(cfg, START, ls + [Eof]) == Err(err);
  }

  // ------------------------------------------------------------------------
  // Texts that the machine refuses

  /** A list of tokens that stand for one lexeme each. */
  lemma {:induction false} OnlyToken(cfg: Config, l: Lexeme, t: Token<Tree>, err: Error)
    requires !l.Eof? && BuilderStart([l, Eof]).None? && !TimestampStart([l, Eof])
    requires SimpleToken<Tree>(true, [l, Eof]) == Ok((t, 1)) && Compile(cfg, [t]) == Err(err)
    ensures TreeOf(cfg, [l]) == Err(err)
  {
    var toks: seq<Token<Tree>> := [];
    assert LastIsOperator(toks) && StreamOf([l]) == [l, Eof] && [l, Eof][1..] == [Eof];
    assert Snoc(START, t).tokens == [t];
    assert Tokenize(cfg, START, [l, Eof]) == Tokenize(cfg, Snoc(START, t), [Eof]);
  }

  lemma {:induction false} RunOne(cfg: Config, t: Token<Tree>, st: State)
    requires Step(cfg, None, t, None, EMPTY) == Ok(st)
    ensures Compile(cfg, [t]) == Finish(cfg, st)
  {
    var none: seq<Token<Tree>> := [];
    RunCons(cfg, None, t, none, EMPTY);
    assert [t] + none == [t];
  }

  lemma {:induction false} RunRefused(cfg: Config, t: Token<Tree>, err: Error)
    requires Step(cfg, None, t, None, EMPTY) == Err(err)
    ensures Compile(cfg, [t]) == Err(err)
  {
    var none: seq<Token<Tree>> := [];
    RunCons(cfg, None, t, none, EMPTY);
    assert [t] + none == [t];
  }

  /** Nothing at all, a lone comma, a lone prefix operator, a function without its parentheses, and a
      field of nothing. */
  lemma {:induction false} Alone(cfg: Config)
    ensures TreeOf(cfg, []) == Err(NoOperands)
    ensures TreeOf(cfg, [CommaSign]) == Err(CommaWithoutArgument)
    ensures TreeOf(cfg, [MinusSign]) == Err(MissingOperand(UnaryMinus))
    ensures TreeOf(cfg, [Exclamation]) == Err(MissingOperand(Not))
  {
    var none: seq<Token<Tree>> := [];
    assert StreamOf([]) == [Eof] && Compile(cfg, none) == Err(NoOperands);
    RunRefused(cfg, Op(Comma), CommaWithoutArgument);
    OnlyToken(cfg, CommaSign, Op(Comma), CommaWithoutArgument);
    LonePrefix(cfg, UnaryMinus);
    OnlyToken(cfg, MinusSign, Op(UnaryMinus), MissingOperand(UnaryMinus));
    LonePrefix(cfg, Not);
    OnlyToken(cfg, Exclamation, Op(Not), MissingOperand(Not));
  }

  lemma {:induction false} LonePrefix(cfg: Config, op: Operator)
    requires IsPrefix(op)
    ensures Compile(cfg, [Op(op)]) == Err(MissingOperand(op))
  {
    var st := State([], [op]);
    assert EMPTY.ops + [op] == [op];
    RunOne(cfg, Op(op), st);
  }

  lemma {:induction false} FunctionAlone(cfg: Config, fn: Operator)
    requires IsFunctionLike(fn)
    ensures TreeOf(cfg, [Identifier(FunctionName(fn))]) == Err(FunctionWithoutArgument(fn))
  {
    FunctionNameRoundTrip(fn);
    RunRefused(cfg, Op(fn), FunctionWithoutArgument(fn));
    OnlyToken(cfg, Identifier(FunctionName(fn)), Op(fn), FunctionWithoutArgument(fn));
  }

  /** `.f.g` */
  lemma {:induction false} FieldOfNothing(cfg: Config, parts: seq<string>)
    requires parts != [] && forall i | 0 <= i < |parts| :: IsPart(parts[i])
    ensures TreeOf(cfg, [Identifier("." + Dotted(parts))]) == Err(PostfixWithoutOperand)
  {
    var path := "." + Dotted(parts);
    Compounds.PostfixParts(parts);
    assert path[0] == '.';
    RunRefused(cfg, Path(SplitDots(path)), PostfixWithoutOperand);
    OnlyToken(cfg, Identifier(path), Path(SplitDots(path)), PostfixWithoutOperand);
  }

  // ------------------------------------------------------------------------
  // Texts of a few lexemes

  /** `w v` */
  lemma {:induction false} TwoWords(cfg: Config, w: seq<string>, v: seq<string>)
    requires IsWord(w) && IsWord(v)
    ensures TreeOf(cfg, [Identifier(Dotted(w)), Identifier(Dotted(v))]) == Err(OperandsWithoutOperator)
  {
    var none: seq<Tree> := [];
    var st, st2 := State([Leaf(Named(w))], []), State([Leaf(Named(w)), Leaf(Named(v))], []);
    var after := AfterOperand(false);
    PastWord(cfg, w);
    WordMeans(v);
    SplitWord(v);
    ScanPath(cfg, Extend(START, [Path(w)], none), Dotted(v));
    ReadSource(cfg, Some(Path(w)), v, st);
    assert st.operands + [Leaf(Named(v))] == st2.operands && none + none == none;
    PastThen(cfg, [Identifier(Dotted(w))], after, [Path(w)], none, st, [Identifier(Dotted(v))], after, [Path(v)], none,
        st2);
    assert [Identifier(Dotted(w))] + [Identifier(Dotted(v))] == [Identifier(Dotted(w)), Identifier(Dotted(v))];
    RefusedAtEnd(cfg, [Identifier(Dotted(w)), Identifier(Dotted(v))], after, [Path(w)] + [Path(v)], none, st2,
        OperandsWithoutOperator);
  }

  lemma {:induction false} PastWordSign(cfg: Config, w: seq<string>, op: Operator)
    requires IsWord(w) && IsInfix(op)
    ensures Past(cfg, [Identifier(Dotted(w))] + [InfixLexeme(op)], Anything, [Path(w)] + [Op(op)], [] + [],
                 State([Leaf(Named(w))], [op]))
  {
    var st, none: seq<Tree> := State([Leaf(Named(w))], []), [];
    PastWord(cfg, w);
    ScanInfixLexeme(cfg, Extend(START, [Path(w)], none), op);
    ReadInfixOp(cfg, Some(Path(w)), op, Target(cfg, op), st, false, st);
    assert st.ops + [op] == [op];
    PastThen(cfg, [Identifier(Dotted(w))], AfterOperand(false), [Path(w)], none, st, [InfixLexeme(op)], Anything,
        [Op(op)], none, State([Leaf(Named(w))], [op]));
  }

  lemma LoneOperand(cfg: Config, op: Operator, x: Operand<Tree>)
    requires IsInfix(op)
    ensures Finish(cfg, State([x], [op])) == Err(MissingOperand(op))
  {
  }

  /** `w x` */
  lemma {:induction false} NoRightOperand(cfg: Config, w: seq<string>, op: Operator)
    requires IsWord(w) && IsInfix(op)
    ensures TreeOf(cfg, [Identifier(Dotted(w))] + [InfixLexeme(op)]) == Err(MissingOperand(op))
  {
    PastWordSign(cfg, w, op);
    LoneOperand(cfg, op, Leaf(Named(w)));
    RefusedAtEnd(cfg, [Identifier(Dotted(w))] + [InfixLexeme(op)], Anything, [Path(w)] + [Op(op)], [] + [],
        State([Leaf(Named(w))], [op]), MissingOperand(op));
  }

  /** `(w)` */
  lemma {:induction false} ParensAroundWord(cfg: Config, w: seq<string>)
    requires IsWord(w)
    ensures TreeOf(cfg, [LParen] + [Identifier(Dotted(w))] + [RParen]) == Err(RedundantParens)
  {
    var e := Name(Dotted(w));
    WordPlain(cfg, w);
    PastParen(cfg);
    WordInParens(cfg, w);
    InnerRefused(cfg, [LParen], [Op(LeftParen)], State([], [LeftParen]), e, RParen, RedundantParens);
  }

  lemma {:induction false} WordPlain(cfg: Config, w: seq<string>)
    requires IsWord(w)
    ensures Plain(cfg, Name(Dotted(w))) && Print(Name(Dotted(w))) == [Identifier(Dotted(w))]
  {
    WordMeans(w);
  }

  lemma {:induction false} WordInParens(cfg: Config, w: seq<string>)
    requires IsWord(w)
    ensures
      var e := Name(Dotted(w));
      Step(cfg, Some(Last([Op(LeftParen)] + Tokens(e))), Op(RightParen), None, Pending(State([], [LeftParen]), e))
          == Err(RedundantParens)
  {
    var e := Name(Dotted(w));
    assert Tokens(e) == [Path(SplitDots(Dotted(w)))];
    assert Pending(State([], [LeftParen]), e) == State([Value(e)], [LeftParen]);
  }

  /** `f(` */
  lemma {:induction false} PastCall(cfg: Config, fn: Operator)
    requires IsFunctionLike(fn)
    ensures Past(cfg, [Identifier(FunctionName(fn)), LParen], Anything, [Op(fn), Op(LeftParen)], [],
                 State([], [fn, LeftParen]))
  {
    ScanFunction(cfg, START, fn);
    ReadFunctionName(cfg, None, fn, EMPTY);
    assert [] + [fn, LeftParen] == [fn, LeftParen];
  }

  /** `f()` */
  lemma {:induction false} NoArguments(cfg: Config, fn: Operator)
    requires IsFunctionLike(fn)
    ensures TreeOf(cfg, [Identifier(FunctionName(fn)), LParen, RParen]) == Err(MissingOperand(fn))
  {
    var toks: seq<Token<Tree>>, st := [Op(fn), Op(LeftParen)], State([], [fn, LeftParen]);
    PastCall(cfg, fn);
    CallNothing(cfg, fn);
    RefusedAtStep(cfg, [Identifier(FunctionName(fn)), LParen], Anything, toks, [], st, RParen, RightParen,
        MissingOperand(fn));
    assert [Identifier(FunctionName(fn)), LParen] + [RParen] == [Identifier(FunctionName(fn)), LParen, RParen];
  }

  lemma {:induction false} CallNothing(cfg: Config, fn: Operator)
    requires IsFunctionLike(fn)
    ensures Step(cfg, Some(Op(LeftParen)), Op(RightParen), None, State([], [fn, LeftParen])) == Err(MissingOperand(fn))
  {
    var st := State([], [fn, LeftParen]);
    assert Collapse(cfg, 1, st) == Ok(st);
    assert Front(st.ops) == [fn];
  }

  /** `f(a,)` */
  lemma {:induction false} CommaAtEnd(cfg: Config, fn: Operator, a: seq<Lexeme>)
    requires IsFunctionLike(fn) && Reads(cfg, a)
    ensures TreeOf(cfg, [Identifier(FunctionName(fn)), LParen] + a + [CommaSign] + [RParen]) == Err(TrailingComma)
  {
    var e := Spelt(cfg, a);
    var ls, open, st := [Identifier(FunctionName(fn)), LParen], [Op(fn), Op(LeftParen)], State([], [fn, LeftParen]);
    PastCall(cfg, fn);
    PastInner(cfg, ls, open, st, e);
    LastOf(open, e);
    InsideShrinks(cfg, e, st);
    CommaThenClose(cfg, ls + a, AfterOperand(EndsInBuilder(e)), open + Tokens(e), FieldLog(e), Pending(st, e),
        Reduced(st, e), fn);
  }

  lemma {:induction false} InsideShrinks(cfg: Config, e: Expr, st: State)
    requires Plain(cfg, e)
    ensures Shrinks(cfg, 1, Pending(st, e), false, Reduced(st, e))
  {
    SpineShrinks(cfg, st, e);
    BindingBounds(cfg, e);
    ChainSplit(e);
  }

  lemma {:induction false} CommaThenClose(cfg: Config, ls: seq<Lexeme>, f: Follow, toks: seq<Token<Tree>>,
                                          log: seq<Tree>, st: State, st1: State, fn: Operator)
    requires Past(cfg, ls, f, toks, log, st) && f.AfterOperand? && IsOperandToken(Last(toks)) && IsFunctionLike(fn)
    requires Shrinks(cfg, 1, st, false, st1) && st1.ops == [fn, LeftParen]
    ensures TreeOf(cfg, ls + [CommaSign] + [RParen]) == Err(TrailingComma)
  {
    PastComma(cfg, ls, f, toks, log, st, st1, fn);
    ClosedAfterComma(cfg, ls + [CommaSign], toks + [Op(Comma)], log + [], st1);
  }

  lemma {:induction false} ClosedAfterComma(cfg: Config, ls: seq<Lexeme>, toks: seq<Token<Tree>>, log: seq<Tree>,
                                            st: State)
    requires Past(cfg, ls, Anything, toks, log, st) && Last(toks) == Op(Comma)
    ensures TreeOf(cfg, ls + [RParen]) == Err(TrailingComma)
  {
    assert Step(cfg, Some(Op(Comma)), Op(RightParen), None, st) == Err(TrailingComma);
    RefusedAtStep(cfg, ls, Anything, toks, log, st, RParen, RightParen, TrailingComma);
  }

  lemma {:induction false} PastComma(cfg: Config, ls: seq<Lexeme>, f: Follow, toks: seq<Token<Tree>>, log: seq<Tree>,
                                     st: State, st1: State, fn: Operator)
    requires Past(cfg, ls, f, toks, log, st) && f.AfterOperand? && IsOperandToken(Last(toks)) && IsFunctionLike(fn)
    requires Shrinks(cfg, 1, st, false, st1) && st1.ops == [fn, LeftParen]
    ensures Past(cfg, ls + [CommaSign], Anything, toks + [Op(Comma)], log + [], st1)
  {
    ScanOperator(cfg, Extend(START, toks, log), CommaSign, Comma);
    assert [] + [fn, LeftParen] == [fn, LeftParen];
    ReadComma(cfg, Last(toks), 1, st, false, st1, [], fn);
    PastThen(cfg, ls, f, toks, log, st, [CommaSign], Anything, [Op(Comma)], [], st1);
  }

  /** `f w` */
  lemma {:induction false} NoParens(cfg: Config, fn: Operator, w: seq<string>)
    requires IsFunctionLike(fn) && IsWord(w)
    ensures TreeOf(cfg, [Identifier(FunctionName(fn)), Identifier(Dotted(w))]) == Err(FunctionWithoutParens(fn))
  {
    var ls := [Identifier(FunctionName(fn)), Identifier(Dotted(w))];
    NoParensTokens(cfg, fn, w);
    assert StreamOf(ls) == ls + [Eof];
    var toks: seq<Token<Tree>> := [Op(fn), Path(w)];
    RunCons(cfg, None, Op(fn), [Path(w)], EMPTY);
    assert [Op(fn)] + [Path(w)] == toks;
  }

  lemma {:induction false} NoParensTokens(cfg: Config, fn: Operator, w: seq<string>)
    requires IsFunctionLike(fn) && IsWord(w)
    ensures Tokenize(cfg, START, [Identifier(FunctionName(fn)), Identifier(Dotted(w))] + [Eof])
         == Ok(Tokenized([Op(fn), Path(w)], []))
  {
    var f, v := Identifier(FunctionName(fn)), Identifier(Dotted(w));
    var named, both: Tokenized := Tokenized([Op(fn)], []), Tokenized([Op(fn), Path(w)], []);
    assert [f, v] + [Eof] == [f] + ([v] + [Eof]);
    assert Extend(START, [Op(fn)], []) == named && Extend(named, [Path(w)], []) == both;
    ScanName(cfg, START, fn);
    ScansAt(cfg, START, [f], Anything, false, [Op(fn)], [], [v] + [Eof]);
    WordMeans(w);
    SplitWord(w);
    ScanPath(cfg, named, Dotted(w));
    ScansAt(cfg, named, [v], AfterOperand(false), false, [Path(w)], [], [Eof]);
    assert Tokenize(cfg, both, [Eof]) == Ok(both);
  }

  // ------------------------------------------------------------------------
  // Builders

  /** `{` and what follows it. */
  lemma {:induction false} BuilderRefused(cfg: Config, rest: seq<Lexeme>, err: Error)
    requires rest == [] || !Last(rest).Eof?
    requires ParseBuilder(cfg, "", Built([], []), rest + [Eof]) == Err(err)
    ensures TreeOf(cfg, [LCurly] + rest) == Err(err)
  {
    var ls := [LCurly] + rest;
    assert Last(ls) == if rest == [] then LCurly else Last(rest);
    assert StreamOf(ls) == ls + [Eof] && (ls + [Eof])[1..] == rest + [Eof];
    assert At(ls + [Eof], 0).LCurly?;
    assert Tokenize(cfg, START, ls + [Eof]) == TokenizeBuilder(cfg, START, "", rest + [Eof]);
  }

  /** `{`, `{ l`, `{ f` and `{ f l`, with the wrong `l` */
  lemma {:induction false} BadFieldName(cfg: Config, f: string, l: Lexeme)
    requires !l.Eof?
    ensures TreeOf(cfg, [LCurly] + []) == Err(UnmatchedLeftCurly)
    ensures !l.Identifier? && !l.RCurly? ==> TreeOf(cfg, [LCurly] + [l]) == Err(ExpectedFieldName)
    ensures '.' in f ==> TreeOf(cfg, [LCurly] + [Identifier(f), l]) == Err(DottedFieldName)
    ensures '.' !in f && !l.Colon? ==> TreeOf(cfg, [LCurly] + [Identifier(f), l]) == Err(MissingColon)
  {
    BuilderRefused(cfg, [], UnmatchedLeftCurly);
    if !l.Identifier? && !l.RCurly? {
      BuilderRefused(cfg, [l], ExpectedFieldName);
    }
    if '.' in f {
      BuilderRefused(cfg, [Identifier(f), l], DottedFieldName);
    } else if !l.Colon? {
      BuilderRefused(cfg, [Identifier(f), l], MissingColon);
    }
  }

  /** `{ f : text`, where the text does not come to its end as a field's should. */
  lemma {:induction false} BadFieldText(cfg: Config, f: string, text: seq<Lexeme>)
    requires '.' !in f && (text == [] || !Last(text).Eof?)
    ensures Collect(text + [Eof], []).Err? ==>
              TreeOf(cfg, [LCurly] + ([Identifier(f), Colon] + text)) == Err(Collect(text + [Eof], []).error)
    ensures Collect(text + [Eof], []) == Ok(0) ==>
              TreeOf(cfg, [LCurly] + ([Identifier(f), Colon] + text)) == Err(MissingFieldExpression)
  {
    var rest := [Identifier(f), Colon] + text;
    assert rest + [Eof] == [Identifier(f), Colon] + (text + [Eof]);
    assert (rest + [Eof])[2..] == text + [Eof];
    assert FieldName([], rest + [Eof]) == Ok(f);
    var c := Collect(text + [Eof], []);
    if c.Err? {
      BuilderRefused(cfg, rest, c.error);
    } else if c == Ok(0) {
      BuilderRefused(cfg, rest, MissingFieldExpression);
    }
  }

  /** `{ f : ,`, `{ f : }`, `{ f : (` and `{ f : )` */
  lemma {:induction false} FieldWithoutText(cfg: Config, f: string, l: Lexeme)
    requires '.' !in f
    ensures l.CommaSign? || l.RCurly? ==>
              TreeOf(cfg, [LCurly] + ([Identifier(f), Colon] + [l])) == Err(MissingFieldExpression)
    ensures IsOpening(l) || l.RParen? || l.RBracket? || l.Colon? ==>
              TreeOf(cfg, [LCurly] + ([Identifier(f), Colon] + [l])) == Err(UnbalancedField)
    ensures l.Truth? ==> TreeOf(cfg, [LCurly] + ([Identifier(f), Colon] + [l])) == Err(UnmatchedLeftCurly)
  {
    if !l.Eof? {
      BadFieldText(cfg, f, [l]);
      assert ([l] + [Eof])[1..] == [Eof];
    }
  }

  /** What a builder makes of one field, after which `rest` follows. */
  lemma {:induction false} OneFieldThen(cfg: Config, f: string, a: seq<Lexeme>, rest: seq<Lexeme>)
    requires '.' !in f && a != [] && rest != [] && !Last(rest).Eof? && Collect(a + (rest + [Eof]), []) == Ok(|a|)
    ensures
      var r := AfterField(cfg, "", Built([], []), f, CompileField(cfg, [], a), rest + [Eof]);
      r.Err? ==> TreeOf(cfg, [LCurly] + ([Identifier(f), Colon] + a + rest)) == r.PropagateFailure()
  {
    var all := [Identifier(f), Colon] + a + rest;
    ParseOneField(cfg, "", Built([], []), f, a, rest + [Eof]);
    assert all + [Eof] == [Identifier(f), Colon] + a + (rest + [Eof]);
    assert Last(all) == Last(rest);
    var r := AfterField(cfg, "", Built([], []), f, CompileField(cfg, [], a), rest + [Eof]);
    if r.Err? {
      BuilderRefused(cfg, all, r.error);
    }
  }

  /** `{ f : a }` is refused as `a` is. */
  lemma {:induction false} FieldErrorsCount(cfg: Config, f: string, a: seq<Lexeme>)
    requires '.' !in f && a != [] && Collect(a + [RCurly, Eof], []) == Ok(|a|) && TreeOf(cfg, a).Err?
    ensures TreeOf(cfg, [LCurly] + ([Identifier(f), Colon] + a + [RCurly])) == TreeOf(cfg, a)
  {
    assert [RCurly] + [Eof] == [RCurly, Eof];
    OneFieldThen(cfg, f, a, [RCurly]);
  }

  lemma {:induction false} FieldAgain(cfg: Config, f: string, acc: Built, l: Lexeme)
    requires '.' !in f && |acc.assigns| == 1 && acc.assigns[0].name == f && !l.RCurly?
    ensures NextField(cfg, "", acc, [CommaSign, Identifier(f), l, Eof]) == Err(DuplicateField(f))
  {
    var rest := [CommaSign, Identifier(f), l, Eof];
    assert rest[1..] == [Identifier(f), l, Eof];
    assert FieldName(acc.assigns, rest[1..]) == Err(DuplicateField(f));
  }

  lemma {:induction false} FieldCompiles(cfg: Config, a: seq<Lexeme>)
    requires Reads(cfg, a)
    ensures CompileField(cfg, [], a).Ok? && a != []
    ensures forall rest | At(rest, 0).CommaSign? :: Collect(a + rest, []) == Ok(|a|)
  {
    var e := Spelt(cfg, a);
    forall rest | At(rest, 0).CommaSign? ensures Collect(a + rest, []) == Ok(|a|) {
      CollectsExpr(e, rest);
    }
  }

  /** `{ f : a , f l` */
  lemma {:induction false} SameFieldTwice(cfg: Config, f: string, a: seq<Lexeme>, l: Lexeme)
    requires '.' !in f && Reads(cfg, a) && !l.Eof? && !l.RCurly?
    ensures TreeOf(cfg, [LCurly] + ([Identifier(f), Colon] + a + [CommaSign, Identifier(f), l]))
            == Err(DuplicateField(f))
  {
    var rest := [CommaSign, Identifier(f), l];
    FieldCompiles(cfg, a);
    var field := CompileField(cfg, [], a);
    var acc := Built([] + [Assign(f, field.value.0)], field.value.1);
    assert rest + [Eof] == [CommaSign, Identifier(f), l, Eof];
    FieldAgain(cfg, f, acc, l);
    OneFieldThen(cfg, f, a, rest);
  }

  /** `{}.p` */
  lemma {:induction false} FieldOfBuilder(cfg: Config, p: string)
    requires p != "" && p[0] == '.'
    ensures TreeOf(cfg, [LCurly, RCurly, Identifier(p)]) == Err(FieldOnBuilder)
  {
    var ls := [LCurly, RCurly, Identifier(p)];
    assert StreamOf(ls) == ls + [Eof] && (ls + [Eof])[1..] == [RCurly, Identifier(p), Eof];
    assert [RCurly, Identifier(p), Eof][1..] == [Identifier(p), Eof];
    assert ParseBuilder(cfg, "", Built([], []), [RCurly, Identifier(p), Eof])
        == Ok(Parsed(BuilderOf("", []), [], [Identifier(p), Eof]));
    assert At(ls + [Eof], 0).LCurly? && At([Identifier(p), Eof], 0) == Identifier(p);
    assert TokenizeBuilder(cfg, START, "", [RCurly, Identifier(p), Eof]) == Err(FieldOnBuilder);
    assert Tokenize(cfg, START, ls + [Eof]) == TokenizeBuilder(cfg, START, "", [RCurly, Identifier(p), Eof]);
  }

  // ------------------------------------------------------------------------
  // An error that cannot come about

  /** A square bracket lies on the stack on top of its subscript. */
  predicate Seated(ops: seq<Operator>) {
    forall i | 0 <= i < |ops| && ops[i].LeftSquareBracket? :: i > 0 && ops[i - 1].Subscript?
  }

  lemma {:induction false} CollapseSeated(cfg: Config, target: nat, st: State)
    requires target > 0 && Seated(st.ops)
    ensures Collapse(cfg, target, st) != Err(BracketWithoutSubscript)
    ensures Collapse(cfg, target, st).Ok? ==> Seated(Collapse(cfg, target, st).value.ops)
    decreases |st.ops|
  {
    if st.ops != [] && Precedence(Last(st.ops)) >= target {
      var operands := Combine(cfg, Last(st.ops), st.operands);
      if operands.Ok? {
        CollapseSeated(cfg, target, State(operands.value, Front(st.ops)));
      }
    }
  }

  predicate StaysSeated(r: Result<State, Error>) {
    r != Err(BracketWithoutSubscript) && (r.Ok? ==> Seated(r.value.ops))
  }

  lemma {:induction false} CloseSeated(cfg: Config, found: bool, st: State)
    requires Seated(st.ops)
    ensures StaysSeated(CloseParen(cfg, found, st)) && StaysSeated(CloseBracket(st)) && StaysSeated(AfterComma(st))
  {
  }

  lemma PushSeated(ops: seq<Operator>, op: Operator)
    requires Seated(ops)
    ensures !op.LeftSquareBracket? ==> Seated(ops + [op])
    ensures Seated(ops + [Subscript, LeftSquareBracket])
  {
  }

  lemma {:induction false} ClosingSeated(cfg: Config, prev: Option<Token<Tree>>, op: Operator,
                                         next: Option<Token<Tree>>, st: State)
    requires Seated(st.ops) && (op.Comma? || op.RightParen? || op.RightSquareBracket?)
    ensures StaysSeated(StepOp(cfg, prev, op, next, st))
  {
    CollapseSeated(cfg, 1, st);
    var st1 := Collapse(cfg, 1, st);
    if st1.Ok? {
      CloseSeated(cfg, |st1.value.ops| != |st.ops|, st1.value);
    }
  }

  lemma {:induction false} PushingSeated(cfg: Config, prev: Option<Token<Tree>>, op: Operator,
                                         next: Option<Token<Tree>>, st: State, target: nat)
    requires Seated(st.ops) && !op.Comma? && !op.RightParen? && !op.RightSquareBracket?
    requires target == if op.LeftSquareBracket? then Precedence(Subscript)
                       else if op.LeftParen? then 1 else Target(cfg, op)
    ensures StaysSeated(StepOp(cfg, prev, op, next, st))
  {
    CollapseSeated(cfg, target, st);
    PushSeated(st.ops, op);
    var st1 := Collapse(cfg, target, st);
    if st1.Ok? {
      PushSeated(st1.value.ops, op);
    }
  }

  lemma {:induction false} OpSeated(cfg: Config, prev: Option<Token<Tree>>, op: Operator, next: Option<Token<Tree>>,
                                    st: State)
    requires Seated(st.ops)
    ensures StaysSeated(StepOp(cfg, prev, op, next, st))
  {
    if op.Comma? || op.RightParen? || op.RightSquareBracket? {
      ClosingSeated(cfg, prev, op, next, st);
    } else {
      PushingSeated(cfg, prev, op, next, st, if op.LeftSquareBracket? then Precedence(Subscript)
                                             else if op.LeftParen? then 1 else Target(cfg, op));
    }
  }

  lemma {:induction false} StepSeated(cfg: Config, prev: Option<Token<Tree>>, tok: Token<Tree>,
                                      next: Option<Token<Tree>>, st: State)
    requires Seated(st.ops)
    ensures StaysSeated(Step(cfg, prev, tok, next, st))
  {
    match tok
    case Op(op) => OpSeated(cfg, prev, op, next, st);
    case Path(_) => CollapseSeated(cfg, Precedence(Subscript), st);
    case _ =>
  }

  lemma {:induction false} RunSeated(cfg: Config, prev: Option<Token<Tree>>, rest: seq<Token<Tree>>, st: State)
    requires Seated(st.ops)
    ensures Run(cfg, prev, rest, st) != Err(BracketWithoutSubscript)
    ensures Run(cfg, prev, rest, st).Ok? ==> Seated(Run(cfg, prev, rest, st).value.ops)
    decreases |rest|
  {
    if rest != [] {
      StepSeated(cfg, prev, rest[0], First(rest[1..]), st);
      var st1 := Step(cfg, prev, rest[0], First(rest[1..]), st);
      if st1.Ok? {
        RunSeated(cfg, Some(rest[0]), rest[1..], st1.value);
      }
    }
  }

  /** No list of tokens, however malformed, has a bracket that is not a subscript's. */
  lemma {:induction false} BracketsAreSubscripts(cfg: Config, tokens: seq<Token<Tree>>)
    ensures Compile(cfg, tokens) != Err(BracketWithoutSubscript)
  {
    RunSeated(cfg, None, tokens, EMPTY);
    var st := Run(cfg, None, tokens, EMPTY);
    if st.Ok? {
      CollapseSeated(cfg, 1, st.value);
    }
  }
}
