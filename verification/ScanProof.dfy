/** Tokenizing the lexemes of a well-formed expression yields exactly its tokens. */
module ScanProof {
  import opened Wrappers
  import opened Operators
  import opened Trees
  import opened Shunting
  import opened ShuntingSteps
  import opened ShuntingProof
  import opened Tokenizer
  import opened Grammar
  import opened TokenizerProof

  /** What the tokenizer's lookahead needs of the text that follows. */
  datatype Follow = Anything | NotNumber | AfterOperand(builder: bool)

  predicate MayFollow(f: Follow, rest: seq<Lexeme>) {
    match f
    case Anything => true
    case NotNumber => !At(rest, 0).Number?
    case AfterOperand(builder) =>
      && !At(rest, 0).LParen? && !At(rest, 0).LCurly?
      && !(At(rest, 0).Identifier? && At(rest, 1).LCurly?)
      && (builder ==> !DirectFieldAccess(At(rest, 0)))
  }

  function Extend(acc: Tokenized, toks: seq<Token<Tree>>, log: seq<Tree>): Tokenized {
    Tokenized(acc.tokens + toks, acc.log + log)
  }

  /** In front of any text that may follow it, `ls` is turned into `toks`, pushing `log`;
      or a chain inside a builder is rejected if `bad`. */
  ghost predicate Scans(cfg: Config, acc: Tokenized, ls: seq<Lexeme>, f: Follow, bad: bool, toks: seq<Token<Tree>>,
                        log: seq<Tree>) {
    forall rest | MayFollow(f, rest) ::
          Tokenize(cfg, acc, ls + rest) == Rejecting(bad, Tokenize(cfg, Extend(acc, toks, log), rest))
  }

  predicate Joins(f: Follow, b: seq<Lexeme>, f2: Follow) {
    && b != []
    && match f
       case Anything => true
       case NotNumber => !b[0].Number?
       case AfterOperand(builder) =>
         !b[0].LParen? && !b[0].LCurly? && (b[0].Identifier? ==> |b| == 1 && !builder && f2.AfterOperand?)
  }

  lemma JoinsFollow(f: Follow, b: seq<Lexeme>, f2: Follow, rest: seq<Lexeme>)
    requires Joins(f, b, f2) && MayFollow(f2, rest)
    ensures MayFollow(f, b + rest)
  {
    assert At(b + rest, 0) == b[0];
    if |b| == 1 {
      assert At(b + rest, 1) == At(rest, 0);
    }
  }

  lemma ScansTrans(cfg: Config, acc: Tokenized,
                   a: seq<Lexeme>, f1: Follow, bad1: bool, t1: seq<Token<Tree>>, g1: seq<Tree>,
                   b: seq<Lexeme>, f2: Follow, bad2: bool, t2: seq<Token<Tree>>, g2: seq<Tree>)
    requires Scans(cfg, acc, a, f1, bad1, t1, g1) && Scans(cfg, Extend(acc, t1, g1), b, f2, bad2, t2, g2)
             && Joins(f1, b, f2)
    ensures Scans(cfg, acc, a + b, f2, bad1 || bad2, t1 + t2, g1 + g2)
  {
    var acc1 := Extend(acc, t1, g1);
    Assoc(acc.tokens, t1, t2);
    Assoc(acc.log, g1, g2);
    assert Extend(acc1, t2, g2) == Extend(acc, t1 + t2, g1 + g2);
    forall rest | MayFollow(f2, rest)
      ensures Tokenize(cfg, acc, a + b + rest)
              == Rejecting(bad1 || bad2, Tokenize(cfg, Extend(acc, t1 + t2, g1 + g2), rest))
    {
      Assoc(a, b, rest);
      JoinsFollow(f1, b, f2, rest);
      ScansAt(cfg, acc, a, f1, bad1, t1, g1, b + rest);
      ScansAt(cfg, acc1, b, f2, bad2, t2, g2, rest);
      RejectingTwice(Tokenize(cfg, acc, a + b + rest), bad1, Tokenize(cfg, acc1, b + rest), bad2,
          Tokenize(cfg, Extend(acc1, t2, g2), rest));
    }
  }

  lemma ScansAt(cfg: Config, acc: Tokenized, ls: seq<Lexeme>, f: Follow, bad: bool, toks: seq<Token<Tree>>,
                log: seq<Tree>, rest: seq<Lexeme>)
    requires Scans(cfg, acc, ls, f, bad, toks, log) && MayFollow(f, rest)
    ensures Tokenize(cfg, acc, ls + rest) == Rejecting(bad, Tokenize(cfg, Extend(acc, toks, log), rest))
  {
  }

  // ------------------------------------------------------------------------
  // Single tokens

  lemma ScanOperator(cfg: Config, acc: Tokenized, l: Lexeme, op: Operator)
    requires OperatorOf(l) == Some(op)
    ensures Scans(cfg, acc, [l], Anything, false, [Op(op)], [])
  {
    forall rest ensures Tokenize(cfg, acc, [l] + rest) == Tokenize(cfg, Extend(acc, [Op(op)], []), rest) {
      assert ([l] + rest)[1..] == rest && Extend(acc, [Op(op)], []) == Snoc(acc, Op(op));
    }
  }

  lemma ScanMinus(cfg: Config, acc: Tokenized)
    ensures LastIsOperator(acc.tokens) ==> Scans(cfg, acc, [MinusSign], NotNumber, false, [Op(UnaryMinus)], [])
    ensures !LastIsOperator(acc.tokens) ==> Scans(cfg, acc, [MinusSign], Anything, false, [Op(Subtract)], [])
  {
    var op := if LastIsOperator(acc.tokens) then UnaryMinus else Subtract;
    forall rest | op.Subtract? || !At(rest, 0).Number?
      ensures Tokenize(cfg, acc, [MinusSign] + rest) == Tokenize(cfg, Extend(acc, [Op(op)], []), rest)
    {
      assert ([MinusSign] + rest)[1..] == rest && Extend(acc, [Op(op)], []) == Snoc(acc, Op(op));
      assert At([MinusSign] + rest, 1) == At(rest, 0);
    }
  }

  lemma ScanTruth(cfg: Config, acc: Tokenized, b: bool)
    ensures Scans(cfg, acc, [Truth(b)], AfterOperand(false), false, [Literal(BoolConst(b))], [])
  {
    var t := Literal(BoolConst(b));
    forall rest ensures Tokenize(cfg, acc, [Truth(b)] + rest) == Tokenize(cfg, Extend(acc, [t], []), rest) {
      assert ([Truth(b)] + rest)[1..] == rest && Extend(acc, [t], []) == Snoc(acc, t);
    }
  }

  lemma ScanNumber(cfg: Config, acc: Tokenized, v: Const, negated: Option<Const>)
    ensures Scans(cfg, acc, [Number(Some(v), negated)], AfterOperand(false), false, [Literal(v)], [])
  {
    var l := Number(Some(v), negated);
    forall rest ensures Tokenize(cfg, acc, [l] + rest) == Tokenize(cfg, Extend(acc, [Literal(v)], []), rest) {
      assert ([l] + rest)[1..] == rest && Extend(acc, [Literal(v)], []) == Snoc(acc, Literal(v));
    }
  }

  lemma ScanNegNumber(cfg: Config, acc: Tokenized, plain: Option<Const>, v: Const)
    requires LastIsOperator(acc.tokens)
    ensures Scans(cfg, acc, [MinusSign, Number(plain, Some(v))], AfterOperand(false), false, [Literal(v)], [])
  {
    var ls := [MinusSign, Number(plain, Some(v))];
    forall rest ensures Tokenize(cfg, acc, ls + rest) == Tokenize(cfg, Extend(acc, [Literal(v)], []), rest) {
      assert (ls + rest)[2..] == rest && Extend(acc, [Literal(v)], []) == Snoc(acc, Literal(v));
    }
  }

  lemma ScanTimestamp(cfg: Config, acc: Tokenized, name: string)
    requires ClockNamed(name).Some?
    ensures Scans(cfg, acc, [Identifier("timestamp"), LParen, Identifier(name), RParen], AfterOperand(false), false,
                  [Whole(Timestamp(ClockNamed(name).value))], [])
  {
    var ls := [Identifier("timestamp"), LParen, Identifier(name), RParen];
    var t := Whole(Timestamp(ClockNamed(name).value));
    forall rest ensures Tokenize(cfg, acc, ls + rest) == Tokenize(cfg, Extend(acc, [t], []), rest) {
      assert (ls + rest)[4..] == rest && Extend(acc, [t], []) == Snoc(acc, t);
      var params := (ls + rest)[1..];
      assert At(params, 1) == ls[2] && At(params, 2) == ls[3];
    }
  }

  /** A source path or a postfix field path. */
  lemma ScanPath(cfg: Config, acc: Tokenized, s: string)
    requires PathOk(s) || PostfixPathOk(s)
    ensures Scans(cfg, acc, [Identifier(s)], AfterOperand(false), false, [Path(SplitDots(s))], [])
  {
    var l, t := Identifier(s), Path(SplitDots(s));
    forall rest | MayFollow(AfterOperand(false), rest)
      ensures Tokenize(cfg, acc, [l] + rest) == Tokenize(cfg, Extend(acc, [t], []), rest)
    {
      assert ([l] + rest)[1..] == rest && Extend(acc, [t], []) == Snoc(acc, t);
      assert At([l] + rest, 1) == At(rest, 0) && At([l] + rest, 2) == At(rest, 1);
    }
  }

  lemma FunctionNameRoundTrip(fn: Operator)
    requires IsFunctionLike(fn)
    ensures FunctionNamed(FunctionName(fn)) == Some(fn)
    ensures FunctionName(fn) != "new" && FunctionName(fn) != "timestamp"
  {
  }

  lemma ScanFunction(cfg: Config, acc: Tokenized, fn: Operator)
    requires IsFunctionLike(fn)
    ensures Scans(cfg, acc, [Identifier(FunctionName(fn)), LParen], Anything, false, [Op(fn), Op(LeftParen)], [])
  {
    ScanName(cfg, acc, fn);
    ScanOperator(cfg, Extend(acc, [Op(fn)], []), LParen, LeftParen);
    var name, t: seq<Token<Tree>> := [Identifier(FunctionName(fn))], [Op(fn)];
    assert t + [Op(LeftParen)] == [Op(fn), Op(LeftParen)];
    ScansTrans(cfg, acc, name, Anything, false, t, [], [LParen], Anything, false, [Op(LeftParen)], []);
    assert name + [LParen] == [Identifier(FunctionName(fn)), LParen];
    NoLog();
  }

  lemma NoLog()
    ensures var none: seq<Tree> := []; none + none == none
  {
  }

  lemma ScanName(cfg: Config, acc: Tokenized, fn: Operator)
    requires IsFunctionLike(fn)
    ensures Scans(cfg, acc, [Identifier(FunctionName(fn))], Anything, false, [Op(fn)], [])
  {
    FunctionNameRoundTrip(fn);
    var l := Identifier(FunctionName(fn));
    forall rest ensures Tokenize(cfg, acc, [l] + rest) == Tokenize(cfg, Extend(acc, [Op(fn)], []), rest) {
      assert ([l] + rest)[1..] == rest && Extend(acc, [Op(fn)], []) == Snoc(acc, Op(fn));
    }
  }

  // ------------------------------------------------------------------------
  // Expressions

  /** The trees the builders of `e` push into the pool while `e` is tokenized. */
  function FieldLog(e: Expr): seq<Tree>
    requires Operands(e)
  {
    match e
    case Infix(_, l, r) => FieldLog(l) + FieldLog(r)
    case Raise(l, r) => FieldLog(l) + FieldLog(r)
    case Prefix(_, arg) => FieldLog(arg)
    case Index(b, i) => FieldLog(b) + FieldLog(i)
    case Access(b, _) => FieldLog(b)
    case Call1(_, a) => FieldLog(a)
    case Call2(_, a, b) => FieldLog(a) + FieldLog(b)
    case Group(x) => FieldLog(x)
    case Build(_, fields, _) => FieldsLog(fields, 0)
    case _ => []
  }

  function FieldsLog(fields: seq<FieldInit>, from: nat): seq<Tree>
    requires from <= |fields|
    requires forall i | 0 <= i < |fields| :: Operands(fields[i].value)
    decreases fields, |fields| - from
  {
    if from == |fields| then []
    else FieldLog(fields[from].value) + PostOrder(Meaning(fields[from].value)) + FieldsLog(fields, from + 1)
  }

  /** `e` scans to its tokens after `acc`. */
  ghost predicate ScansExpr(cfg: Config, acc: Tokenized, e: Expr)
    requires Operands(e)
  {
    Scans(cfg, acc, Print(e), AfterOperand(EndsInBuilder(e)), Rejected(cfg, HasFieldChain(e)), Tokens(e), FieldLog(e))
  }

  predicate ScanReady(cfg: Config, acc: Tokenized, e: Expr, guarded: bool) {
    Operands(e) && WellFormed(cfg, e, guarded) && LastIsOperator(acc.tokens)
  }

  lemma {:induction false} FirstLexeme(e: Expr)
    requires Operands(e)
    ensures !StartsWithNumber(e) ==> !Print(e)[0].Number?
  {
    match e
    case Infix(_, l, _) => FirstLexeme(l);
    case Raise(l, _) => FirstLexeme(l);
    case Index(b, _) => FirstLexeme(b);
    case Access(b, _) => FirstLexeme(b);
    case _ =>
  }

  lemma ExtendEndsInOperand(acc: Tokenized, e: Expr, log: seq<Tree>)
    requires Operands(e)
    ensures !LastIsOperator(Extend(acc, Tokens(e), log).tokens)
  {
    LastTokenIsOperand(e);
    assert Last(acc.tokens + Tokens(e)) == Last(Tokens(e));
  }

  lemma {:induction false} ScanExpr(cfg: Config, acc: Tokenized, e: Expr, guarded: bool)
    requires ScanReady(cfg, acc, e, guarded)
    ensures ScansExpr(cfg, acc, e)
    decreases e, 2
  {
    match e
    case Name(s) => ScanPath(cfg, acc, s);
    case Num(v, negated) => ScanNumber(cfg, acc, v, negated);
    case NegNum(plain, v) => ScanNegNumber(cfg, acc, plain, v);
    case Bool(b) => ScanTruth(cfg, acc, b);
    case Now(name) => ScanTimestamp(cfg, acc, name);
    case Build(_, _, _) => ScanBuild(cfg, acc, e, guarded);
    case Prefix(_, _) => ScanPrefix(cfg, acc, e, guarded);
    case Infix(op, _, _) => ScanInfix(cfg, acc, e, op, guarded);
    case Raise(_, _) => ScanInfix(cfg, acc, e, Power, guarded);
    case Index(_, _) => ScanIndex(cfg, acc, e, guarded);
    case Access(_, _) => ScanAccess(cfg, acc, e, guarded);
    case Call1(_, _) => ScanCall1(cfg, acc, e, guarded);
    case Call2(_, _, _) => ScanCall2(cfg, acc, e, guarded);
    case Group(_) => ScanGroup(cfg, acc, e, guarded);
  }

  lemma {:induction false} ScanPrefix(cfg: Config, acc: Tokenized, e: Expr, guarded: bool)
    requires e.Prefix? && ScanReady(cfg, acc, e, guarded)
    ensures ScansExpr(cfg, acc, e)
    decreases e, 1
  {
    var op, arg := e.op, e.arg;
    var l, f := if op.Not? then Exclamation else MinusSign, if op.Not? then Anything else NotNumber;
    ScanMinus(cfg, acc);
    ScanOperator(cfg, acc, Exclamation, Not);
    FirstLexeme(arg);
    ScanExpr(cfg, Extend(acc, [Op(op)], []), arg, true);
    ScansTrans(cfg, acc, [l], f, false, [Op(op)], [],
               Print(arg), AfterOperand(EndsInBuilder(arg)), Rejected(cfg, HasFieldChain(arg)), Tokens(arg),
                   FieldLog(arg));
    assert [] + FieldLog(arg) == FieldLog(arg);
  }

  lemma ScanInfixLexeme(cfg: Config, acc: Tokenized, op: Operator)
    requires IsInfix(op) && !LastIsOperator(acc.tokens)
    ensures Scans(cfg, acc, [InfixLexeme(op)], Anything, false, [Op(op)], [])
  {
    if op.Subtract? {
      ScanMinus(cfg, acc);
    } else {
      ScanOperator(cfg, acc, InfixLexeme(op), op);
    }
  }

  /** A single lexeme that stands for the operator token `op`, then an expression. */
  lemma {:induction false} ScanOpThen(cfg: Config, acc: Tokenized, l: Lexeme, op: Operator, e: Expr)
    requires Scans(cfg, acc, [l], Anything, false, [Op(op)], []) && !IsOperandToken<Tree>(Op(op))
    requires Operands(e) && WellFormed(cfg, e, false)
    ensures Scans(cfg, acc, [l] + Print(e), AfterOperand(EndsInBuilder(e)), Rejected(cfg, HasFieldChain(e)),
            [Op(op)] + Tokens(e), FieldLog(e))
    decreases e, 3
  {
    ScanExpr(cfg, Extend(acc, [Op(op)], []), e, false);
    ScansTrans(cfg, acc, [l], Anything, false, [Op(op)], [],
               Print(e), AfterOperand(EndsInBuilder(e)), Rejected(cfg, HasFieldChain(e)), Tokens(e), FieldLog(e));
    assert [] + FieldLog(e) == FieldLog(e);
  }

  lemma {:induction false} ScanInfix(cfg: Config, acc: Tokenized, e: Expr, op: Operator, guarded: bool)
    requires ((e.Infix? && e.op == op) || (e.Raise? && op.Power?)) && ScanReady(cfg, acc, e, guarded)
    ensures ScansExpr(cfg, acc, e)
    decreases e, 1
  {
    var l, r := e.left, e.right;
    ScanExpr(cfg, acc, l, guarded);
    var acc1 := Extend(acc, Tokens(l), FieldLog(l));
    ExtendEndsInOperand(acc, l, FieldLog(l));
    ScanInfixLexeme(cfg, acc1, op);
    ScanOpThen(cfg, acc1, InfixLexeme(op), op, r);
    ScansTrans(cfg, acc, Print(l), AfterOperand(EndsInBuilder(l)), Rejected(cfg, HasFieldChain(l)), Tokens(l),
        FieldLog(l),
               [InfixLexeme(op)] + Print(r), AfterOperand(EndsInBuilder(r)), Rejected(cfg, HasFieldChain(r)),
                   [Op(op)] + Tokens(r), FieldLog(r));
  }

  /** An opening lexeme, an expression and the lexeme that closes it. */
  lemma {:induction false} ScanWrapped(cfg: Config, acc: Tokenized, l: Lexeme, op: Operator, e: Expr, r: Lexeme,
                                       close: Operator)
    requires Scans(cfg, acc, [l], Anything, false, [Op(op)], []) && !IsOperandToken<Tree>(Op(op))
    requires Operands(e) && WellFormed(cfg, e, false) && OperatorOf(r) == Some(close)
    requires !r.LParen?
    ensures Scans(cfg, acc, [l] + Print(e) + [r], AfterOperand(false), Rejected(cfg, HasFieldChain(e)),
            [Op(op)] + (Tokens(e) + [Op(close)]), FieldLog(e))
    decreases e, 4
  {
    ScanOpThen(cfg, acc, l, op, e);
    ThenClose(cfg, acc, [l] + Print(e), EndsInBuilder(e), Rejected(cfg, HasFieldChain(e)), op, Tokens(e), FieldLog(e),
        r, close);
  }

  lemma {:induction false} ThenClose(cfg: Config, acc: Tokenized, text: seq<Lexeme>, builder: bool, bad: bool,
                                     op: Operator,
                                     toks: seq<Token<Tree>>, log: seq<Tree>, r: Lexeme, close: Operator)
    requires text != [] && toks != [] && Scans(cfg, acc, text, AfterOperand(builder), bad, [Op(op)] + toks, log)
    requires OperatorOf(r) == Some(close) && !r.LParen?
    ensures Scans(cfg, acc, text + [r], AfterOperand(false), bad, [Op(op)] + (toks + [Op(close)]), log)
  {
    ScanOperator(cfg, Extend(acc, [Op(op)] + toks, log), r, close);
    ScansTrans(cfg, acc, text, AfterOperand(builder), bad, [Op(op)] + toks, log, [r], Anything, false, [Op(close)], []);
    assert log + [] == log;
    assert [Op(op)] + toks + [Op(close)] == [Op(op)] + (toks + [Op(close)]);
  }

  /** An operand, then another between two lexemes. */
  ghost predicate ScansPair(cfg: Config, acc: Tokenized, a: Expr, b: Expr, l: Lexeme, open: Operator, r: Lexeme,
                            close: Operator)
    requires Operands(a) && Operands(b)
  {
    Scans(cfg, acc, Print(a) + ([l] + Print(b) + [r]), AfterOperand(false), Rejected(cfg, HasFieldChain(a))
        || Rejected(cfg, HasFieldChain(b)),
          Tokens(a) + ([Op(open)] + (Tokens(b) + [Op(close)])), FieldLog(a) + FieldLog(b))
  }

  lemma {:induction false} ScanPair(cfg: Config, acc: Tokenized, a: Expr, b: Expr, l: Lexeme, open: Operator, r: Lexeme,
                                    close: Operator)
    requires Operands(a) && ScansExpr(cfg, acc, a) && Operands(b) && WellFormed(cfg, b, false)
    requires OperatorOf(l) == Some(open) && !IsOperandToken<Tree>(Op(open)) && OperatorOf(r) == Some(close)
    requires !l.LParen? && !r.LParen?
    ensures ScansPair(cfg, acc, a, b, l, open, r, close)
    decreases b, 5
  {
    var acc1 := Extend(acc, Tokens(a), FieldLog(a));
    ScanOperator(cfg, acc1, l, open);
    ScanWrapped(cfg, acc1, l, open, b, r, close);
    ScansTrans(cfg, acc, Print(a), AfterOperand(EndsInBuilder(a)), Rejected(cfg, HasFieldChain(a)), Tokens(a),
        FieldLog(a),
               [l] + Print(b) + [r], AfterOperand(false), Rejected(cfg, HasFieldChain(b)),
                   [Op(open)] + (Tokens(b) + [Op(close)]), FieldLog(b));
  }

  lemma {:induction false} ScanIndex(cfg: Config, acc: Tokenized, e: Expr, guarded: bool)
    requires e.Index? && ScanReady(cfg, acc, e, guarded)
    ensures ScansExpr(cfg, acc, e)
    decreases e, 1
  {
    IndexParts(cfg, e, guarded);
    ScanExpr(cfg, acc, e.base, guarded);
    ScanBracketed(cfg, Extend(acc, Tokens(e.base), FieldLog(e.base)), e.index);
    BracketedIsIndex(cfg, acc, e);
  }

  ghost predicate ScansBracketed(cfg: Config, acc: Tokenized, e: Expr)
    requires Operands(e)
  {
    Scans(cfg, acc, [LBracket] + Print(e) + [RBracket], AfterOperand(false), Rejected(cfg, HasFieldChain(e)),
          [Op(LeftSquareBracket)] + (Tokens(e) + [Op(RightSquareBracket)]), FieldLog(e))
  }

  lemma {:induction false} ScanBracketed(cfg: Config, acc: Tokenized, e: Expr)
    requires Operands(e) && WellFormed(cfg, e, false)
    ensures ScansBracketed(cfg, acc, e)
    decreases e, 5
  {
    ScanOperator(cfg, acc, LBracket, LeftSquareBracket);
    ScanWrapped(cfg, acc, LBracket, LeftSquareBracket, e, RBracket, RightSquareBracket);
  }

  lemma {:induction false} BracketedIsIndex(cfg: Config, acc: Tokenized, e: Expr)
    requires e.Index? && Operands(e) && ScansExpr(cfg, acc, e.base)
    requires ScansBracketed(cfg, Extend(acc, Tokens(e.base), FieldLog(e.base)), e.index)
    ensures ScansExpr(cfg, acc, e)
  {
    var b, i := e.base, e.index;
    ScansTrans(cfg, acc, Print(b), AfterOperand(EndsInBuilder(b)), Rejected(cfg, HasFieldChain(b)), Tokens(b),
        FieldLog(b),
               [LBracket] + Print(i) + [RBracket], AfterOperand(false), Rejected(cfg, HasFieldChain(i)),
               [Op(LeftSquareBracket)] + (Tokens(i) + [Op(RightSquareBracket)]), FieldLog(i));
  }

  lemma {:induction false} IndexParts(cfg: Config, e: Expr, guarded: bool)
    requires e.Index? && Operands(e) && WellFormed(cfg, e, guarded)
    ensures Operands(e.base) && WellFormed(cfg, e.base, guarded) && Operands(e.index) && WellFormed(cfg, e.index, false)
  {
  }

  lemma {:induction false} ScanAccess(cfg: Config, acc: Tokenized, e: Expr, guarded: bool)
    requires e.Access? && ScanReady(cfg, acc, e, guarded)
    ensures ScansExpr(cfg, acc, e)
    decreases e, 1
  {
    var b, t := e.base, Path(SplitDots(e.path));
    ScanExpr(cfg, acc, b, guarded);
    ScanPath(cfg, Extend(acc, Tokens(b), FieldLog(b)), e.path);
    ScansTrans(cfg, acc, Print(b), AfterOperand(EndsInBuilder(b)), Rejected(cfg, HasFieldChain(b)), Tokens(b),
        FieldLog(b),
               [Identifier(e.path)], AfterOperand(false), false, [t], []);
    assert FieldLog(b) + [] == FieldLog(b);
  }

  lemma {:induction false} ScanGroup(cfg: Config, acc: Tokenized, e: Expr, guarded: bool)
    requires e.Group? && ScanReady(cfg, acc, e, guarded)
    ensures ScansExpr(cfg, acc, e)
    decreases e, 1
  {
    ScanOperator(cfg, acc, LParen, LeftParen);
    ScanWrapped(cfg, acc, LParen, LeftParen, e.inner, RParen, RightParen);
  }

  /** The last argument of a call, from the token before it to the closing parenthesis. */
  lemma {:induction false} ScanLastArgument(cfg: Config, acc: Tokenized, e: Expr)
    requires Operands(e) && WellFormed(cfg, e, false) && LastIsOperator(acc.tokens)
    ensures Scans(cfg, acc, Print(e) + [RParen], AfterOperand(false), Rejected(cfg, HasFieldChain(e)),
            Tokens(e) + [Op(RightParen)], FieldLog(e))
    decreases e, 3
  {
    ScanExpr(cfg, acc, e, false);
    ScanOperator(cfg, Extend(acc, Tokens(e), FieldLog(e)), RParen, RightParen);
    ScansTrans(cfg, acc, Print(e), AfterOperand(EndsInBuilder(e)), Rejected(cfg, HasFieldChain(e)), Tokens(e),
        FieldLog(e),
               [RParen], Anything, false, [Op(RightParen)], []);
    assert FieldLog(e) + [] == FieldLog(e);
  }

  lemma {:induction false} ScanCall1(cfg: Config, acc: Tokenized, e: Expr, guarded: bool)
    requires e.Call1? && ScanReady(cfg, acc, e, guarded)
    ensures ScansExpr(cfg, acc, e)
    decreases e, 1
  {
    var fn, a := e.fn, e.arg;
    var head, thead := [Identifier(FunctionName(fn)), LParen], [Op(fn), Op(LeftParen)];
    ScanFunction(cfg, acc, fn);
    ScanLastArgument(cfg, Extend(acc, thead, []), a);
    ScansTrans(cfg, acc, head, Anything, false, thead, [],
               Print(a) + [RParen], AfterOperand(false), Rejected(cfg, HasFieldChain(a)), Tokens(a) + [Op(RightParen)],
                   FieldLog(a));
    assert [] + FieldLog(a) == FieldLog(a);
  }

  lemma {:induction false} ScanCall2(cfg: Config, acc: Tokenized, e: Expr, guarded: bool)
    requires e.Call2? && ScanReady(cfg, acc, e, guarded)
    ensures ScansExpr(cfg, acc, e)
    decreases e, 1
  {
    var fn, a := e.fn, e.first;
    var head, thead := [Identifier(FunctionName(fn)), LParen], [Op(fn), Op(LeftParen)];
    ScanFunction(cfg, acc, fn);
    ScanArguments(cfg, Extend(acc, thead, []), e);
    var tail := Print(a) + ([CommaSign] + Print(e.second) + [RParen]);
    var ttail := Tokens(a) + ([Op(Comma)] + (Tokens(e.second) + [Op(RightParen)]));
    ScansTrans(cfg, acc, head, Anything, false, thead, [],
               tail, AfterOperand(false), Rejected(cfg, HasFieldChain(a))
                   || Rejected(cfg, HasFieldChain(e.second)), ttail, FieldLog(a) + FieldLog(e.second));
    assert [] + (FieldLog(a) + FieldLog(e.second)) == FieldLog(e);
  }

  lemma {:induction false} ScanArguments(cfg: Config, acc: Tokenized, e: Expr)
    requires e.Call2? && Operands(e.first) && Operands(e.second) && LastIsOperator(acc.tokens)
    requires WellFormed(cfg, e.first, false) && WellFormed(cfg, e.second, false)
    ensures ScansPair(cfg, acc, e.first, e.second, CommaSign, Comma, RParen, RightParen)
    decreases e, 0
  {
    ScanExpr(cfg, acc, e.first, false);
    ScanPair(cfg, acc, e.first, e.second, CommaSign, Comma, RParen, RightParen);
  }

  // ------------------------------------------------------------------------
  // Builders

  function AssignsOf(fields: seq<FieldInit>): seq<Assign>
    requires forall i | 0 <= i < |fields| :: Operands(fields[i].value)
  {
    seq(|fields|, i requires 0 <= i < |fields| => Assign(fields[i].name, Meaning(fields[i].value)))
  }

  predicate ChainFrom(fields: seq<FieldInit>, from: nat) {
    exists i | from <= i < |fields| :: HasFieldChain(fields[i].value) || HasOwnChain(fields[i].value)
  }

  /** How a builder goes on after a field that compiles to `field`. */
  function AfterField(cfg: Config, ty: string, acc: Built, name: string,
                      field: Result<(Tree, seq<Tree>), Error>, rest: seq<Lexeme>): Result<Parsed, Error>
    requires rest != []
  {
    if field.Err? then Err(field.error)
    else NextField(cfg, ty, Built(acc.assigns + [Assign(name, field.value.0)], field.value.1), rest)
  }

  /** One field of a builder, given what its text compiles to. */
  lemma ParseOneField(cfg: Config, ty: string, acc: Built, name: string, src: seq<Lexeme>, rest: seq<Lexeme>)
    requires Collect(src + rest, []) == Ok(|src|) && src != [] && rest != []
    requires '.' !in name && forall i | 0 <= i < |acc.assigns| :: acc.assigns[i].name != name
    ensures ParseBuilder(cfg, ty, acc, [Identifier(name), Colon] + src + rest)
         == AfterField(cfg, ty, acc, name, CompileField(cfg, acc.log, src), rest)
  {
    Assoc([Identifier(name), Colon], src, rest);
    var ls := [Identifier(name), Colon] + (src + rest);
    assert ls[2..] == src + rest;
    assert FieldName(acc.assigns, ls) == Ok(name);
    BodyOf(cfg, ty, acc, name, src, rest);
  }

  lemma BodyOf(cfg: Config, ty: string, acc: Built, name: string, src: seq<Lexeme>, rest: seq<Lexeme>)
    requires Collect(src + rest, []) == Ok(|src|) && src != [] && rest != []
    ensures ParseFieldBody(cfg, ty, acc, name, src + rest)
            == AfterField(cfg, ty, acc, name, CompileField(cfg, acc.log, src), rest)
  {
    assert (src + rest)[..|src|] == src;
    assert (src + rest)[|src|..] == rest;
  }

  lemma {:induction false} TokenizesField(cfg: Config, log: seq<Tree>, e: Expr)
    requires Operands(e) && WellFormed(cfg, e, false)
    ensures Tokenize(cfg, Tokenized([], log), StreamOf(Print(e)))
         == Rejecting(Rejected(cfg, HasFieldChain(e)), Ok(Tokenized(Tokens(e), log + FieldLog(e))))
    decreases e, 3
  {
    var acc := Tokenized([], log);
    ScanExpr(cfg, acc, e, false);
    LastLexeme(e);
    assert StreamOf(Print(e)) == Print(e) + [Eof];
    ScansAt(cfg, acc, Print(e), AfterOperand(EndsInBuilder(e)), Rejected(cfg, HasFieldChain(e)), Tokens(e), FieldLog(e),
        [Eof]);
    assert Extend(acc, Tokens(e), FieldLog(e)).tokens == Tokens(e);
  }

  lemma CompileFieldUnfold(cfg: Config, log: seq<Tree>, source: seq<Lexeme>, bad: bool, toks: Tokenized, bad2: bool,
                           t: Tree)
    requires Tokenize(cfg, Tokenized([], log), StreamOf(source)) == Rejecting(bad, Ok(toks))
    requires Compile(cfg, toks.tokens) == Rejecting(bad2, Ok(t))
    ensures CompileField(cfg, log, source) == Rejecting(bad || bad2, Ok((t, toks.log + PostOrder(t))))
  {
  }

  lemma {:induction false} CompilesField(cfg: Config, log: seq<Tree>, e: Expr)
    requires Operands(e) && WellFormed(cfg, e, false)
    ensures CompileField(cfg, log, Print(e))
         == Rejecting(Rejected(cfg, HasChain(e)), Ok((Meaning(e), log + FieldLog(e) + PostOrder(Meaning(e)))))
    decreases e, 4
  {
    TokenizesField(cfg, log, e);
    CompilesToMeaning(cfg, e);
    CompileFieldUnfold(cfg, log, Print(e), Rejected(cfg, HasFieldChain(e)), Tokenized(Tokens(e), log + FieldLog(e)),
                       Rejected(cfg, HasOwnChain(e)), Meaning(e));
  }

  lemma {:induction false} LastLexeme(e: Expr)
    requires Operands(e)
    ensures !Last(Print(e)).Eof?
  {
    match e
    case Infix(_, _, r) => LastLexeme(r);
    case Raise(_, r) => LastLexeme(r);
    case Prefix(_, arg) => LastLexeme(arg);
    case _ =>
  }

  predicate FieldsReady(cfg: Config, fields: seq<FieldInit>) {
    && (forall i | 0 <= i < |fields| :: Operands(fields[i].value))
    && (forall i, j | 0 <= i < j < |fields| :: fields[i].name != fields[j].name)
    && (forall i | 0 <= i < |fields| :: '.' !in fields[i].name)
    && (forall i | 0 <= i < |fields| :: WellFormed(cfg, fields[i].value, false))
  }

  /** How the text after field `from` goes on. */
  lemma TailShape(fields: seq<FieldInit>, from: nat, comma: bool, rest: seq<Lexeme>)
    requires from < |fields| && forall i | 0 <= i < |fields| :: Operands(fields[i].value)
    ensures
      var tail := PrintFields(fields, from + 1) + Separator(comma) + [RCurly] + rest;
      if from + 1 < |fields| then
        tail[0].CommaSign? && !At(tail, 1).RCurly? && tail[1..] == FieldsText(fields, from + 1, comma) + rest
      else if comma then tail[0].CommaSign? && At(tail, 1).RCurly? && tail[2..] == rest
      else tail[0].RCurly? && tail[1..] == rest
  {
    if from + 1 < |fields| {
      var v, more := fields[from + 1], PrintFields(fields, from + 2);
      var inner := [Identifier(v.name), Colon] + Print(v.value);
      SeqTail(inner, more, Separator(comma), rest);
    } else {
      assert Separator(comma) + [RCurly] == if comma then [CommaSign, RCurly] else [RCurly];
    }
  }

  lemma SeqTail(inner: seq<Lexeme>, more: seq<Lexeme>, sep: seq<Lexeme>, rest: seq<Lexeme>)
    requires inner != []
    ensures
      var tail := [CommaSign] + (inner + more) + sep + [RCurly] + rest;
      tail[0] == CommaSign && tail[1] == inner[0] && tail[1..] == inner + (more + sep + [RCurly]) + rest
  {
  }

  /** From `acc` on, `ls` completes a builder to `tree`. */
  ghost predicate Parses(cfg: Config, ty: string, acc: Built, ls: seq<Lexeme>, bad: bool, tree: Tree, log: seq<Tree>) {
    forall rest :: ParseBuilder(cfg, ty, acc, ls + rest) == Rejecting(bad, Ok(Parsed(tree, log, rest)))
  }

  lemma {:induction false} ParsesFields(cfg: Config, ty: string, fields: seq<FieldInit>, from: nat, comma: bool,
                                        log: seq<Tree>)
    requires FieldsReady(cfg, fields) && from < |fields|
    ensures Parses(cfg, ty, Built(AssignsOf(fields)[..from], log), FieldsText(fields, from, comma),
            Rejected(cfg, ChainFrom(fields, from)),
                   BuilderOf(ty, AssignsOf(fields)), log + FieldsLog(fields, from))
    decreases fields, |fields| - from
  {
    var v := fields[from].value;
    CompilesField(cfg, log, v);
    var log1 := log + FieldLog(v) + PostOrder(Meaning(v));
    FieldsUnfold(fields, from, log);
    ChainUnfold(fields, from);
    if from + 1 < |fields| {
      ParsesFields(cfg, ty, fields, from + 1, comma, log1);
    }
    ParsesField(cfg, ty, fields, from, comma, log, log1, Rejected(cfg, HasChain(v)),
        Rejected(cfg, ChainFrom(fields, from + 1)),
                log + FieldsLog(fields, from));
  }

  lemma FieldsUnfold(fields: seq<FieldInit>, from: nat, log: seq<Tree>)
    requires from < |fields| && forall i | 0 <= i < |fields| :: Operands(fields[i].value)
    ensures log + FieldLog(fields[from].value) + PostOrder(Meaning(fields[from].value)) + FieldsLog(fields, from + 1)
         == log + FieldsLog(fields, from)
    ensures FieldsLog(fields, |fields|) == []
  {
    var v := fields[from].value;
    Assoc4(log, FieldLog(v), PostOrder(Meaning(v)), FieldsLog(fields, from + 1));
  }

  lemma Assoc4<T>(a: seq<T>, b: seq<T>, c: seq<T>, d: seq<T>)
    ensures a + b + c + d == a + (b + c + d)
  {
  }

  lemma ChainUnfold(fields: seq<FieldInit>, from: nat)
    requires from < |fields|
    ensures ChainFrom(fields, from) <==> HasChain(fields[from].value) || ChainFrom(fields, from + 1)
    ensures !ChainFrom(fields, |fields|)
  {
  }

  /** The step from one field to the next. */
  lemma ParsesField(cfg: Config, ty: string, fields: seq<FieldInit>, from: nat, comma: bool, log: seq<Tree>,
                    log1: seq<Tree>,
                    bad: bool, bad2: bool, log2: seq<Tree>)
    requires FieldsReady(cfg, fields) && from < |fields|
    requires CompileField(cfg, log, Print(fields[from].value))
             == Rejecting(bad, Ok((Meaning(fields[from].value), log1)))
    requires if from + 1 == |fields| then !bad2 && log1 == log2
             else Parses(cfg, ty, Built(AssignsOf(fields)[..from + 1], log1), FieldsText(fields, from + 1, comma), bad2,
                         BuilderOf(ty, AssignsOf(fields)), log2)
    ensures Parses(cfg, ty, Built(AssignsOf(fields)[..from], log), FieldsText(fields, from, comma), bad || bad2,
                   BuilderOf(ty, AssignsOf(fields)), log2)
  {
    var name, v := fields[from].name, fields[from].value;
    var acc := Built(AssignsOf(fields)[..from], log);
    AssignsSnoc(fields, from);
    forall rest
      ensures ParseBuilder(cfg, ty, acc, FieldsText(fields, from, comma) + rest)
           == Rejecting(bad || bad2, Ok(Parsed(BuilderOf(ty, AssignsOf(fields)), log2, rest)))
    {
      var tail := PrintFields(fields, from + 1) + Separator(comma) + [RCurly] + rest;
      TailShape(fields, from, comma, rest);
      CollectsExpr(v, tail);
      ParseOneField(cfg, ty, acc, name, Print(v), tail);
      Assoc([Identifier(name), Colon] + Print(v), PrintFields(fields, from + 1) + Separator(comma) + [RCurly], rest);
    }
  }

  lemma AssignsSnoc(fields: seq<FieldInit>, from: nat)
    requires from < |fields| && forall i | 0 <= i < |fields| :: Operands(fields[i].value)
    ensures AssignsOf(fields)[..from] + [Assign(fields[from].name, Meaning(fields[from].value))]
            == AssignsOf(fields)[..from + 1]
    ensures AssignsOf(fields)[..|fields|] == AssignsOf(fields)
  {
  }

  lemma {:induction false} ScanBuild(cfg: Config, acc: Tokenized, e: Expr, guarded: bool)
    requires e.Build? && ScanReady(cfg, acc, e, guarded)
    ensures ScansExpr(cfg, acc, e)
    decreases e, 1
  {
    var ty := if e.ty.Some? then e.ty.value else "";
    ParsesBody(cfg, ty, e.fields, e.trailingComma, acc.log);
    ScanBraces(cfg, acc, e.ty, PrintFields(e.fields, 0) + Separator(e.trailingComma) + [RCurly],
        Rejected(cfg, ChainFrom(e.fields, 0)),
               BuilderOf(ty, AssignsOf(e.fields)), FieldsLog(e.fields, 0));
    assert HasFieldChain(e) == ChainFrom(e.fields, 0);
  }

  lemma ScanBraces(cfg: Config, acc: Tokenized, ty: Option<string>, body: seq<Lexeme>, bad: bool, tree: Tree,
                   log: seq<Tree>)
    requires Parses(cfg, if ty.Some? then ty.value else "", Built([], acc.log), body, bad, tree, acc.log + log)
    ensures Scans(cfg, acc, BuilderHead(ty) + [LCurly] + body, AfterOperand(true), bad, [Whole(tree)], log)
  {
    forall rest | MayFollow(AfterOperand(true), rest)
      ensures Tokenize(cfg, acc, BuilderHead(ty) + [LCurly] + body + rest)
           == Rejecting(bad, Tokenize(cfg, Extend(acc, [Whole(tree)], log), rest))
    {
      Assoc(BuilderHead(ty) + [LCurly], body, rest);
      OpenBuilder(cfg, acc, ty, body + rest);
      assert ParseBuilder(cfg, if ty.Some? then ty.value else "", Built([], acc.log), body + rest)
          == Rejecting(bad, Ok(Parsed(tree, acc.log + log, rest)));
    }
  }

  lemma OpenBuilder(cfg: Config, acc: Tokenized, ty: Option<string>, rest: seq<Lexeme>)
    ensures Tokenize(cfg, acc, BuilderHead(ty) + [LCurly] + rest)
         == TokenizeBuilder(cfg, acc, if ty.Some? then ty.value else "", rest)
  {
    var ls := BuilderHead(ty) + [LCurly] + rest;
    assert ls[|BuilderHead(ty)| + 1..] == rest;
  }

  lemma FirstFieldText(fields: seq<FieldInit>, comma: bool)
    requires fields != [] && forall i | 0 <= i < |fields| :: Operands(fields[i].value)
    ensures PrintFields(fields, 0) + Separator(comma) + [RCurly] == FieldsText(fields, 0, comma)
  {
    var head := [Identifier(fields[0].name), Colon] + Print(fields[0].value);
    Assoc(Separator(false), head, PrintFields(fields, 1));
    assert PrintFields(fields, 0) == head + PrintFields(fields, 1);
    Assoc(head, PrintFields(fields, 1), Separator(comma));
    Assoc(head, PrintFields(fields, 1) + Separator(comma), [RCurly]);
  }

  lemma {:induction false} ParsesBody(cfg: Config, ty: string, fields: seq<FieldInit>, comma: bool, log: seq<Tree>)
    requires FieldsReady(cfg, fields) && (comma ==> fields != [])
    ensures Parses(cfg, ty, Built([], log), PrintFields(fields, 0) + Separator(comma) + [RCurly],
            Rejected(cfg, ChainFrom(fields, 0)),
                   BuilderOf(ty, AssignsOf(fields)), log + FieldsLog(fields, 0))
    decreases fields, |fields| + 1
  {
    if fields == [] {
      ParsesEmpty(cfg, ty, log);
      assert log + FieldsLog(fields, 0) == log && AssignsOf(fields) == [];
      assert PrintFields(fields, 0) + Separator(comma) + [RCurly] == [RCurly];
    } else {
      assert AssignsOf(fields)[..0] == [];
      FirstFieldText(fields, comma);
      ParsesFields(cfg, ty, fields, 0, comma, log);
    }
  }

  lemma ParsesEmpty(cfg: Config, ty: string, log: seq<Tree>)
    ensures Parses(cfg, ty, Built([], log), [RCurly], false, BuilderOf(ty, []), log)
  {
    forall rest
      ensures ParseBuilder(cfg, ty, Built([], log), [RCurly] + rest) == Ok(Parsed(BuilderOf(ty, []), log, rest)) {
      assert ([RCurly] + rest)[1..] == rest;
    }
  }

  // ------------------------------------------------------------------------

  /** A source that spells a well-formed expression compiles to that expression's meaning,
      builders and all; the strict mode rejects it just when a comparison chain is written
      anywhere in it. The pool receives the trees of the builders' fields first, then the
      expression's own nodes bottom-up. */
  lemma {:induction false} SourceMeans(cfg: Config, e: Expr)
    requires Operands(e) && WellFormed(cfg, e, false)
    ensures CompileSource(cfg, Print(e))
         == Rejecting(Rejected(cfg, HasChain(e)), Ok(Compiled(Meaning(e), FieldLog(e) + PostOrder(Meaning(e)))))
  {
    CompilesField(cfg, [], e);
    assert [] + FieldLog(e) == FieldLog(e);
  }
}
