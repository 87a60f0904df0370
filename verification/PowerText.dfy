/** Where the text shows a subscript or a postfix field on a bare power: it follows an operand that
    a power sign stands right before. One pass over the lexemes tells. */
module PowerText {
  import opened Wrappers
  import opened Operators
  import opened Shunting
  import opened Tokenizer
  import opened TokenizerProof
  import opened Grammar
  import opened ScanProof
  import opened Reference
  import opened ReferenceProof
  import opened ReferenceComplete
  import opened Regularity
  import opened RegularText
  import opened PlainReading
  import opened UsualReading

  /** `ls` starts where an operand is wanted. `raised`: a power sign stands right before it; `open`
      says the same of each open bracket, innermost last. */
  predicate ClingsAtOperand(open: seq<bool>, raised: bool, ls: seq<Lexeme>)
    decreases |ls|
  {
    var l := At(ls, 0);
    if BuilderStart(ls).Some? then
      var s := SplitBuilder(ls[BuilderStart(ls).value.1..]);
      && s.Some?
      && ((exists t | t in s.value.texts :: ClingsAtOperand([], false, t))
          || ClingsAtOperator(open, raised, s.value.rest))
    else if TimestampStart(ls) then !At(ls, 3).Eof? && ClingsAtOperator(open, raised, ls[4..])
    else if l.Identifier? && FunctionNamed(l.name).Some? && At(ls, 1).LParen? then
      ClingsAtOperand(open + [raised], false, ls[2..])
    else if l.LParen? then ClingsAtOperand(open + [raised], false, ls[1..])
    else if l.MinusSign? && At(ls, 1).Number? then ClingsAtOperator(open, raised, ls[2..])
    else if l.MinusSign? || l.Exclamation? then ClingsAtOperand(open, false, ls[1..])
    else if l.Identifier? || l.Number? || l.Truth? then ClingsAtOperator(open, raised, ls[1..])
    else false
  }

  /** `ls` starts right after an operand; `raised`: a power sign stands right before that operand. */
  predicate ClingsAtOperator(open: seq<bool>, raised: bool, ls: seq<Lexeme>)
    decreases |ls|
  {
    var l := At(ls, 0);
    if l.LBracket? then raised || ClingsAtOperand(open + [false], false, ls[1..])
    else if DirectFieldAccess(l) then raised || ClingsAtOperator(open, false, ls[1..])
    else if InfixOf(l).Some? then ClingsAtOperand(open, l.StarStar?, ls[1..])
    else if l.CommaSign? then ClingsAtOperand(open, false, ls[1..])
    else if (l.RParen? || l.RBracket?) && open != [] then ClingsAtOperator(Front(open), Last(open), ls[1..])
    else false
  }

  /** Some subscript or field in `ls`, or in a builder field, follows an operand that a power sign
      stands right before. */
  predicate ClingsToPower(ls: seq<Lexeme>) { ClingsAtOperand([], false, ls) }

  // ------------------------------------------------------------------------
  // What a piece of text shows

  /** What is known of the operand a text ends in: a power sign stands before it, or none does, or
      it is the operand the text starts with. */
  datatype End = Same | Is(raised: bool)

  function After(end: End, raised: bool): bool { if end.Same? then raised else end.raised }

  /** Reading `text` comes upon a clinging subscript if `found`, or if `lead` and it is raised. */
  predicate ShowsAt(text: seq<Lexeme>, found: bool, lead: bool, end: End, open: seq<bool>, raised: bool,
                    rest: seq<Lexeme>) {
    ClingsAtOperand(open, raised, text + rest)
    == (found || (raised && lead) || ClingsAtOperator(open, After(end, raised), rest))
  }

  ghost predicate Shows(text: seq<Lexeme>, f: Follow, found: bool, lead: bool, end: End) {
    forall open, raised, rest | MayFollow(f, rest) :: ShowsAt(text, found, lead, end, open, raised, rest)
  }

  lemma {:induction false} InfixShows(x: Lexeme, open: seq<bool>, raised: bool, rest: seq<Lexeme>)
    requires InfixOf(x).Some?
    ensures ClingsAtOperator(open, raised, [x] + rest) == ClingsAtOperand(open, x.StarStar?, rest)
  {
    OneMore(x, rest);
  }

  lemma {:induction false} BracketShows(open: seq<bool>, raised: bool, rest: seq<Lexeme>)
    ensures ClingsAtOperator(open, raised, [LBracket] + rest)
            == (raised || ClingsAtOperand(open + [false], false, rest))
  {
    OneMore(LBracket, rest);
  }

  lemma {:induction false} FieldShows(path: string, open: seq<bool>, raised: bool, rest: seq<Lexeme>)
    requires IsDotted(path)
    ensures ClingsAtOperator(open, raised, [Identifier(path)] + rest) == (raised || ClingsAtOperator(open, false, rest))
  {
    OneMore(Identifier(path), rest);
  }

  lemma {:induction false} CloseShows(r: Lexeme, open: seq<bool>, flag: bool, raised: bool, rest: seq<Lexeme>)
    requires r.RParen? || r.RBracket?
    ensures ClingsAtOperator(open + [flag], raised, [r] + rest) == ClingsAtOperator(open, flag, rest)
  {
    OneMore(r, rest);
    assert Front(open + [flag]) == open;
  }

  lemma {:induction false} CommaShows(open: seq<bool>, raised: bool, rest: seq<Lexeme>)
    ensures ClingsAtOperator(open, raised, [CommaSign] + rest) == ClingsAtOperand(open, false, rest)
  {
    OneMore(CommaSign, rest);
  }

  lemma {:induction false} ParenShows(open: seq<bool>, raised: bool, rest: seq<Lexeme>)
    ensures ClingsAtOperand(open, raised, [LParen] + rest) == ClingsAtOperand(open + [raised], false, rest)
  {
    OneMore(LParen, rest);
  }

  lemma {:induction false} CallShows(fn: Operator, open: seq<bool>, raised: bool, rest: seq<Lexeme>)
    requires IsFunctionLike(fn)
    ensures ClingsAtOperand(open, raised, [Identifier(FunctionName(fn)), LParen] + rest)
         == ClingsAtOperand(open + [raised], false, rest)
  {
    var ls := [Identifier(FunctionName(fn)), LParen] + rest;
    FunctionNameRoundTrip(fn);
    assert ls[2..] == rest;
  }

  lemma {:induction false} PrefixShows(x: Lexeme, open: seq<bool>, raised: bool, rest: seq<Lexeme>)
    requires (x.MinusSign? && !At(rest, 0).Number?) || x.Exclamation?
    ensures ClingsAtOperand(open, raised, [x] + rest) == ClingsAtOperand(open, false, rest)
  {
    OneMore(x, rest);
  }

  // ------------------------------------------------------------------------
  // Putting texts together

  lemma {:induction false} ShowsInfix(a: seq<Lexeme>, f: bool, f1: bool, l1: bool, e1: End, x: Lexeme,
                                      b: seq<Lexeme>, g: Follow, f2: bool, l2: bool, e2: End)
    requires Shows(a, AfterOperand(f), f1, l1, e1) && InfixOf(x).Some? && Shows(b, g, f2, l2, e2)
    ensures Shows(a + ([x] + b), g, f1 || f2 || (x.StarStar? && l2), l1, Is(After(e2, x.StarStar?)))
  {
    var text, found, end := a + ([x] + b), f1 || f2 || (x.StarStar? && l2), Is(After(e2, x.StarStar?));
    forall open, raised, rest | MayFollow(g, rest) ensures ShowsAt(text, found, l1, end, open, raised, rest) {
      InfixSplit(a, x, b, rest);
      InfixLexemeOf(x);
      assert ShowsAt(a, f1, l1, e1, open, raised, [x] + (b + rest));
      InfixShows(x, open, After(e1, raised), b + rest);
      assert ShowsAt(b, f2, l2, e2, open, x.StarStar?, rest);
    }
  }

  lemma {:induction false} ShowsIndex(a: seq<Lexeme>, f: bool, f1: bool, l1: bool, e1: End,
                                      b: seq<Lexeme>, g: bool, f2: bool, l2: bool, e2: End)
    requires Shows(a, AfterOperand(f), f1, l1, e1) && Shows(b, AfterOperand(g), f2, l2, e2)
    ensures Shows(a + ([LBracket] + b + [RBracket]), AfterOperand(false), f1 || f2 || e1 == Is(true), l1 || e1.Same?,
                  Is(false))
  {
    var text, found, lead := a + ([LBracket] + b + [RBracket]), f1 || f2 || e1 == Is(true), l1 || e1.Same?;
    forall open, raised, rest | MayFollow(AfterOperand(false), rest)
      ensures ShowsAt(text, found, lead, Is(false), open, raised, rest)
    {
      var tail := [RBracket] + rest;
      WrappedSplit(a, LBracket, b, RBracket, rest);
      assert ShowsAt(a, f1, l1, e1, open, raised, [LBracket] + (b + tail));
      BracketShows(open, After(e1, raised), b + tail);
      assert ShowsAt(b, f2, l2, e2, open + [false], false, tail);
      CloseShows(RBracket, open, false, After(e2, false), rest);
    }
  }

  lemma {:induction false} ShowsAccess(a: seq<Lexeme>, f1: bool, l1: bool, e1: End, path: string)
    requires Shows(a, AfterOperand(false), f1, l1, e1) && PostfixPathOk(path)
    ensures Shows(a + [Identifier(path)], AfterOperand(false), f1 || e1 == Is(true), l1 || e1.Same?, Is(false))
  {
    var l, found, lead := Identifier(path), f1 || e1 == Is(true), l1 || e1.Same?;
    forall open, raised, rest | MayFollow(AfterOperand(false), rest)
      ensures ShowsAt(a + [l], found, lead, Is(false), open, raised, rest)
    {
      Assoc(a, [l], rest);
      OneMore(l, rest);
      assert ShowsAt(a, f1, l1, e1, open, raised, [l] + rest);
      FieldShows(path, open, After(e1, raised), rest);
    }
  }

  lemma {:induction false} ShowsPrefix(x: Lexeme, a: seq<Lexeme>, f: Follow, f1: bool, l1: bool, e1: End)
    requires a != [] && ((x.MinusSign? && !a[0].Number?) || x.Exclamation?) && Shows(a, f, f1, l1, e1)
    ensures Shows([x] + a, f, f1, false, Is(After(e1, false)))
  {
    forall open, raised, rest | MayFollow(f, rest)
      ensures ShowsAt([x] + a, f1, false, Is(After(e1, false)), open, raised, rest)
    {
      Assoc([x], a, rest);
      PrefixShows(x, open, raised, a + rest);
      assert ShowsAt(a, f1, l1, e1, open, false, rest);
    }
  }

  lemma {:induction false} ShowsGroup(a: seq<Lexeme>, f: bool, f1: bool, l1: bool, e1: End)
    requires Shows(a, AfterOperand(f), f1, l1, e1)
    ensures Shows([LParen] + a + [RParen], AfterOperand(false), f1, false, Same)
  {
    forall open, raised, rest | MayFollow(AfterOperand(false), rest)
      ensures ShowsAt([LParen] + a + [RParen], f1, false, Same, open, raised, rest)
    {
      var tail := [RParen] + rest;
      assert [LParen] + a + [RParen] + rest == [LParen] + (a + tail);
      ParenShows(open, raised, a + tail);
      assert ShowsAt(a, f1, l1, e1, open + [raised], false, tail);
      CloseShows(RParen, open, raised, After(e1, false), rest);
    }
  }

  lemma {:induction false} ShowsCall1(fn: Operator, a: seq<Lexeme>, f: bool, f1: bool, l1: bool, e1: End)
    requires IsFunctionLike(fn) && Shows(a, AfterOperand(f), f1, l1, e1)
    ensures Shows([Identifier(FunctionName(fn)), LParen] + (a + [RParen]), AfterOperand(false), f1, false, Same)
  {
    forall open, raised, rest | MayFollow(AfterOperand(false), rest)
      ensures ShowsAt([Identifier(FunctionName(fn)), LParen] + (a + [RParen]), f1, false, Same, open, raised, rest)
    {
      var tail := [RParen] + rest;
      CallSplit(fn, a, [RParen], rest);
      CallShows(fn, open, raised, a + tail);
      assert ShowsAt(a, f1, l1, e1, open + [raised], false, tail);
      CloseShows(RParen, open, raised, After(e1, false), rest);
    }
  }

  lemma {:induction false} ShowsCall2(fn: Operator, a: seq<Lexeme>, f: bool, f1: bool, l1: bool, e1: End,
                                      b: seq<Lexeme>, g: bool, f2: bool, l2: bool, e2: End)
    requires IsFunctionLike(fn) && Shows(a, AfterOperand(f), f1, l1, e1) && Shows(b, AfterOperand(g), f2, l2, e2)
    ensures Shows([Identifier(FunctionName(fn)), LParen] + (a + ([CommaSign] + b + [RParen])), AfterOperand(false),
                  f1 || f2, false, Same)
  {
    var text, found := [Identifier(FunctionName(fn)), LParen] + (a + ([CommaSign] + b + [RParen])), f1 || f2;
    forall open, raised, rest | MayFollow(AfterOperand(false), rest)
      ensures ShowsAt(text, found, false, Same, open, raised, rest)
    {
      var close := [RParen] + rest;
      assert ShowsAt(a, f1, l1, e1, open + [raised], false, [CommaSign] + (b + close));
      assert ShowsAt(b, f2, l2, e2, open + [raised], false, close);
      Call2At(fn, a, f1, l1, e1, b, f2, l2, e2, open, raised, rest);
    }
  }

  lemma {:induction false} Call2At(fn: Operator, a: seq<Lexeme>, f1: bool, l1: bool, e1: End, b: seq<Lexeme>, f2: bool,
                                   l2: bool, e2: End, open: seq<bool>, raised: bool, rest: seq<Lexeme>)
    requires IsFunctionLike(fn)
    requires ShowsAt(a, f1, l1, e1, open + [raised], false, [CommaSign] + (b + ([RParen] + rest)))
    requires ShowsAt(b, f2, l2, e2, open + [raised], false, [RParen] + rest)
    ensures ShowsAt([Identifier(FunctionName(fn)), LParen] + (a + ([CommaSign] + b + [RParen])), f1 || f2, false, Same,
                    open, raised, rest)
  {
    var tail := b + ([RParen] + rest);
    Call2Split(fn, a, b, rest);
    CallShows(fn, open, raised, a + ([CommaSign] + tail));
    CommaShows(open + [raised], After(e1, false), tail);
    CloseShows(RParen, open, raised, After(e2, false), rest);
  }

  predicate SomeClings(texts: seq<seq<Lexeme>>) { exists t | t in texts :: ClingsToPower(t) }

  lemma {:induction false} ShowsBuilder(ty: Option<string>, body: seq<Lexeme>, texts: seq<seq<Lexeme>>)
    requires forall rest :: SplitBuilder(body + rest) == Some(Split(texts, rest))
    ensures Shows(BuilderHead(ty) + [LCurly] + body, AfterOperand(true), SomeClings(texts), false, Same)
  {
    var found := SomeClings(texts);
    forall open, raised, rest | MayFollow(AfterOperand(true), rest)
      ensures ShowsAt(BuilderHead(ty) + [LCurly] + body, found, false, Same, open, raised, rest)
    {
      Assoc(BuilderHead(ty) + [LCurly], body, rest);
      BuildStarts(Config(false, false), false, ty, body + rest);
      assert SplitBuilder(body + rest) == Some(Split(texts, rest));
    }
  }

  lemma {:induction false} ShowsLeaf(l: Lexeme)
    requires l.Number? || l.Truth? || (l.Identifier? && FunctionNamed(l.name).None?)
    ensures Shows([l], AfterOperand(false), false, false, Same)
  {
    forall open, raised, rest | MayFollow(AfterOperand(false), rest)
      ensures ShowsAt([l], false, false, Same, open, raised, rest)
    {
      OneMore(l, rest);
    }
  }

  lemma {:induction false} ShowsNegative(number: Lexeme)
    requires number.Number?
    ensures Shows([MinusSign, number], AfterOperand(false), false, false, Same)
  {
    forall open, raised, rest | MayFollow(AfterOperand(false), rest)
      ensures ShowsAt([MinusSign, number], false, false, Same, open, raised, rest)
    {
      var ls := [MinusSign, number] + rest;
      assert ls[2..] == rest && ls[0] == MinusSign && ls[1] == number;
    }
  }

  lemma {:induction false} ShowsTimestamp(clock: string)
    ensures Shows([Identifier("timestamp"), LParen, Identifier(clock), RParen], AfterOperand(false), false, false, Same)
  {
    var text := [Identifier("timestamp"), LParen, Identifier(clock), RParen];
    forall open, raised, rest | MayFollow(AfterOperand(false), rest)
      ensures ShowsAt(text, false, false, Same, open, raised, rest)
    {
      assert (text + rest)[4..] == rest;
    }
  }

  // ------------------------------------------------------------------------
  // What the text of an expression shows

  /** The first operand of `e` has a subscript or a field right after it. */
  predicate LeadsClinging(e: Expr) {
    match e
    case Infix(_, l, _) => LeadsClinging(l)
    case Raise(l, _) => LeadsClinging(l)
    case Index(b, _) => LeadsClinging(b) || EndOf(b).Same?
    case Access(b, _) => LeadsClinging(b) || EndOf(b).Same?
    case _ => false
  }

  function EndOf(e: Expr): End {
    match e
    case Infix(op, _, r) => Is(After(EndOf(r), op.Power?))
    case Raise(_, r) => Is(After(EndOf(r), true))
    case Prefix(_, a) => Is(After(EndOf(a), false))
    case Index(_, _) => Is(false)
    case Access(_, _) => Is(false)
    case _ => Same
  }

  lemma {:induction false} LeadBinds(cfg: Config, e: Expr)
    requires Operands(e) && LeadsClinging(e)
    ensures LeftBinding(cfg, e) <= Precedence(Subscript)
  {
    match e
    case Infix(_, l, _) => LeadBinds(cfg, l);
    case Raise(l, _) => LeadBinds(cfg, l);
    case _ =>
  }

  /** A well-formed operand that a subscript can stand on. */
  predicate Bears(cfg: Config, b: Expr, guarded: bool) {
    Operands(b) && WellFormed(cfg, b, guarded) && RightBinding(b) >= Precedence(Subscript)
  }

  /** It ends in a raised operand just when it is a power. */
  lemma {:induction false} EndOfBase(cfg: Config, b: Expr, guarded: bool)
    requires Bears(cfg, b, guarded)
    ensures EndOf(b) == if IsPower(b) || b.Raise? then Is(true) else if IsPrimary(b) then Same else Is(false)
    decreases b, 1
  {
    match b
    case Infix(_, _, r) =>
      TightInfix(cfg, b, guarded);
      EndOfRight(cfg, r);
      EndOfPower(b);
    case Raise(_, r) =>
      TightRaise(cfg, b, guarded);
      EndOfRight(cfg, r);
      EndOfPower(b);
    case _ => EndOfOther(b);
  }

  /** So does the right operand of a power, or it is that operand itself. */
  lemma {:induction false} EndOfRight(cfg: Config, r: Expr)
    requires Bears(cfg, r, false) && LeftBinding(cfg, r) > Precedence(Subscript)
    ensures EndOf(r) == Is(true) || EndOf(r).Same?
    decreases r, 2
  {
    TightOperand(cfg, r);
    EndOfBase(cfg, r, false);
    if r.Infix? {
      TightInfix(cfg, r, false);
    }
  }

  lemma {:induction false} TightInfix(cfg: Config, b: Expr, guarded: bool)
    requires b.Infix? && Bears(cfg, b, guarded)
    ensures b.op.Power? && Bears(cfg, b.right, false) && LeftBinding(cfg, b.right) > Precedence(Subscript)
  {
    TightLevel(b.op);
  }

  lemma {:induction false} TightRaise(cfg: Config, b: Expr, guarded: bool)
    requires b.Raise? && Bears(cfg, b, guarded)
    ensures Bears(cfg, b.right, false) && LeftBinding(cfg, b.right) > Precedence(Subscript)
  {
    OperandsWellFormed(cfg, b, guarded);
    PowerBinds(cfg, b, guarded);
    RaiseReaches(b);
  }

  lemma {:induction false} RaiseReaches(b: Expr)
    requires b.Raise?
    ensures RightBinding(b) == Min(Precedence(Subscript), RightBinding(b.right))
  {
  }

  lemma TightLevel(op: Operator)
    requires IsInfix(op)
    ensures Precedence(op) >= Precedence(Subscript) ==> op.Power?
  {
  }

  lemma {:induction false} EndOfPower(b: Expr)
    requires IsPower(b) || b.Raise?
    ensures EndOf(b) == Is(After(EndOf(b.right), true))
  {
  }

  lemma {:induction false} EndOfOther(b: Expr)
    requires !b.Infix? && !b.Raise? && Operands(b) && RightBinding(b) >= Precedence(Subscript)
    ensures EndOf(b) == if IsPrimary(b) then Same else Is(false)
  {
  }

  /** No subscript or field reaches past the left end of such an operand. */
  lemma {:induction false} TightOperand(cfg: Config, r: Expr)
    requires Operands(r) && LeftBinding(cfg, r) > Precedence(Subscript)
    ensures !r.Index? && !r.Access? && !r.Raise?
  {
    if r.Raise? {
      IndexBinds(cfg, r.left);
    }
  }

  lemma {:induction false} IndexBinds(cfg: Config, e: Expr)
    requires e.Index?
    ensures LeftBinding(cfg, e) <= Precedence(Subscript)
  {
  }

  ghost predicate ShowsExpr(e: Expr)
    requires Operands(e)
  {
    Shows(Print(e), AfterOperand(EndsInBuilder(e)), HasPowerBase(e), LeadsClinging(e), EndOf(e))
  }

  lemma {:induction false} PrintShows(cfg: Config, e: Expr, guarded: bool)
    requires Operands(e) && WellFormed(cfg, e, guarded)
    ensures ShowsExpr(e)
    decreases e, 3
  {
    match e
    case Infix(_, _, _) => OperatorShown(cfg, e, guarded);
    case Raise(_, _) => OperatorShown(cfg, e, guarded);
    case Index(_, _) => IndexShown(cfg, e, guarded);
    case Access(_, _) => AccessShown(cfg, e, guarded);
    case Call2(_, _, _) => Call2Shown(cfg, e);
    case Build(_, _, _) => BuildShown(cfg, e, guarded);
    case Prefix(_, _) => PrefixShown(cfg, e, guarded);
    case Group(x) =>
      PrintShows(cfg, x, false);
      ShowsGroup(Print(x), EndsInBuilder(x), HasPowerBase(x), LeadsClinging(x), EndOf(x));
    case Call1(fn, a) =>
      PrintShows(cfg, a, false);
      ShowsCall1(fn, Print(a), EndsInBuilder(a), HasPowerBase(a), LeadsClinging(a), EndOf(a));
    case _ => LeafShown(cfg, e, guarded);
  }

  lemma {:induction false} OperatorShown(cfg: Config, e: Expr, guarded: bool)
    requires (e.Infix? || e.Raise?) && Operands(e) && WellFormed(cfg, e, guarded)
    ensures ShowsExpr(e)
    decreases e, 2
  {
    var l, r, op := e.left, e.right, if e.Raise? then Power else e.op;
    OperandsWellFormed(cfg, e, guarded);
    PrintShows(cfg, l, guarded);
    PrintShows(cfg, r, false);
    NoLeadAfterPower(cfg, e, guarded);
    OperatorJoins(l, r, op);
    PrintsOperator(e);
  }

  lemma {:induction false} NoLeadAfterPower(cfg: Config, e: Expr, guarded: bool)
    requires (e.Infix? || e.Raise?) && Operands(e) && WellFormed(cfg, e, guarded)
    ensures e.Raise? || e.op.Power? ==> !LeadsClinging(e.right)
  {
    if LeadsClinging(e.right) {
      LeadBinds(cfg, e.right);
    }
  }

  lemma {:induction false} OperatorJoins(l: Expr, r: Expr, op: Operator)
    requires IsInfix(op) && Operands(l) && Operands(r) && ShowsExpr(l) && ShowsExpr(r)
             && (op.Power? ==> !LeadsClinging(r))
    ensures Shows(Print(l) + ([InfixLexeme(op)] + Print(r)), AfterOperand(EndsInBuilder(r)),
                  HasPowerBase(l) || HasPowerBase(r), LeadsClinging(l), Is(After(EndOf(r), op.Power?)))
  {
    InfixOfLexeme(op);
    PowerLexeme(op);
    ShowsInfix(Print(l), EndsInBuilder(l), HasPowerBase(l), LeadsClinging(l), EndOf(l), InfixLexeme(op),
               Print(r), AfterOperand(EndsInBuilder(r)), HasPowerBase(r), LeadsClinging(r), EndOf(r));
  }

  lemma PowerLexeme(op: Operator)
    requires IsInfix(op)
    ensures InfixLexeme(op).StarStar? <==> op.Power?
  {
  }

  lemma {:induction false} IndexShown(cfg: Config, e: Expr, guarded: bool)
    requires e.Index? && Operands(e) && WellFormed(cfg, e, guarded)
    ensures ShowsExpr(e)
    decreases e, 2
  {
    var b, i := e.base, e.index;
    PrintShows(cfg, b, guarded);
    PrintShows(cfg, i, false);
    EndOfBase(cfg, b, guarded);
    ShowsIndex(Print(b), EndsInBuilder(b), HasPowerBase(b), LeadsClinging(b), EndOf(b),
               Print(i), EndsInBuilder(i), HasPowerBase(i), LeadsClinging(i), EndOf(i));
  }

  lemma {:induction false} AccessShown(cfg: Config, e: Expr, guarded: bool)
    requires e.Access? && Operands(e) && WellFormed(cfg, e, guarded)
    ensures ShowsExpr(e)
    decreases e, 2
  {
    var b := e.base;
    PrintShows(cfg, b, guarded);
    EndOfBase(cfg, b, guarded);
    ShowsAccess(Print(b), HasPowerBase(b), LeadsClinging(b), EndOf(b), e.path);
  }

  lemma {:induction false} PrefixShown(cfg: Config, e: Expr, guarded: bool)
    requires e.Prefix? && Operands(e) && WellFormed(cfg, e, guarded)
    ensures ShowsExpr(e)
    decreases e, 2
  {
    var a := e.arg;
    PrintShows(cfg, a, true);
    FirstLexeme(a);
    ShowsPrefix(if e.op.Not? then Exclamation else MinusSign, Print(a), AfterOperand(EndsInBuilder(a)),
                HasPowerBase(a), LeadsClinging(a), EndOf(a));
  }

  lemma {:induction false} Call2Shown(cfg: Config, e: Expr)
    requires e.Call2? && Operands(e) && WellFormed(cfg, e, false)
    ensures ShowsExpr(e)
    decreases e, 2
  {
    var a, b := e.first, e.second;
    PrintShows(cfg, a, false);
    PrintShows(cfg, b, false);
    ShowsCall2(e.fn, Print(a), EndsInBuilder(a), HasPowerBase(a), LeadsClinging(a), EndOf(a),
               Print(b), EndsInBuilder(b), HasPowerBase(b), LeadsClinging(b), EndOf(b));
  }

  lemma {:induction false} LeafShown(cfg: Config, e: Expr, guarded: bool)
    requires (e.Name? || e.Num? || e.NegNum? || e.Bool? || e.Now?) && WellFormed(cfg, e, guarded)
    ensures ShowsExpr(e)
  {
    if e.NegNum? {
      ShowsNegative(Number(e.plain, Some(e.value)));
    } else if e.Now? {
      ShowsTimestamp(e.clockName);
    } else {
      ShowsLeaf(Print(e)[0]);
      assert Print(e) == [Print(e)[0]];
    }
  }

  lemma {:induction false} BuildShown(cfg: Config, e: Expr, guarded: bool)
    requires e.Build? && Operands(e) && WellFormed(cfg, e, guarded)
    ensures ShowsExpr(e)
    decreases e, 2
  {
    var body, texts := PrintFields(e.fields, 0) + Separator(e.trailingComma) + [RCurly], Texts(e.fields, 0);
    forall rest ensures SplitBuilder(body + rest) == Some(Split(texts, rest)) {
      BodySplits(cfg, e, rest);
    }
    FieldsShown(cfg, e.fields, 0);
    ShowsBuilder(e.ty, body, texts);
  }

  lemma {:induction false} FieldsShown(cfg: Config, fields: seq<FieldInit>, from: nat)
    requires FieldsReady(cfg, fields) && from <= |fields|
    ensures SomeClings(Texts(fields, from))
       <==> (exists i | from <= i < |fields| :: HasPowerBase(fields[i].value))
    decreases fields, |fields| - from
  {
    if from < |fields| {
      PrintClings(cfg, fields[from].value);
      FieldsShown(cfg, fields, from + 1);
      assert Texts(fields, from) == [Print(fields[from].value)] + Texts(fields, from + 1);
    }
  }

  /** The text of a well-formed expression shows just when some subscript or field stands on a bare
      power. */
  lemma {:induction false} PrintClings(cfg: Config, e: Expr)
    requires Operands(e) && WellFormed(cfg, e, false)
    ensures ClingsToPower(Print(e)) <==> HasPowerBase(e)
    decreases e, 4
  {
    PrintShows(cfg, e, false);
    AloneShows(Print(e), EndsInBuilder(e), HasPowerBase(e), LeadsClinging(e), EndOf(e));
  }

  lemma {:induction false} AloneShows(text: seq<Lexeme>, f: bool, found: bool, lead: bool, end: End)
    requires Shows(text, AfterOperand(f), found, lead, end)
    ensures ClingsToPower(text) == found
  {
    assert text + [] == text;
    assert ShowsAt(text, found, lead, end, [], false, []);
  }

  /** An accepted text that compiles gets the tree of its usual reading if and only if no subscript or
      field follows an operand that a power sign stands right before and, where power groups to the
      right, no closing bracket is directly followed by a power sign. */
  lemma {:induction false} UsualByText(cfg: Config, ls: seq<Lexeme>)
    requires Parse(cfg, ls).Some? && CompileSource(cfg, ls).Ok?
    ensures
      var u := Usual(cfg.rightAssociativePower, Parse(cfg, ls).value);
      && Operands(u) && Print(u) == ls && UsuallyGrouped(cfg, u)
      && (CompileSource(cfg, ls).value.tree == Meaning(u)
          <==> !ClingsToPower(ls) && !(cfg.rightAssociativePower && RaisesSubscript(ls)))
  {
    UsualJustWhen(cfg, ls);
    AgreesWithReference(cfg, ls);
    PrintClings(cfg, Parse(cfg, ls).value);
  }
}
