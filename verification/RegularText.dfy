/** The text of every well-formed expression alternates and gives its calls what they are due. */
module RegularText {
  import opened Wrappers
  import opened Operators
  import opened Shunting
  import opened Tokenizer
  import opened TokenizerProof
  import opened Grammar
  import opened ScanProof
  import opened Reference
  import opened ReferenceProof
  import opened ReferenceComplete
  import opened Regularity

  /** `text` is an operand for both scans: they go on after it as they were before. */
  predicate SkipsAt(text: seq<Lexeme>, open: seq<Slot>, rest: seq<Lexeme>) {
    && WantsOperand(text + rest) == WantsOperator(rest)
    && ArityFrom(open, text + rest) == ArityFrom(open, rest)
  }

  ghost predicate Skips(text: seq<Lexeme>, f: Follow) {
    forall open, rest | MayFollow(f, rest) :: SkipsAt(text, open, rest)
  }

  lemma OneMore(l: Lexeme, rest: seq<Lexeme>)
    ensures ([l] + rest)[1..] == rest && At([l] + rest, 0) == l && At([l] + rest, 1) == At(rest, 0)
            && At([l] + rest, 2) == At(rest, 1)
  {
  }

  // ------------------------------------------------------------------------
  // Single lexemes

  lemma {:induction false} OperatorGoesOn(x: Lexeme, open: seq<Slot>, rest: seq<Lexeme>)
    requires InfixOf(x).Some?
    ensures WantsOperator([x] + rest) == WantsOperand(rest) && ArityFrom(open, [x] + rest) == ArityFrom(open, rest)
  {
    OneMore(x, rest);
  }

  lemma {:induction false} PrefixGoesOn(x: Lexeme, open: seq<Slot>, rest: seq<Lexeme>)
    requires x.MinusSign? || x.Exclamation?
    ensures WantsOperand([x] + rest) == WantsOperand(rest) && ArityFrom(open, [x] + rest) == ArityFrom(open, rest)
  {
    OneMore(x, rest);
  }

  lemma {:induction false} BracketOpens(open: seq<Slot>, rest: seq<Lexeme>)
    ensures WantsOperator([LBracket] + rest) == WantsOperand(rest)
            && ArityFrom(open, [LBracket] + rest) == ArityFrom(open + [Plain], rest)
  {
    OneMore(LBracket, rest);
  }

  lemma {:induction false} ParenOpens(open: seq<Slot>, rest: seq<Lexeme>)
    ensures WantsOperand([LParen] + rest) == WantsOperand(rest)
            && ArityFrom(open, [LParen] + rest) == ArityFrom(open + [Plain], rest)
  {
    OneMore(LParen, rest);
  }

  lemma {:induction false} CallOpens(fn: Operator, open: seq<Slot>, rest: seq<Lexeme>)
    requires IsFunctionLike(fn)
    ensures
      var ls := [Identifier(FunctionName(fn)), LParen] + rest;
      && WantsOperand(ls) == WantsOperand(rest)
      && ArityFrom(open, ls) == ArityFrom(open + [Slot.Call(if IsUnary(fn) then 0 else 1)], rest)
  {
    var ls := [Identifier(FunctionName(fn)), LParen] + rest;
    FunctionNameRoundTrip(fn);
    assert ls[1..] == [LParen] + rest && ls[2..] == rest;
    ParenOpens(open, rest);
  }

  lemma {:induction false} CloseGoesOn(r: Lexeme, slot: Slot, open: seq<Slot>, rest: seq<Lexeme>)
    requires (r.RParen? || r.RBracket?) && (slot.Call? ==> slot.due == 0)
    ensures WantsOperator([r] + rest) == WantsOperator(rest)
            && ArityFrom(open + [slot], [r] + rest) == ArityFrom(open, rest)
  {
    OneMore(r, rest);
    assert Front(open + [slot]) == open;
  }

  lemma {:induction false} CommaGoesOn(open: seq<Slot>, rest: seq<Lexeme>)
    ensures WantsOperator([CommaSign] + rest) == WantsOperand(rest)
    ensures ArityFrom(open + [Slot.Call(1)], [CommaSign] + rest) == ArityFrom(open + [Slot.Call(0)], rest)
  {
    OneMore(CommaSign, rest);
    assert Front(open + [Slot.Call(1)]) == open;
  }

  // ------------------------------------------------------------------------
  // Texts

  lemma {:induction false} SkipsInfix(a: seq<Lexeme>, f: bool, x: Lexeme, b: seq<Lexeme>, g: Follow)
    requires Skips(a, AfterOperand(f)) && InfixOf(x).Some? && Skips(b, g)
    ensures Skips(a + ([x] + b), g)
  {
    forall open, rest | MayFollow(g, rest) ensures SkipsAt(a + ([x] + b), open, rest) {
      InfixSplit(a, x, b, rest);
      InfixLexemeOf(x);
      assert SkipsAt(a, open, [x] + (b + rest));
      OperatorGoesOn(x, open, b + rest);
      assert SkipsAt(b, open, rest);
    }
  }

  lemma {:induction false} SkipsIndex(a: seq<Lexeme>, f: bool, b: seq<Lexeme>, g: bool)
    requires Skips(a, AfterOperand(f)) && Skips(b, AfterOperand(g))
    ensures Skips(a + ([LBracket] + b + [RBracket]), AfterOperand(false))
  {
    forall open, rest | MayFollow(AfterOperand(false), rest)
      ensures SkipsAt(a + ([LBracket] + b + [RBracket]), open, rest) {
      WrappedSplit(a, LBracket, b, RBracket, rest);
      assert SkipsAt(a, open, [LBracket] + (b + ([RBracket] + rest)));
      BracketOpens(open, b + ([RBracket] + rest));
      assert SkipsAt(b, open + [Plain], [RBracket] + rest);
      CloseGoesOn(RBracket, Plain, open, rest);
    }
  }

  lemma {:induction false} SkipsAccess(a: seq<Lexeme>, path: string)
    requires Skips(a, AfterOperand(false)) && PostfixPathOk(path)
    ensures Skips(a + [Identifier(path)], AfterOperand(false))
  {
    var l := Identifier(path);
    forall open, rest | MayFollow(AfterOperand(false), rest) ensures SkipsAt(a + [l], open, rest) {
      Assoc(a, [l], rest);
      OneMore(l, rest);
      assert SkipsAt(a, open, [l] + rest);
      PathGoesOn(path, open, rest);
    }
  }

  lemma {:induction false} PathGoesOn(path: string, open: seq<Slot>, rest: seq<Lexeme>)
    requires PostfixPathOk(path)
    ensures WantsOperator([Identifier(path)] + rest) == WantsOperator(rest)
    ensures ArityFrom(open, [Identifier(path)] + rest) == ArityFrom(open, rest)
  {
    OneMore(Identifier(path), rest);
  }

  lemma {:induction false} SkipsPrefix(x: Lexeme, a: seq<Lexeme>, f: Follow)
    requires (x.MinusSign? || x.Exclamation?) && Skips(a, f)
    ensures Skips([x] + a, f)
  {
    forall open, rest | MayFollow(f, rest) ensures SkipsAt([x] + a, open, rest) {
      Assoc([x], a, rest);
      PrefixGoesOn(x, open, a + rest);
      assert SkipsAt(a, open, rest);
    }
  }

  lemma {:induction false} SkipsGroup(a: seq<Lexeme>, f: bool)
    requires Skips(a, AfterOperand(f))
    ensures Skips([LParen] + a + [RParen], AfterOperand(false))
  {
    forall open, rest | MayFollow(AfterOperand(false), rest) ensures SkipsAt([LParen] + a + [RParen], open, rest) {
      assert [LParen] + a + [RParen] + rest == [LParen] + (a + ([RParen] + rest));
      ParenOpens(open, a + ([RParen] + rest));
      assert SkipsAt(a, open + [Plain], [RParen] + rest);
      CloseGoesOn(RParen, Plain, open, rest);
    }
  }

  lemma {:induction false} SkipsCall1(fn: Operator, a: seq<Lexeme>, f: bool)
    requires IsFunctionLike(fn) && IsUnary(fn) && Skips(a, AfterOperand(f))
    ensures Skips([Identifier(FunctionName(fn)), LParen] + (a + [RParen]), AfterOperand(false))
  {
    forall open, rest | MayFollow(AfterOperand(false), rest)
      ensures SkipsAt([Identifier(FunctionName(fn)), LParen] + (a + [RParen]), open, rest)
    {
      CallSplit(fn, a, [RParen], rest);
      CallOpens(fn, open, a + ([RParen] + rest));
      assert SkipsAt(a, open + [Slot.Call(0)], [RParen] + rest);
      CloseGoesOn(RParen, Slot.Call(0), open, rest);
    }
  }

  lemma {:induction false} SkipsCall2(fn: Operator, a: seq<Lexeme>, f: bool, b: seq<Lexeme>, g: bool)
    requires IsFunctionLike(fn) && !IsUnary(fn) && Skips(a, AfterOperand(f)) && Skips(b, AfterOperand(g))
    ensures Skips([Identifier(FunctionName(fn)), LParen] + (a + ([CommaSign] + b + [RParen])), AfterOperand(false))
  {
    forall open, rest | MayFollow(AfterOperand(false), rest)
      ensures SkipsAt([Identifier(FunctionName(fn)), LParen] + (a + ([CommaSign] + b + [RParen])), open, rest)
    {
      var tail := b + ([RParen] + rest);
      Call2Split(fn, a, b, rest);
      CallOpens(fn, open, a + ([CommaSign] + tail));
      assert SkipsAt(a, open + [Slot.Call(1)], [CommaSign] + tail);
      CommaGoesOn(open, tail);
      assert SkipsAt(b, open + [Slot.Call(0)], [RParen] + rest);
      CloseGoesOn(RParen, Slot.Call(0), open, rest);
    }
  }

  // ------------------------------------------------------------------------
  // Builders

  /** The texts of the fields from `from` on. */
  function Texts(fields: seq<FieldInit>, from: nat): seq<seq<Lexeme>>
    requires from <= |fields| && forall i | 0 <= i < |fields| :: Operands(fields[i].value)
    decreases |fields| - from
  {
    if from == |fields| then [] else [Print(fields[from].value)] + Texts(fields, from + 1)
  }

  lemma {:induction false} SplitStep(name: string, text: seq<Lexeme>, tail: seq<Lexeme>)
    requires tail != [] && Collect(text + tail, []) == Ok(|text|)
    ensures
      SplitBuilder([Identifier(name), Colon] + (text + tail))
      == if Closes(tail) then Some(Split([text], AfterSeparator(tail)))
         else
           var more := SplitBuilder(AfterSeparator(tail));
           if more.None? then None else Some(Split([text] + more.value.texts, more.value.rest))
  {
    var ls := [Identifier(name), Colon] + (text + tail);
    assert ls[2..] == text + tail && (text + tail)[..|text|] == text && (text + tail)[|text|..] == tail;
  }

  /** The first field of `whole`, and the fields after it. */
  lemma {:induction false} SplitsFirst(whole: seq<Lexeme>, name: string, text: seq<Lexeme>, tail: seq<Lexeme>,
                                       texts: seq<seq<Lexeme>>, rest: seq<Lexeme>)
    requires whole == [Identifier(name), Colon] + (text + tail) && tail != [] && Collect(text + tail, []) == Ok(|text|)
    requires if Closes(tail) then AfterSeparator(tail) == rest && texts == []
             else SplitBuilder(AfterSeparator(tail)) == Some(Split(texts, rest))
    ensures SplitBuilder(whole) == Some(Split([text] + texts, rest))
  {
    SplitStep(name, text, tail);
    assert [text] + [] == [text];
  }

  lemma {:induction false} SplitsFields(cfg: Config, fields: seq<FieldInit>, from: nat, comma: bool, rest: seq<Lexeme>)
    requires FieldsReady(cfg, fields) && from < |fields|
    ensures SplitBuilder(FieldsText(fields, from, comma) + rest) == Some(Split(Texts(fields, from), rest))
    decreases |fields| - from
  {
    var f, more := fields[from], PrintFields(fields, from + 1) + Separator(comma) + [RCurly];
    var whole, text, tail := FieldsText(fields, from, comma) + rest, Print(f.value), more + rest;
    assert whole == [Identifier(f.name), Colon] + (text + tail) by {
      FieldSplit(f.name, text, more, rest);
    }
    TailShape(fields, from, comma, rest);
    CollectsExpr(f.value, tail);
    if from + 1 < |fields| {
      SplitsFields(cfg, fields, from + 1, comma, rest);
    }
    SplitsFirst(whole, f.name, text, tail, Texts(fields, from + 1), rest);
  }

  ghost predicate Regular(t: seq<Lexeme>) { WantsOperand(t) && ArityFrom([], t) }

  lemma {:induction false} SkipsBuilder(ty: Option<string>, body: seq<Lexeme>, texts: seq<seq<Lexeme>>)
    requires forall rest :: SplitBuilder(body + rest) == Some(Split(texts, rest))
    requires forall t | t in texts :: Regular(t)
    ensures Skips(BuilderHead(ty) + [LCurly] + body, AfterOperand(true))
  {
    forall open, rest | MayFollow(AfterOperand(true), rest)
      ensures SkipsAt(BuilderHead(ty) + [LCurly] + body, open, rest) {
      var ls := BuilderHead(ty) + [LCurly] + (body + rest);
      Assoc(BuilderHead(ty) + [LCurly], body, rest);
      BuildStarts(Config(false, false), false, ty, body + rest);
      assert SplitBuilder(body + rest) == Some(Split(texts, rest));
    }
  }

  /** What stands in the braces of a builder, and what follows. */
  lemma {:induction false} BodySplits(cfg: Config, e: Expr, rest: seq<Lexeme>)
    requires e.Build? && Operands(e) && WellFormed(cfg, e, false)
    ensures
      var body := PrintFields(e.fields, 0) + Separator(e.trailingComma) + [RCurly];
      SplitBuilder(body + rest) == Some(Split(Texts(e.fields, 0), rest))
  {
    if e.fields == [] {
      assert PrintFields(e.fields, 0) + Separator(e.trailingComma) + [RCurly] + rest == [RCurly] + rest;
      OneMore(RCurly, rest);
    } else {
      FirstFieldText(e.fields, e.trailingComma);
      SplitsFields(cfg, e.fields, 0, e.trailingComma, rest);
    }
  }

  lemma {:induction false} SkipsBuild(cfg: Config, e: Expr, guarded: bool)
    requires e.Build? && Operands(e) && WellFormed(cfg, e, guarded)
    ensures Skips(Print(e), AfterOperand(true))
    decreases e, 0
  {
    var body := PrintFields(e.fields, 0) + Separator(e.trailingComma) + [RCurly];
    forall rest ensures SplitBuilder(body + rest) == Some(Split(Texts(e.fields, 0), rest)) {
      BodySplits(cfg, e, rest);
    }
    TextsRegular(cfg, e.fields, 0);
    SkipsBuilder(e.ty, body, Texts(e.fields, 0));
  }

  lemma {:induction false} TextsRegular(cfg: Config, fields: seq<FieldInit>, from: nat)
    requires FieldsReady(cfg, fields) && from <= |fields|
    ensures forall t | t in Texts(fields, from) :: Regular(t)
    decreases fields, |fields| - from
  {
    if from < |fields| {
      var v := fields[from].value;
      PrintRegular(cfg, v);
      TextsRegular(cfg, fields, from + 1);
    }
  }

  /** The text of an expression, on its own. */
  lemma {:induction false} PrintRegular(cfg: Config, e: Expr)
    requires Operands(e) && WellFormed(cfg, e, false)
    ensures Regular(Print(e))
    decreases e, 3
  {
    SkipsExpr(cfg, e, false);
    assert Print(e) + [] == Print(e);
    assert SkipsAt(Print(e), [], []);
  }

  // ------------------------------------------------------------------------

  lemma {:induction false} SkipsExpr(cfg: Config, e: Expr, guarded: bool)
    requires Operands(e) && WellFormed(cfg, e, guarded)
    ensures Skips(Print(e), AfterOperand(EndsInBuilder(e)))
    decreases e, 2
  {
    match e
    case Infix(op, l, r) =>
      SkipsExpr(cfg, l, guarded);
      SkipsExpr(cfg, r, false);
      InfixOfLexeme(op);
      SkipsInfix(Print(l), EndsInBuilder(l), InfixLexeme(op), Print(r), AfterOperand(EndsInBuilder(r)));
    case Raise(l, r) =>
      SkipsExpr(cfg, l, guarded);
      SkipsExpr(cfg, r, false);
      SkipsInfix(Print(l), EndsInBuilder(l), StarStar, Print(r), AfterOperand(EndsInBuilder(r)));
    case Index(b, i) =>
      SkipsExpr(cfg, b, guarded);
      SkipsExpr(cfg, i, false);
      SkipsIndex(Print(b), EndsInBuilder(b), Print(i), EndsInBuilder(i));
    case Access(b, path) =>
      SkipsExpr(cfg, b, guarded);
      SkipsAccess(Print(b), path);
    case _ => SkipsPrimary(cfg, e, guarded);
  }

  lemma {:induction false} SkipsPrimary(cfg: Config, e: Expr, guarded: bool)
    requires IsPrimary(e) && Operands(e) && WellFormed(cfg, e, guarded)
    ensures Skips(Print(e), AfterOperand(EndsInBuilder(e)))
    decreases e, 1
  {
    if e.Prefix? {
      SkipsExpr(cfg, e.arg, true);
      SkipsPrefix(if e.op.Not? then Exclamation else MinusSign, Print(e.arg), AfterOperand(EndsInBuilder(e.arg)));
    } else if e.Group? {
      SkipsExpr(cfg, e.inner, false);
      SkipsGroup(Print(e.inner), EndsInBuilder(e.inner));
    } else if e.Call1? {
      SkipsExpr(cfg, e.arg, false);
      SkipsCall1(e.fn, Print(e.arg), EndsInBuilder(e.arg));
    } else if e.Call2? {
      SkipsExpr(cfg, e.first, false);
      SkipsExpr(cfg, e.second, false);
      SkipsCall2(e.fn, Print(e.first), EndsInBuilder(e.first), Print(e.second), EndsInBuilder(e.second));
    } else if e.Build? {
      SkipsBuild(cfg, e, guarded);
    } else {
      SkipsLeaf(cfg, e, guarded);
    }
  }

  lemma {:induction false} SkipsLeaf(cfg: Config, e: Expr, guarded: bool)
    requires (e.Name? || e.Num? || e.NegNum? || e.Bool? || e.Now?) && WellFormed(cfg, e, guarded)
    ensures Skips(Print(e), AfterOperand(false))
  {
    forall open, rest | MayFollow(AfterOperand(false), rest) ensures SkipsAt(Print(e), open, rest) {
      if e.NegNum? {
        var number := Number(e.plain, Some(e.value));
        assert Print(e) + rest == [MinusSign] + ([number] + rest);
        PrefixGoesOn(MinusSign, open, [number] + rest);
        LeafGoesOn(number, open, rest);
      } else if e.Now? {
        assert (Print(e) + rest)[4..] == rest;
      } else {
        LeafGoesOn(Print(e)[0], open, rest);
      }
    }
  }

  lemma {:induction false} LeafGoesOn(l: Lexeme, open: seq<Slot>, rest: seq<Lexeme>)
    requires l.Number? || l.Truth? || (l.Identifier? && FunctionNamed(l.name).None?)
    requires MayFollow(AfterOperand(false), rest)
    ensures SkipsAt([l], open, rest)
  {
    OneMore(l, rest);
  }
}
