/** Tokenizing what the grammar prints.

    The lexemes of a well-formed expression are split back into exactly its tokens, with
    every inline builder compiled to its meaning on the way; and a whole source compiles
    to the meaning of the expression it spells. */
module TokenizerProof {
  import opened Wrappers
  import opened Operators
  import opened Trees
  import opened Shunting
  import opened ShuntingSteps
  import opened ShuntingProof
  import opened Tokenizer
  import opened Grammar

  // ------------------------------------------------------------------------
  // Collecting a field's expression passes over balanced text.

  ghost predicate Passes(ls: seq<Lexeme>, open: seq<Lexeme>, open1: seq<Lexeme>) {
    forall rest :: Collect(ls + rest, open) == Plus(|ls|, Collect(rest, open1))
  }

  lemma PassOne(l: Lexeme, open: seq<Lexeme>)
    requires !l.Eof? && !IsOpening(l) && !IsClosing(l) && (open == [] ==> !l.CommaSign? && !l.Colon?)
    ensures Passes([l], open, open)
  {
    forall rest ensures Collect([l] + rest, open) == Plus(|[l]|, Collect(rest, open)) {
      assert ([l] + rest)[1..] == rest;
    }
  }

  lemma PassOpen(l: Lexeme, open: seq<Lexeme>)
    requires IsOpening(l)
    ensures Passes([l], open, open + [l])
  {
    forall rest ensures Collect([l] + rest, open) == Plus(|[l]|, Collect(rest, open + [l])) {
      assert ([l] + rest)[1..] == rest;
    }
  }

  lemma PassClose(l: Lexeme, r: Lexeme, open: seq<Lexeme>)
    requires IsOpening(l) && MatchingDelimiter(l) == Some(r)
    ensures Passes([r], open + [l], open)
  {
    forall rest ensures Collect([r] + rest, open + [l]) == Plus(|[r]|, Collect(rest, open)) {
      assert ([r] + rest)[1..] == rest && Front(open + [l]) == open;
    }
  }

  lemma PassTrans(a: seq<Lexeme>, b: seq<Lexeme>, o: seq<Lexeme>, o1: seq<Lexeme>, o2: seq<Lexeme>)
    requires Passes(a, o, o1) && Passes(b, o1, o2)
    ensures Passes(a + b, o, o2)
  {
    forall rest ensures Collect(a + b + rest, o) == Plus(|a + b|, Collect(rest, o2)) {
      Assoc(a, b, rest);
      PassesAt(a, o, o1, b + rest);
      PassesAt(b, o1, o2, rest);
      PlusPlus(|a|, |b|, Collect(rest, o2));
    }
  }

  lemma PassesAt(ls: seq<Lexeme>, open: seq<Lexeme>, open1: seq<Lexeme>, rest: seq<Lexeme>)
    requires Passes(ls, open, open1)
    ensures Collect(ls + rest, open) == Plus(|ls|, Collect(rest, open1))
  {
  }

  lemma PlusPlus(n: nat, m: nat, r: Result<nat, Error>)
    ensures Plus(n, Plus(m, r)) == Plus(n + m, r)
  {
  }

  /** Text that passes between a pair of delimiters passes with them. */
  lemma PassWrapped(l: Lexeme, ls: seq<Lexeme>, r: Lexeme, open: seq<Lexeme>)
    requires IsOpening(l) && MatchingDelimiter(l) == Some(r) && Passes(ls, open + [l], open + [l])
    ensures Passes([l] + ls + [r], open, open)
  {
    PassOpen(l, open);
    PassClose(l, r, open);
    PassTrans([l], ls, open, open + [l], open + [l]);
    PassTrans([l] + ls, [r], open, open + [l], open);
  }

  /** Text that leaves every set of open delimiters as it is. */
  ghost predicate Neutral(ls: seq<Lexeme>, open: seq<Lexeme>) { Passes(ls, open, open) }

  lemma NeutralNone(open: seq<Lexeme>)
    ensures Neutral([], open)
  {
    forall rest: seq<Lexeme> ensures Collect([] + rest, open) == Plus(0, Collect(rest, open)) {
      assert [] + rest == rest;
      PlusZero(Collect(rest, open));
    }
  }

  lemma PlusZero(r: Result<nat, Error>)
    ensures Plus(0, r) == r
  {
  }

  lemma Neutral2(a: seq<Lexeme>, b: seq<Lexeme>, open: seq<Lexeme>)
    requires Neutral(a, open) && Neutral(b, open)
    ensures Neutral(a + b, open)
  {
    PassTrans(a, b, open, open, open);
  }

  lemma Neutral3(a: seq<Lexeme>, l: Lexeme, b: seq<Lexeme>, open: seq<Lexeme>)
    requires Neutral(a, open) && Neutral(b, open)
    requires !l.Eof? && !IsOpening(l) && !IsClosing(l) && (open == [] ==> !l.CommaSign? && !l.Colon?)
    ensures Neutral(a + ([l] + b), open)
  {
    PassOne(l, open);
    Neutral2([l], b, open);
    Neutral2(a, [l] + b, open);
  }

  lemma {:induction false} ExprPasses(e: Expr, open: seq<Lexeme>)
    requires Operands(e)
    ensures Neutral(Print(e), open)
    decreases e, 1
  {
    match e
    case Prefix(op, arg) =>
      var l := if op.Not? then Exclamation else MinusSign;
      PassOne(l, open);
      ExprPasses(arg, open);
      Neutral2([l], Print(arg), open);
    case Infix(op, l, r) =>
      ExprPasses(l, open);
      ExprPasses(r, open);
      Neutral3(Print(l), InfixLexeme(op), Print(r), open);
    case Raise(l, r) =>
      ExprPasses(l, open);
      ExprPasses(r, open);
      Neutral3(Print(l), StarStar, Print(r), open);
    case Index(_, _) => PostfixPasses(e, open);
    case Access(_, _) => PostfixPasses(e, open);
    case Call1(_, _) => CallExprPasses(e, open);
    case Call2(_, _, _) => CallExprPasses(e, open);
    case Group(x) =>
      ExprPasses(x, open + [LParen]);
      PassWrapped(LParen, Print(x), RParen, open);
    case Build(ty, fields, comma) =>
      BodyPasses(fields, comma, open + [LCurly]);
      BracesPass(ty, PrintFields(fields, 0) + Separator(comma), open);
    case _ => LeafPasses(e, open);
  }

  lemma {:induction false} PostfixPasses(e: Expr, open: seq<Lexeme>)
    requires Operands(e) && (e.Index? || e.Access?)
    ensures Neutral(Print(e), open)
    decreases e, 0
  {
    match e
    case Index(b, i) =>
      ExprPasses(b, open);
      ExprPasses(i, open + [LBracket]);
      PassWrapped(LBracket, Print(i), RBracket, open);
      Neutral2(Print(b), [LBracket] + Print(i) + [RBracket], open);
    case Access(b, path) =>
      ExprPasses(b, open);
      PassOne(Identifier(path), open);
      Neutral2(Print(b), [Identifier(path)], open);
  }

  lemma {:induction false} CallExprPasses(e: Expr, open: seq<Lexeme>)
    requires Operands(e) && (e.Call1? || e.Call2?)
    ensures Neutral(Print(e), open)
    decreases e, 0
  {
    var inner := open + [LParen];
    match e
    case Call1(fn, a) =>
      ExprPasses(a, inner);
      CallPasses(fn, Print(a), [], open);
      assert [] + [RParen] == [RParen];
    case Call2(fn, a, b) =>
      ExprPasses(a, inner);
      ExprPasses(b, inner);
      PassOne(CommaSign, inner);
      Neutral2([CommaSign], Print(b), inner);
      CallPasses(fn, Print(a), [CommaSign] + Print(b), open);
  }

  lemma CallPasses(fn: Operator, a: seq<Lexeme>, b: seq<Lexeme>, open: seq<Lexeme>)
    requires IsFunctionLike(fn) && Neutral(a, open + [LParen]) && (b == [] || Neutral(b, open + [LParen]))
    ensures Neutral([Identifier(FunctionName(fn)), LParen] + (a + (b + [RParen])), open)
  {
    var name := Identifier(FunctionName(fn));
    PassOne(name, open);
    NeutralNone(open + [LParen]);
    Neutral2(a, b, open + [LParen]);
    PassWrapped(LParen, a + b, RParen, open);
    Neutral2([name], [LParen] + (a + b) + [RParen], open);
    CallText(name, a, b);
  }

  lemma CallText(name: Lexeme, a: seq<Lexeme>, b: seq<Lexeme>)
    ensures [name, LParen] + (a + (b + [RParen])) == [name] + ([LParen] + (a + b) + [RParen])
  {
    Assoc(a, b, [RParen]);
    Assoc([LParen], a + b, [RParen]);
    Assoc([name], [LParen], a + b + [RParen]);
  }

  lemma LeafPasses(e: Expr, open: seq<Lexeme>)
    requires e.Name? || e.Num? || e.NegNum? || e.Bool? || e.Now?
    ensures Passes(Print(e), open, open)
  {
    var ls := Print(e);
    PassOne(ls[0], open);
    if e.NegNum? {
      PassOne(ls[1], open);
      PassTrans([ls[0]], [ls[1]], open, open, open);
      assert ls == [ls[0]] + [ls[1]];
    } else if e.Now? {
      PassOne(ls[2], open + [LParen]);
      PassWrapped(LParen, [ls[2]], RParen, open);
      PassTrans([ls[0]], [LParen] + [ls[2]] + [RParen], open, open, open);
      assert ls == [ls[0]] + ([LParen] + [ls[2]] + [RParen]);
    } else {
      assert ls == [ls[0]];
    }
  }

  lemma BracesPass(ty: Option<string>, body: seq<Lexeme>, open: seq<Lexeme>)
    requires Neutral(body, open + [LCurly])
    ensures Neutral(BuilderHead(ty) + [LCurly] + (body + [RCurly]), open)
  {
    HeadPasses(ty, open);
    PassWrapped(LCurly, body, RCurly, open);
    Neutral2(BuilderHead(ty), [LCurly] + body + [RCurly], open);
    Assoc(BuilderHead(ty), [LCurly], body + [RCurly]);
    Assoc([LCurly], body, [RCurly]);
  }

  lemma {:induction false} BodyPasses(fields: seq<FieldInit>, comma: bool, open: seq<Lexeme>)
    requires forall i | 0 <= i < |fields| :: Operands(fields[i].value)
    requires open != []
    ensures Neutral(PrintFields(fields, 0) + Separator(comma), open)
    decreases fields, |fields| + 1
  {
    FieldsPass(fields, 0, open);
    SeparatorPasses(comma, open);
    Neutral2(PrintFields(fields, 0), Separator(comma), open);
  }

  lemma SeparatorPasses(comma: bool, open: seq<Lexeme>)
    requires open != []
    ensures Neutral(Separator(comma), open)
  {
    NeutralNone(open);
    PassOne(CommaSign, open);
  }

  lemma HeadPasses(ty: Option<string>, open: seq<Lexeme>)
    ensures Neutral(BuilderHead(ty), open)
  {
    if ty.Some? {
      PassOne(Identifier("new"), open);
      PassOne(Identifier(ty.value), open);
      Neutral2([Identifier("new")], [Identifier(ty.value)], open);
      assert [Identifier("new")] + [Identifier(ty.value)] == [Identifier("new"), Identifier(ty.value)];
    } else {
      NeutralNone(open);
    }
  }

  lemma {:induction false} FieldsPass(fields: seq<FieldInit>, from: nat, open: seq<Lexeme>)
    requires from <= |fields| && open != []
    requires forall i | 0 <= i < |fields| :: Operands(fields[i].value)
    ensures Neutral(PrintFields(fields, from), open)
    decreases fields, |fields| - from
  {
    NeutralNone(open);
    if from < |fields| {
      var name, v := Identifier(fields[from].name), fields[from].value;
      ExprPasses(v, open);
      FieldPasses(name, Print(v), open);
      FieldsPass(fields, from + 1, open);
      Neutral2([name, Colon] + Print(v), PrintFields(fields, from + 1), open);
      SeparatorPasses(from > 0, open);
      Neutral2(Separator(from > 0), [name, Colon] + Print(v) + PrintFields(fields, from + 1), open);
    }
  }

  lemma FieldPasses(name: Lexeme, ls: seq<Lexeme>, open: seq<Lexeme>)
    requires name.Identifier? && open != [] && Neutral(ls, open)
    ensures Neutral([name, Colon] + ls, open)
  {
    PassOne(name, open);
    Neutral3([name], Colon, ls, open);
    assert [name] + ([Colon] + ls) == [name, Colon] + ls;
  }

  /** In front of a comma or closing brace, collection takes exactly the expression. */
  lemma {:induction false} CollectsExpr(e: Expr, rest: seq<Lexeme>)
    requires Operands(e) && (At(rest, 0).CommaSign? || At(rest, 0).RCurly?)
    ensures Collect(Print(e) + rest, []) == Ok(|Print(e)|)
  {
    ExprPasses(e, []);
    assert Collect(rest, []) == Ok(0);
  }
}
