/** The reference parser accepts every well-formed expression, and reads it as it is. */
module ReferenceComplete {
  import opened Wrappers
  import opened Operators
  import opened Shunting
  import opened Tokenizer
  import opened Grammar
  import opened ScanProof
  import opened Reference
  import opened ReferenceProof

  /** `rest` may stand after `e` where operators of level `min` are read. */
  predicate Follows(cfg: Config, min: nat, e: Expr, rest: seq<Lexeme>) {
    Fits(cfg, min, e, rest) && MayFollow(AfterOperand(EndsInBuilder(e)), rest)
  }

  /** Reading `text`, in front of `rest`, comes to the point where `e` has been read. */
  predicate Arrives(cfg: Config, min: nat, guarded: bool, text: seq<Lexeme>, e: Expr, rest: seq<Lexeme>) {
    ParseExpr(cfg, min, guarded, text + rest) == ParseOperators(cfg, min, e, rest)
  }

  // ------------------------------------------------------------------------
  // Steps, on any texts that read as given

  lemma InfixOfLexeme(op: Operator)
    requires IsInfix(op)
    ensures InfixOf(InfixLexeme(op)) == Some(op)
  {
  }

  lemma InfixSplit(a: seq<Lexeme>, x: Lexeme, b: seq<Lexeme>, rest: seq<Lexeme>)
    ensures a + ([x] + b) + rest == a + ([x] + (b + rest)) && ([x] + (b + rest))[1..] == b + rest
  {
  }

  lemma WrappedSplit(a: seq<Lexeme>, l: Lexeme, b: seq<Lexeme>, r: Lexeme, rest: seq<Lexeme>)
    ensures a + ([l] + b + [r]) + rest == a + ([l] + (b + ([r] + rest)))
    ensures ([l] + (b + ([r] + rest)))[1..] == b + ([r] + rest) && ([r] + rest)[1..] == rest
  {
  }

  /** An operator that extends `left` to `more`. */
  lemma {:induction false} OperatorsGo(cfg: Config, min: nat, left: Expr, ls: seq<Lexeme>, more: Found)
    requires Level(cfg, ls) != 0 && Level(cfg, ls) >= min && ParseOperator(cfg, left, ls) == Some(more)
    ensures ParseOperators(cfg, min, left, ls) == ParseOperators(cfg, min, more.e, more.rest)
  {
  }

  lemma {:induction false} InfixArrives(cfg: Config, min: nat, guarded: bool, op: Operator, l: Expr, r: Expr,
                                        left: seq<Lexeme>, right: seq<Lexeme>, rest: seq<Lexeme>)
    requires IsInfix(op) && min <= Target(cfg, op) && Level(cfg, rest) <= Precedence(op)
    requires Arrives(cfg, min, guarded, left, l, [InfixLexeme(op)] + (right + rest))
    requires Arrives(cfg, RightLevel(op), false, right, r, rest)
    ensures Arrives(cfg, min, guarded, left + ([InfixLexeme(op)] + right), Joined(cfg, op, l, r), rest)
  {
    var ls := [InfixLexeme(op)] + (right + rest);
    InfixOfLexeme(op);
    InfixSplit(left, InfixLexeme(op), right, rest);
    assert ParseOperators(cfg, RightLevel(op), r, rest) == Some(Found(r, rest));
    OperatorsGo(cfg, min, l, ls, Found(Joined(cfg, op, l, r), rest));
  }

  lemma {:induction false} IndexExtends(cfg: Config, min: nat, b: Expr, i: Expr, index: seq<Lexeme>, rest: seq<Lexeme>)
    requires min <= Precedence(Subscript) && ParseExpr(cfg, 0, false, index + ([RBracket] + rest))
             == Some(Found(i, [RBracket] + rest))
    ensures ParseOperators(cfg, min, b, [LBracket] + (index + ([RBracket] + rest)))
            == ParseOperators(cfg, min, Index(b, i), rest)
  {
    var ls := [LBracket] + (index + ([RBracket] + rest));
    assert ls[1..] == index + ([RBracket] + rest);
    SubscriptStep(cfg, b, ls, Found(i, [RBracket] + rest));
    assert ([RBracket] + rest)[1..] == rest;
    OperatorsGo(cfg, min, b, ls, Found(Index(b, i), rest));
  }

  lemma {:induction false} IndexArrives(cfg: Config, min: nat, guarded: bool, b: Expr, i: Expr,
                                        base: seq<Lexeme>, index: seq<Lexeme>, rest: seq<Lexeme>)
    requires min <= Precedence(Subscript) && Arrives(cfg, min, guarded, base, b,
             [LBracket] + (index + ([RBracket] + rest)))
    requires Arrives(cfg, 0, false, index, i, [RBracket] + rest)
    ensures Arrives(cfg, min, guarded, base + ([LBracket] + index + [RBracket]), Index(b, i), rest)
  {
    StopsAt(cfg, i, index, RBracket, rest);
    IndexExtends(cfg, min, b, i, index, rest);
    WrappedSplit(base, LBracket, index, RBracket, rest);
  }

  lemma {:induction false} SubscriptStep(cfg: Config, b: Expr, ls: seq<Lexeme>, i: Found)
    requires ls != [] && ls[0].LBracket? && ParseExpr(cfg, 0, false, ls[1..]) == Some(i) && i.rest != []
             && i.rest[0].RBracket?
    ensures Level(cfg, ls) == Precedence(Subscript)
            && ParseOperator(cfg, b, ls) == Some(Found(Index(b, i.e), i.rest[1..]))
  {
  }

  lemma {:induction false} AccessArrives(cfg: Config, min: nat, guarded: bool, b: Expr, path: string, base: seq<Lexeme>,
                                         rest: seq<Lexeme>)
    requires min <= Precedence(Subscript) && PostfixPathOk(path) && !EndsInBuilder(b)
    requires Arrives(cfg, min, guarded, base, b, [Identifier(path)] + rest)
    ensures Arrives(cfg, min, guarded, base + [Identifier(path)], Access(b, path), rest)
  {
    var ls := [Identifier(path)] + rest;
    Assoc(base, [Identifier(path)], rest);
    assert ls[1..] == rest;
    OperatorsGo(cfg, min, b, ls, Found(Access(b, path), rest));
  }

  lemma {:induction false} PrefixReads(cfg: Config, guarded: bool, op: Operator, a: Expr, arg: seq<Lexeme>,
                                       rest: seq<Lexeme>)
    requires IsPrefix(op) && arg != [] && (op.UnaryMinus? ==> !arg[0].Number?) && Level(cfg, rest) <= Precedence(op)
    requires Arrives(cfg, Precedence(op) + 1, true, arg, a, rest)
    ensures ParsePrimary(cfg, guarded, [if op.Not? then Exclamation else MinusSign] + arg + rest)
            == Some(Found(Prefix(op, a), rest))
  {
    var l := if op.Not? then Exclamation else MinusSign;
    var ls := [l] + (arg + rest);
    Assoc([l], arg, rest);
    assert ls[1..] == arg + rest && At(ls, 1) == arg[0];
    assert ParsePrefix(cfg, op, ls) == Some(Found(Prefix(op, a), rest));
  }

  lemma {:induction false} GroupReads(cfg: Config, guarded: bool, x: Expr, inner: seq<Lexeme>, rest: seq<Lexeme>)
    requires GroupOk(guarded, x) && Arrives(cfg, 0, false, inner, x, [RParen] + rest)
    ensures ParsePrimary(cfg, guarded, [LParen] + inner + [RParen] + rest) == Some(Found(Group(x), rest))
  {
    WrappedSplit([], LParen, inner, RParen, rest);
    var ls := [LParen] + (inner + ([RParen] + rest));
    assert [LParen] + inner + [RParen] + rest == ls;
  }

  lemma {:induction false} CallStarts(cfg: Config, guarded: bool, fn: Operator, tail: seq<Lexeme>)
    requires IsFunctionLike(fn)
    ensures
      var ls := [Identifier(FunctionName(fn)), LParen] + tail;
      ls[2..] == tail && ParsePrimary(cfg, guarded, ls) == ParseCall(cfg, fn, ls)
  {
    FunctionNameRoundTrip(fn);
    assert ([Identifier(FunctionName(fn)), LParen] + tail)[2..] == tail;
  }

  lemma CallSplit(fn: Operator, a: seq<Lexeme>, b: seq<Lexeme>, rest: seq<Lexeme>)
    requires IsFunctionLike(fn)
    ensures [Identifier(FunctionName(fn)), LParen] + (a + b) + rest
            == [Identifier(FunctionName(fn)), LParen] + (a + (b + rest))
  {
  }

  lemma {:induction false} Call1Reads(cfg: Config, guarded: bool, fn: Operator, x: Expr, a: seq<Lexeme>,
                                      rest: seq<Lexeme>)
    requires IsFunctionLike(fn) && IsUnary(fn) && Arrives(cfg, 0, false, a, x, [RParen] + rest)
    ensures ParsePrimary(cfg, guarded, [Identifier(FunctionName(fn)), LParen] + (a + [RParen]) + rest)
            == Some(Found(Call1(fn, x), rest))
  {
    CallSplit(fn, a, [RParen], rest);
    CallStarts(cfg, guarded, fn, a + ([RParen] + rest));
    assert ([RParen] + rest)[1..] == rest;
  }

  lemma {:induction false} Call2Step(cfg: Config, fn: Operator, ls: seq<Lexeme>, x: Found, y: Found)
    requires !IsUnary(fn) && |ls| >= 2 && ls[1].LParen? && ParseExpr(cfg, 0, false, ls[2..]) == Some(x)
    requires x.rest != [] && x.rest[0].CommaSign? && ParseExpr(cfg, 0, false, x.rest[1..]) == Some(y)
    requires y.rest != [] && y.rest[0].RParen?
    ensures ParseCall(cfg, fn, ls) == Some(Found(Call2(fn, x.e, y.e), y.rest[1..]))
  {
  }

  /** Nothing is read past a closing lexeme. */
  lemma {:induction false} StopsAt(cfg: Config, x: Expr, text: seq<Lexeme>, close: Lexeme, rest: seq<Lexeme>)
    requires IsClose(close) && Arrives(cfg, 0, false, text, x, [close] + rest)
    ensures ParseExpr(cfg, 0, false, text + ([close] + rest)) == Some(Found(x, [close] + rest))
  {
  }

  predicate IsClose(l: Lexeme) { l.RParen? || l.RBracket? || l.CommaSign? || l.RCurly? }

  lemma {:induction false} Call2Reads(cfg: Config, guarded: bool, fn: Operator, x: Expr, y: Expr, a: seq<Lexeme>,
                                      b: seq<Lexeme>, rest: seq<Lexeme>)
    requires IsFunctionLike(fn) && !IsUnary(fn) && Arrives(cfg, 0, false, b, y, [RParen] + rest)
    requires Arrives(cfg, 0, false, a, x, [CommaSign] + (b + ([RParen] + rest)))
    ensures
      ParsePrimary(cfg, guarded, [Identifier(FunctionName(fn)), LParen] + (a + ([CommaSign] + b + [RParen])) + rest)
      == Some(Found(Call2(fn, x, y), rest))
  {
    var tail := [CommaSign] + (b + ([RParen] + rest));
    Call2Split(fn, a, b, rest);
    StopsAt(cfg, x, a, CommaSign, b + ([RParen] + rest));
    StopsAt(cfg, y, b, RParen, rest);
    WrappedSplit([], CommaSign, b, RParen, rest);
    CallStarts(cfg, guarded, fn, a + tail);
    Call2Step(cfg, fn, [Identifier(FunctionName(fn)), LParen] + (a + tail), Found(x, tail), Found(y, [RParen] + rest));
  }

  lemma Call2Split(fn: Operator, a: seq<Lexeme>, b: seq<Lexeme>, rest: seq<Lexeme>)
    requires IsFunctionLike(fn)
    ensures [Identifier(FunctionName(fn)), LParen] + (a + ([CommaSign] + b + [RParen])) + rest
         == [Identifier(FunctionName(fn)), LParen] + (a + ([CommaSign] + (b + ([RParen] + rest))))
  {
    CallSplit(fn, a, [CommaSign] + b + [RParen], rest);
    assert [CommaSign] + b + [RParen] + rest == [CommaSign] + (b + ([RParen] + rest));
  }

  lemma {:induction false} BuildStarts(cfg: Config, guarded: bool, ty: Option<string>, body: seq<Lexeme>)
    ensures
      var ls := BuilderHead(ty) + [LCurly] + body;
      && BuilderStart(ls) == Some((if ty.Some? then ty.value else "", |BuilderHead(ty)| + 1))
      && ls[|BuilderHead(ty)| + 1..] == body
      && ls[0].LCurly? == ty.None? && ParsePrimary(cfg, guarded, ls) == ParseBuild(cfg, ls)
  {
    var ls := BuilderHead(ty) + [LCurly] + body;
    assert ls[|BuilderHead(ty)| + 1..] == body;
  }

  /** After a field that reads as `f`, the separator decides. */
  lemma {:induction false} FieldReads(cfg: Config, acc: seq<FieldInit>, f: FieldInit, value: seq<Lexeme>,
                                      tail: seq<Lexeme>)
    requires FreshName(acc, Identifier(f.name)) && tail != [] && (tail[0].CommaSign? || tail[0].RCurly?)
    requires Arrives(cfg, 0, false, value, f.value, tail)
    ensures
      ParseFields(cfg, acc, [Identifier(f.name), Colon] + (value + tail))
      == if tail[0].RCurly? then Some(Fields(acc + [f], false, tail[1..]))
         else if At(tail, 1).RCurly? then Some(Fields(acc + [f], true, tail[2..]))
         else ParseFields(cfg, acc + [f], tail[1..])
  {
    assert ([Identifier(f.name), Colon] + (value + tail))[2..] == value + tail;
  }

  lemma FieldSplit(name: string, value: seq<Lexeme>, more: seq<Lexeme>, rest: seq<Lexeme>)
    ensures [Identifier(name), Colon] + value + more + rest == [Identifier(name), Colon] + (value + (more + rest))
  {
  }

  // ------------------------------------------------------------------------
  // Expressions

  predicate IsPrimary(e: Expr) { !e.Infix? && !e.Raise? && !e.Index? && !e.Access? }

  lemma {:induction false} ReadsExpr(cfg: Config, min: nat, guarded: bool, e: Expr, rest: seq<Lexeme>)
    requires Operands(e) && WellFormed(cfg, e, guarded) && Follows(cfg, min, e, rest) && min <= 16
    ensures Arrives(cfg, min, guarded, Print(e), e, rest)
    decreases e, 2
  {
    if e.Infix? {
      ReadsInfix(cfg, min, guarded, e, rest);
    } else if e.Raise? {
      ReadsRaise(cfg, min, guarded, e, rest);
    } else if e.Index? {
      ReadsIndex(cfg, min, guarded, e, rest);
    } else if e.Access? {
      ReadsAccess(cfg, min, guarded, e, rest);
    } else {
      ReadsPrimary(cfg, guarded, e, rest);
    }
  }

  /** The operands around an operator fit it. */
  lemma {:induction false} LeftFollows(cfg: Config, min: nat, op: Operator, l: Expr, tail: seq<Lexeme>)
    requires IsInfix(op) && min <= LeftBinding(cfg, l)
    requires Target(cfg, op) <= RightBinding(l) || (l.Index? && op.Power? && cfg.rightAssociativePower)
    ensures Follows(cfg, min, l, [InfixLexeme(op)] + tail)
  {
    InfixOfLexeme(op);
  }

  lemma {:induction false} ReadsInfix(cfg: Config, min: nat, guarded: bool, e: Expr, rest: seq<Lexeme>)
    requires e.Infix? && Operands(e) && WellFormed(cfg, e, guarded) && Follows(cfg, min, e, rest) && min <= 16
    ensures Arrives(cfg, min, guarded, Print(e), e, rest)
    decreases e, 1
  {
    LeftFollows(cfg, min, e.op, e.left, Print(e.right) + rest);
    ReadsExpr(cfg, min, guarded, e.left, [InfixLexeme(e.op)] + (Print(e.right) + rest));
    RightFollows(cfg, e, rest);
    ReadsExpr(cfg, RightLevel(e.op), false, e.right, rest);
    InfixArrives(cfg, min, guarded, e.op, e.left, e.right, Print(e.left), Print(e.right), rest);
  }

  lemma {:induction false} RightFollows(cfg: Config, e: Expr, rest: seq<Lexeme>)
    requires e.Infix? && Level(cfg, rest) <= RightBinding(e) && MayFollow(AfterOperand(EndsInBuilder(e)), rest)
    requires LeftBinding(cfg, e.right) > Precedence(e.op)
    ensures Follows(cfg, RightLevel(e.op), e.right, rest)
  {
  }

  lemma {:induction false} ReadsRaise(cfg: Config, min: nat, guarded: bool, e: Expr, rest: seq<Lexeme>)
    requires e.Raise? && Operands(e) && WellFormed(cfg, e, guarded) && Follows(cfg, min, e, rest) && min <= 16
    ensures Arrives(cfg, min, guarded, Print(e), e, rest)
    decreases e, 1
  {
    RaiseFollows(cfg, min, e, rest);
    LeftFollows(cfg, min, Power, e.left, Print(e.right) + rest);
    ReadsExpr(cfg, min, guarded, e.left, [StarStar] + (Print(e.right) + rest));
    ReadsExpr(cfg, RightLevel(Power), false, e.right, rest);
    InfixArrives(cfg, min, guarded, Power, e.left, e.right, Print(e.left), Print(e.right), rest);
  }

  lemma {:induction false} RaiseFollows(cfg: Config, min: nat, e: Expr, rest: seq<Lexeme>)
    requires e.Raise? && e.left.Index? && cfg.rightAssociativePower && Follows(cfg, min, e, rest)
    requires LeftBinding(cfg, e.right) > Precedence(Power)
    ensures min <= LeftBinding(cfg, e.left) <= Precedence(Subscript) && Level(cfg, rest) <= Precedence(Power)
    ensures Follows(cfg, RightLevel(Power), e.right, rest)
  {
  }

  lemma {:induction false} ClosedFollows(cfg: Config, x: Expr, close: Lexeme, rest: seq<Lexeme>)
    requires IsClose(close)
    ensures Follows(cfg, 0, x, [close] + rest)
  {
  }

  /** An expression between brackets is read to its closing lexeme. */
  lemma {:induction false} ReadsClosed(cfg: Config, x: Expr, close: Lexeme, rest: seq<Lexeme>)
    requires Operands(x) && WellFormed(cfg, x, false) && IsClose(close)
    ensures Arrives(cfg, 0, false, Print(x), x, [close] + rest)
    decreases x, 3
  {
    ClosedFollows(cfg, x, close, rest);
    ReadsExpr(cfg, 0, false, x, [close] + rest);
  }

  lemma {:induction false} ReadsIndex(cfg: Config, min: nat, guarded: bool, e: Expr, rest: seq<Lexeme>)
    requires e.Index? && Operands(e) && WellFormed(cfg, e, guarded) && Follows(cfg, min, e, rest) && min <= 16
    ensures Arrives(cfg, min, guarded, Print(e), e, rest)
    decreases e, 1
  {
    ReadsExpr(cfg, min, guarded, e.base, [LBracket] + (Print(e.index) + ([RBracket] + rest)));
    ReadsClosed(cfg, e.index, RBracket, rest);
    IndexArrives(cfg, min, guarded, e.base, e.index, Print(e.base), Print(e.index), rest);
  }

  lemma {:induction false} ReadsAccess(cfg: Config, min: nat, guarded: bool, e: Expr, rest: seq<Lexeme>)
    requires e.Access? && Operands(e) && WellFormed(cfg, e, guarded) && Follows(cfg, min, e, rest) && min <= 16
    ensures Arrives(cfg, min, guarded, Print(e), e, rest)
    decreases e, 1
  {
    ReadsExpr(cfg, min, guarded, e.base, [Identifier(e.path)] + rest);
    AccessArrives(cfg, min, guarded, e.base, e.path, Print(e.base), rest);
  }

  lemma {:induction false} ReadsPrimary(cfg: Config, guarded: bool, e: Expr, rest: seq<Lexeme>)
    requires IsPrimary(e) && Operands(e) && WellFormed(cfg, e, guarded) && Follows(cfg, 0, e, rest)
    ensures ParsePrimary(cfg, guarded, Print(e) + rest) == Some(Found(e, rest))
    decreases e, 1
  {
    if e.Prefix? {
      FirstLexeme(e.arg);
      ReadsExpr(cfg, Precedence(e.op) + 1, true, e.arg, rest);
      PrefixReads(cfg, guarded, e.op, e.arg, Print(e.arg), rest);
    } else if e.Group? {
      ReadsClosed(cfg, e.inner, RParen, rest);
      GroupReads(cfg, guarded, e.inner, Print(e.inner), rest);
    } else if e.Call1? || e.Call2? {
      ReadsCall(cfg, guarded, e, rest);
    } else if e.Build? {
      ReadsBuild(cfg, guarded, e, rest);
    } else {
      ReadsLeaf(cfg, guarded, e, rest);
    }
  }

  lemma {:induction false} ReadsLeaf(cfg: Config, guarded: bool, e: Expr, rest: seq<Lexeme>)
    requires (e.Name? || e.Num? || e.NegNum? || e.Bool? || e.Now?) && WellFormed(cfg, e, guarded)
    requires MayFollow(AfterOperand(false), rest)
    ensures ParsePrimary(cfg, guarded, Print(e) + rest) == Some(Found(e, rest))
  {
    var ls := Print(e) + rest;
    assert ls[|Print(e)|..] == rest;
    assert At(ls, |Print(e)|) == At(rest, 0) && At(ls, |Print(e)| + 1) == At(rest, 1);
  }

  lemma {:induction false} ReadsCall(cfg: Config, guarded: bool, e: Expr, rest: seq<Lexeme>)
    requires (e.Call1? || e.Call2?) && Operands(e) && WellFormed(cfg, e, guarded)
    ensures ParsePrimary(cfg, guarded, Print(e) + rest) == Some(Found(e, rest))
    decreases e, 0
  {
    if e.Call1? {
      ReadsClosed(cfg, e.arg, RParen, rest);
      Call1Reads(cfg, guarded, e.fn, e.arg, Print(e.arg), rest);
    } else {
      ReadsClosed(cfg, e.first, CommaSign, Print(e.second) + ([RParen] + rest));
      ReadsClosed(cfg, e.second, RParen, rest);
      Call2Reads(cfg, guarded, e.fn, e.first, e.second, Print(e.first), Print(e.second), rest);
    }
  }

  lemma {:induction false} ReadsBuild(cfg: Config, guarded: bool, e: Expr, rest: seq<Lexeme>)
    requires e.Build? && Operands(e) && WellFormed(cfg, e, guarded)
    ensures ParsePrimary(cfg, guarded, Print(e) + rest) == Some(Found(e, rest))
    decreases e, 0
  {
    var body := PrintFields(e.fields, 0) + Separator(e.trailingComma) + [RCurly];
    Assoc(BuilderHead(e.ty) + [LCurly], body, rest);
    if e.fields == [] {
      assert body + rest == [RCurly] + rest;
      EmptyReads(cfg, guarded, e.ty, rest);
    } else {
      FirstFieldText(e.fields, e.trailingComma);
      assert e.fields[..0] == [];
      ReadsFields(cfg, e.fields, 0, e.trailingComma, rest);
      BuildReads(cfg, guarded, e.ty, e.fields, e.trailingComma, body + rest, rest);
    }
  }

  lemma {:induction false} EmptyReads(cfg: Config, guarded: bool, ty: Option<string>, rest: seq<Lexeme>)
    requires ty != Some("")
    ensures ParsePrimary(cfg, guarded, BuilderHead(ty) + [LCurly] + ([RCurly] + rest))
            == Some(Found(Build(ty, [], false), rest))
  {
    BuildStarts(cfg, guarded, ty, [RCurly] + rest);
    assert ([RCurly] + rest)[1..] == rest;
  }

  lemma {:induction false} BuildReads(cfg: Config, guarded: bool, ty: Option<string>, fields: seq<FieldInit>,
                                      comma: bool, body: seq<Lexeme>, rest: seq<Lexeme>)
    requires ty != Some("") && !At(body, 0).RCurly? && ParseFields(cfg, [], body) == Some(Fields(fields, comma, rest))
    ensures ParsePrimary(cfg, guarded, BuilderHead(ty) + [LCurly] + body) == Some(Found(Build(ty, fields, comma), rest))
  {
    BuildStarts(cfg, guarded, ty, body);
  }

  lemma {:induction false} ReadsFields(cfg: Config, fields: seq<FieldInit>, from: nat, comma: bool, rest: seq<Lexeme>)
    requires FieldsReady(cfg, fields) && from < |fields|
    ensures ParseFields(cfg, fields[..from], FieldsText(fields, from, comma) + rest)
            == Some(Fields(fields, comma, rest))
    decreases fields, |fields| - from
  {
    var f, more := fields[from], PrintFields(fields, from + 1) + Separator(comma) + [RCurly];
    FieldSplit(f.name, Print(f.value), more, rest);
    if from + 1 < |fields| {
      ReadsFields(cfg, fields, from + 1, comma, rest);
    }
    ReadsFieldAt(cfg, fields, from, comma, more + rest, rest);
  }

  lemma {:induction false} ReadsFieldAt(cfg: Config, fields: seq<FieldInit>, from: nat, comma: bool, tail: seq<Lexeme>,
                                        rest: seq<Lexeme>)
    requires FieldsReady(cfg, fields) && from < |fields|
             && tail == PrintFields(fields, from + 1) + Separator(comma) + [RCurly] + rest
    requires from + 1 < |fields| ==>
      ParseFields(cfg, fields[..from + 1], FieldsText(fields, from + 1, comma) + rest)
          == Some(Fields(fields, comma, rest))
    ensures ParseFields(cfg, fields[..from],
            [Identifier(fields[from].name), Colon] + (Print(fields[from].value) + tail))
            == Some(Fields(fields, comma, rest))
    decreases fields, 0
  {
    TailShape(fields, from, comma, rest);
    ReadsField(cfg, fields[from].value, tail);
    FieldsStep(cfg, fields, from, comma, Print(fields[from].value), tail, rest);
  }

  lemma {:induction false} FieldsStep(cfg: Config, fields: seq<FieldInit>, from: nat, comma: bool, value: seq<Lexeme>,
                                      tail: seq<Lexeme>, rest: seq<Lexeme>)
    requires from < |fields| && '.' !in fields[from].name
             && (forall i | 0 <= i < from :: fields[i].name != fields[from].name)
    requires Arrives(cfg, 0, false, value, fields[from].value, tail) && tail != []
    requires if from + 1 < |fields| then
               tail[0].CommaSign? && !At(tail, 1).RCurly?
                   && ParseFields(cfg, fields[..from + 1], tail[1..]) == Some(Fields(fields, comma, rest))
             else if comma then tail[0].CommaSign? && At(tail, 1).RCurly? && tail[2..] == rest
             else tail[0].RCurly? && tail[1..] == rest
    ensures ParseFields(cfg, fields[..from], [Identifier(fields[from].name), Colon] + (value + tail))
            == Some(Fields(fields, comma, rest))
  {
    FieldReads(cfg, fields[..from], fields[from], value, tail);
    assert fields[..from] + [fields[from]] == fields[..from + 1];
    assert fields[..|fields|] == fields;
  }

  lemma {:induction false} ReadsField(cfg: Config, v: Expr, tail: seq<Lexeme>)
    requires Operands(v) && WellFormed(cfg, v, false) && tail != [] && (tail[0].CommaSign? || tail[0].RCurly?)
    ensures Arrives(cfg, 0, false, Print(v), v, tail)
    decreases v, 4
  {
    assert [tail[0]] + tail[1..] == tail;
    ReadsClosed(cfg, v, tail[0], tail[1..]);
  }

  // ------------------------------------------------------------------------

  /** The reference parser reads the text of every well-formed expression as that expression. */
  lemma {:induction false} ParsesPrint(cfg: Config, e: Expr)
    requires Operands(e) && WellFormed(cfg, e, false)
    ensures Parse(cfg, Print(e)) == Some(e)
  {
    assert Print(e) + [] == Print(e);
    ReadsExpr(cfg, 0, false, e, []);
  }
}
