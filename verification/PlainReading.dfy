/** When power groups to the right, it enters the subscript before it: `b[i] ** r` is compiled as
    `b[i ** r]`. This module says exactly when that makes a difference. */
module PlainReading {
  import opened Wrappers
  import opened Operators
  import opened Trees
  import opened Shunting
  import opened Tokenizer
  import opened Grammar
  import opened Reference
  import opened ReferenceProof

  /** The same text with every power applied to the whole operand on its left. */
  function Plain(e: Expr): Expr {
    match e
    case Raise(l, r) => Infix(Power, Plain(l), Plain(r))
    case Infix(op, l, r) => Infix(op, Plain(l), Plain(r))
    case Prefix(op, a) => Prefix(op, Plain(a))
    case Index(b, i) => Index(Plain(b), Plain(i))
    case Access(b, path) => Access(Plain(b), path)
    case Call1(fn, a) => Call1(fn, Plain(a))
    case Call2(fn, a, b) => Call2(fn, Plain(a), Plain(b))
    case Group(x) => Group(Plain(x))
    case Build(ty, fields, comma) =>
      Build(ty, seq(|fields|, i requires 0 <= i < |fields| => FieldInit(fields[i].name, Plain(fields[i].value))), comma)
    case _ => e
  }

  /** Some power enters a subscript. */
  predicate HasRaise(e: Expr) {
    match e
    case Raise(_, _) => true
    case Infix(_, l, r) => HasRaise(l) || HasRaise(r)
    case Prefix(_, a) => HasRaise(a)
    case Index(b, i) => HasRaise(b) || HasRaise(i)
    case Access(b, _) => HasRaise(b)
    case Call1(_, a) => HasRaise(a)
    case Call2(_, a, b) => HasRaise(a) || HasRaise(b)
    case Group(x) => HasRaise(x)
    case Build(_, fields, _) => exists i | 0 <= i < |fields| :: HasRaise(fields[i].value)
    case _ => false
  }

  lemma {:induction false} PlainOperands(e: Expr)
    requires Operands(e)
    ensures Operands(Plain(e))
  {
    match e
    case Raise(l, r) => PlainOperands(l); PlainOperands(r);
    case Infix(_, l, r) => PlainOperands(l); PlainOperands(r);
    case Prefix(_, a) => PlainOperands(a);
    case Index(b, i) => PlainOperands(b); PlainOperands(i);
    case Access(b, _) => PlainOperands(b);
    case Call1(_, a) => PlainOperands(a);
    case Call2(_, a, b) => PlainOperands(a); PlainOperands(b);
    case Group(x) => PlainOperands(x);
    case Build(_, fields, _) =>
      forall i | 0 <= i < |fields| ensures Operands(Plain(fields[i].value)) {
        PlainOperands(fields[i].value);
      }
    case _ =>
  }

  /** The plain reading is a reading of the very same text. */
  lemma {:induction false} PlainPrints(e: Expr)
    requires Operands(e)
    ensures Operands(Plain(e)) && Print(Plain(e)) == Print(e)
    decreases e, 1
  {
    PlainOperands(e);
    match e
    case Raise(l, r) => PlainPrints(l); PlainPrints(r);
    case Infix(_, l, r) => PlainPrints(l); PlainPrints(r);
    case Prefix(_, a) => PlainPrints(a);
    case Index(b, i) => PlainPrints(b); PlainPrints(i);
    case Access(b, _) => PlainPrints(b);
    case Call1(_, a) => PlainPrints(a);
    case Call2(_, a, b) => PlainPrints(a); PlainPrints(b);
    case Group(x) => PlainPrints(x);
    case Build(_, fields, _) => PlainFieldsPrint(fields, Plain(e).fields, 0);
    case _ =>
  }

  lemma {:induction false} PlainFieldsPrint(fields: seq<FieldInit>, plain: seq<FieldInit>, from: nat)
    requires from <= |fields| == |plain| && forall i | 0 <= i < |fields| :: Operands(fields[i].value)
    requires forall i | 0 <= i < |fields| ::
             plain[i] == FieldInit(fields[i].name, Plain(fields[i].value)) && Operands(plain[i].value)
    ensures PrintFields(plain, from) == PrintFields(fields, from)
    decreases fields, 0, |fields| - from
  {
    if from < |fields| {
      PlainPrints(fields[from].value);
      PlainFieldsPrint(fields, plain, from + 1);
    }
  }

  /** It means the same just when no power enters a subscript. */
  lemma {:induction false} PlainMeans(e: Expr)
    requires Operands(e)
    ensures Operands(Plain(e)) && (Meaning(Plain(e)) == Meaning(e) <==> !HasRaise(e))
    decreases e, 1
  {
    PlainOperands(e);
    match e
    case Raise(_, _) =>
    case Infix(_, l, r) => PlainMeans(l); PlainMeans(r);
    case Prefix(_, a) => PlainMeans(a);
    case Index(b, i) => PlainMeans(b); PlainMeans(i);
    case Access(b, _) => PlainMeans(b);
    case Call1(_, a) => PlainMeans(a);
    case Call2(_, a, b) => PlainMeans(a); PlainMeans(b);
    case Group(x) => PlainMeans(x);
    case Build(_, _, _) => PlainBuildMeans(e);
    case _ =>
  }

  lemma {:induction false} PlainBuildMeans(e: Expr)
    requires Operands(e) && e.Build?
    ensures Operands(Plain(e)) && (Meaning(Plain(e)) == Meaning(e) <==> !HasRaise(e))
    decreases e, 0
  {
    PlainOperands(e);
    var m, p := Meaning(e).assigns, Meaning(Plain(e)).assigns;
    forall i | 0 <= i < |e.fields| ensures m[i] == p[i] <==> !HasRaise(e.fields[i].value) {
      PlainMeans(e.fields[i].value);
    }
    if m == p {
      assert forall i | 0 <= i < |e.fields| :: m[i] == p[i];
    }
  }

  // ------------------------------------------------------------------------
  // The texts in which this happens

  /** A closing bracket directly followed by a power sign. */
  predicate RaisesSubscript(ls: seq<Lexeme>) {
    exists i | 0 <= i < |ls| - 1 :: TouchAt(ls, i)
  }

  predicate TouchAt(ls: seq<Lexeme>, i: nat)
    requires i < |ls| - 1
  {
    ls[i].RBracket? && ls[i + 1].StarStar?
  }

  predicate Touch(a: seq<Lexeme>, b: seq<Lexeme>) { a != [] && b != [] && Last(a).RBracket? && b[0].StarStar? }

  lemma RaisesConcat(a: seq<Lexeme>, b: seq<Lexeme>)
    ensures RaisesSubscript(a + b) <==> RaisesSubscript(a) || RaisesSubscript(b) || Touch(a, b)
  {
    var c := a + b;
    if RaisesSubscript(a) {
      var i :| 0 <= i < |a| - 1 && TouchAt(a, i);
      assert TouchAt(c, i);
    }
    if RaisesSubscript(b) {
      var i :| 0 <= i < |b| - 1 && TouchAt(b, i);
      assert TouchAt(c, |a| + i);
    }
    if Touch(a, b) {
      assert TouchAt(c, |a| - 1);
    }
    if RaisesSubscript(c) {
      var i :| 0 <= i < |c| - 1 && TouchAt(c, i);
      if i < |a| - 1 {
        assert TouchAt(a, i);
      } else if i >= |a| {
        assert TouchAt(b, i - |a|);
      }
    }
  }

  lemma RaisesShort(ls: seq<Lexeme>)
    requires forall i | 0 <= i < |ls| :: !ls[i].StarStar?
    ensures !RaisesSubscript(ls)
  {
  }

  lemma RaisesWrapped(l: Lexeme, inner: seq<Lexeme>, r: Lexeme)
    requires !l.RBracket? && !l.StarStar? && !r.StarStar?
    ensures RaisesSubscript([l] + inner + [r]) <==> RaisesSubscript(inner)
  {
    RaisesShort([r]);
    RaisesConcat([l] + inner, [r]);
    RaisesConcat([l], inner);
  }

  lemma RaisesJoined(a: seq<Lexeme>, x: Lexeme, b: seq<Lexeme>)
    requires a != [] && b != [] && !x.RBracket? && !b[0].StarStar?
    ensures RaisesSubscript(a + ([x] + b))
            <==> RaisesSubscript(a) || RaisesSubscript(b) || (Last(a).RBracket? && x.StarStar?)
  {
    RaisesConcat([x], b);
    RaisesConcat(a, [x] + b);
  }

  lemma {:induction false} FirstIsNoPower(e: Expr)
    requires Operands(e)
    ensures !Print(e)[0].StarStar?
  {
    match e
    case Raise(l, _) => FirstIsNoPower(l);
    case Infix(_, l, _) => FirstIsNoPower(l);
    case Index(b, _) => FirstIsNoPower(b);
    case Access(b, _) => FirstIsNoPower(b);
    case Build(ty, _, _) => assert ty.None? ==> Print(e)[0] == LCurly;
    case _ =>
  }

  /** A text that ends in a closing bracket has a subscript open for a looser operator. */
  lemma {:induction false} BracketEnd(e: Expr)
    requires Operands(e)
    ensures Last(Print(e)).RBracket? ==> RightBinding(e) <= Precedence(Subscript)
  {
    match e
    case Raise(_, r) => BracketEnd(r);
    case Infix(_, _, r) => BracketEnd(r);
    case Prefix(_, a) => BracketEnd(a);
    case _ =>
  }

  lemma {:induction false} IndexEnds(e: Expr)
    requires Operands(e) && e.Index?
    ensures Last(Print(e)).RBracket?
  {
  }

  lemma {:induction false} InfixIsNoPower(cfg: Config, op: Operator, l: Expr)
    requires IsInfix(op) && Operands(l) && cfg.rightAssociativePower && RightBinding(l) >= Target(cfg, op)
    ensures !(Last(Print(l)).RBracket? && InfixLexeme(op).StarStar?) && !InfixLexeme(op).RBracket?
  {
    BracketEnd(l);
  }

  lemma {:induction false} TextShowsRaise(cfg: Config, e: Expr, guarded: bool)
    requires cfg.rightAssociativePower && Operands(e) && WellFormed(cfg, e, guarded)
    ensures RaisesSubscript(Print(e)) <==> HasRaise(e)
    decreases e, 2
  {
    match e
    case Raise(l, r) =>
      IndexEnds(l);
      FirstIsNoPower(r);
      RaisesJoined(Print(l), StarStar, Print(r));
    case Infix(op, l, r) =>
      TextShowsRaise(cfg, l, guarded);
      TextShowsRaise(cfg, r, false);
      FirstIsNoPower(r);
      InfixIsNoPower(cfg, op, l);
      RaisesJoined(Print(l), InfixLexeme(op), Print(r));
    case Prefix(op, a) =>
      TextShowsRaise(cfg, a, true);
      RaisesConcat([if op.Not? then Exclamation else MinusSign], Print(a));
    case Index(_, _) => PostfixShowsRaise(cfg, e, guarded);
    case Access(_, _) => PostfixShowsRaise(cfg, e, guarded);
    case Call1(_, _) => CallShowsRaise(cfg, e);
    case Call2(_, _, _) => CallShowsRaise(cfg, e);
    case Group(x) =>
      TextShowsRaise(cfg, x, false);
      RaisesWrapped(LParen, Print(x), RParen);
    case Build(_, _, _) => BuildShowsRaise(cfg, e);
    case _ =>
      RaisesShort(Print(e));
  }

  lemma {:induction false} PostfixShowsRaise(cfg: Config, e: Expr, guarded: bool)
    requires cfg.rightAssociativePower && (e.Index? || e.Access?) && Operands(e) && WellFormed(cfg, e, guarded)
    ensures RaisesSubscript(Print(e)) <==> HasRaise(e)
    decreases e, 1
  {
    TextShowsRaise(cfg, e.base, guarded);
    if e.Index? {
      TextShowsRaise(cfg, e.index, false);
      RaisesWrapped(LBracket, Print(e.index), RBracket);
      RaisesConcat(Print(e.base), [LBracket] + Print(e.index) + [RBracket]);
    } else {
      RaisesConcat(Print(e.base), [Identifier(e.path)]);
    }
  }

  lemma {:induction false} CallShowsRaise(cfg: Config, e: Expr)
    requires cfg.rightAssociativePower && (e.Call1? || e.Call2?) && Operands(e) && WellFormed(cfg, e, false)
    ensures RaisesSubscript(Print(e)) <==> HasRaise(e)
    decreases e, 1
  {
    var head := [Identifier(FunctionName(e.fn)), LParen];
    RaisesShort(head);
    if e.Call1? {
      TextShowsRaise(cfg, e.arg, false);
      RaisesConcat(Print(e.arg), [RParen]);
      RaisesConcat(head, Print(e.arg) + [RParen]);
    } else {
      TextShowsRaise(cfg, e.first, false);
      TextShowsRaise(cfg, e.second, false);
      var tail := [CommaSign] + Print(e.second) + [RParen];
      RaisesWrapped(CommaSign, Print(e.second), RParen);
      RaisesConcat(Print(e.first), tail);
      RaisesConcat(head, Print(e.first) + tail);
    }
  }

  lemma {:induction false} BuildShowsRaise(cfg: Config, e: Expr)
    requires cfg.rightAssociativePower && e.Build? && Operands(e) && WellFormed(cfg, e, false)
    ensures RaisesSubscript(Print(e)) <==> HasRaise(e)
    decreases e, 1
  {
    FieldsShowRaise(cfg, e.fields, 0);
    BuilderText(e.ty, PrintFields(e.fields, 0), e.trailingComma);
  }

  lemma BuilderText(ty: Option<string>, body: seq<Lexeme>, comma: bool)
    requires body != [] ==> !body[0].StarStar?
    ensures RaisesSubscript(BuilderHead(ty) + [LCurly] + (body + Separator(comma) + [RCurly]))
            <==> RaisesSubscript(body)
  {
    var head, sep := BuilderHead(ty) + [LCurly], Separator(comma);
    RaisesShort(sep);
    RaisesConcat(body, sep);
    RaisesConcat(body + sep, [RCurly]);
    RaisesShort(head);
    RaisesConcat(head, body + sep + [RCurly]);
  }

  lemma {:induction false} FieldsShowRaise(cfg: Config, fields: seq<FieldInit>, from: nat)
    requires cfg.rightAssociativePower && from <= |fields|
    requires forall i | 0 <= i < |fields| :: Operands(fields[i].value) && WellFormed(cfg, fields[i].value, false)
    ensures RaisesSubscript(PrintFields(fields, from)) <==> exists i | from <= i < |fields| :: HasRaise(fields[i].value)
    ensures PrintFields(fields, from) != [] ==> !PrintFields(fields, from)[0].StarStar?
    decreases fields, 0, |fields| - from
  {
    if from < |fields| {
      var value, more := fields[from].value, PrintFields(fields, from + 1);
      TextShowsRaise(cfg, value, false);
      FieldsShowRaise(cfg, fields, from + 1);
      FieldShowsRaise(fields[from].name, Print(value), more, Separator(from > 0));
    }
  }

  lemma FieldShowsRaise(name: string, value: seq<Lexeme>, more: seq<Lexeme>, sep: seq<Lexeme>)
    requires (sep == [] || sep == [CommaSign]) && (more != [] ==> !more[0].StarStar?)
    ensures RaisesSubscript(sep + ([Identifier(name), Colon] + value + more))
            <==> RaisesSubscript(value) || RaisesSubscript(more)
  {
    var head := [Identifier(name), Colon];
    RaisesShort(head);
    RaisesShort(sep);
    RaisesConcat(head, value);
    RaisesConcat(head + value, more);
    RaisesConcat(sep, head + value + more);
  }

  lemma {:induction false} LeftModeNeverRaises(cfg: Config, e: Expr, guarded: bool)
    requires !cfg.rightAssociativePower && Operands(e) && WellFormed(cfg, e, guarded)
    ensures !HasRaise(e)
  {
    match e
    case Infix(_, l, r) => LeftModeNeverRaises(cfg, l, guarded); LeftModeNeverRaises(cfg, r, false);
    case Prefix(_, a) => LeftModeNeverRaises(cfg, a, true);
    case Index(b, i) => LeftModeNeverRaises(cfg, b, guarded); LeftModeNeverRaises(cfg, i, false);
    case Access(b, _) => LeftModeNeverRaises(cfg, b, guarded);
    case Call1(_, a) => LeftModeNeverRaises(cfg, a, false);
    case Call2(_, a, b) => LeftModeNeverRaises(cfg, a, false); LeftModeNeverRaises(cfg, b, false);
    case Group(x) => LeftModeNeverRaises(cfg, x, false);
    case Build(_, fields, _) =>
      forall i | 0 <= i < |fields| ensures !HasRaise(fields[i].value) {
        LeftModeNeverRaises(cfg, fields[i].value, false);
      }
    case _ =>
  }

  /** An accepted text that compiles gets the tree of its plain reading if and only if power groups
      to the left or no closing bracket is directly followed by a power sign. */
  lemma {:induction false} PlainJustWhen(cfg: Config, ls: seq<Lexeme>)
    requires Parse(cfg, ls).Some? && CompileSource(cfg, ls).Ok?
    ensures
      var plain := Plain(Parse(cfg, ls).value);
      && Operands(plain) && Print(plain) == ls
      && (CompileSource(cfg, ls).value.tree == Meaning(plain) <==> !cfg.rightAssociativePower || !RaisesSubscript(ls))
  {
    AgreesWithReference(cfg, ls);
    var e := Parse(cfg, ls).value;
    PlainPrints(e);
    PlainMeans(e);
    if cfg.rightAssociativePower {
      TextShowsRaise(cfg, e, false);
    } else {
      LeftModeNeverRaises(cfg, e, false);
    }
  }
}
