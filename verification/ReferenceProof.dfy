/** Whatever the reference parser accepts is a well-formed expression spelled by exactly the
    lexemes it read; so the shunting-yard compiler gives it the same tree. */
module ReferenceProof {
  import opened Wrappers
  import opened Operators
  import opened Trees
  import opened Shunting
  import opened ShuntingSteps
  import opened ShuntingProof
  import opened Tokenizer
  import opened Grammar
  import opened ScanProof
  import opened Reference

  predicate Spells(cfg: Config, guarded: bool, e: Expr, ls: seq<Lexeme>, rest: seq<Lexeme>) {
    Operands(e) && WellFormed(cfg, e, guarded) && ls == Print(e) + rest
  }

  /** The operator after `e` is a power that enters its subscript. */
  predicate Enters(cfg: Config, e: Expr, rest: seq<Lexeme>) {
    cfg.rightAssociativePower && e.Index? && At(rest, 0).StarStar?
  }

  /** `e` can be extended by the operator after it, and it starts no operator looser than `min`. */
  predicate Fits(cfg: Config, min: nat, e: Expr, rest: seq<Lexeme>) {
    LeftBinding(cfg, e) >= min && (Level(cfg, rest) <= RightBinding(e) || Enters(cfg, e, rest))
  }

  lemma InfixLexemeOf(l: Lexeme)
    requires InfixOf(l).Some?
    ensures IsInfix(InfixOf(l).value) && InfixLexeme(InfixOf(l).value) == l
  {
  }

  /** `r` is an expression read off `ls` at level `min`. */
  predicate ReadAt(cfg: Config, min: nat, guarded: bool, ls: seq<Lexeme>, r: Found) {
    Spells(cfg, guarded, r.e, ls, r.rest) && Fits(cfg, min, r.e, r.rest)
        && (Level(cfg, r.rest) == 0 || Level(cfg, r.rest) < min)
  }

  lemma {:induction false} ExprSound(cfg: Config, min: nat, guarded: bool, ls: seq<Lexeme>)
    requires ParseExpr(cfg, min, guarded, ls).Some? && min <= 16
    ensures ReadAt(cfg, min, guarded, ls, ParseExpr(cfg, min, guarded, ls).value)
    decreases |ls|, 3
  {
    var left := ParsePrimary(cfg, guarded, ls).value;
    PrimarySound(cfg, guarded, ls);
    OperatorsSound(cfg, min, guarded, left.e, ls, left.rest);
  }

  lemma {:induction false} OperatorsSound(cfg: Config, min: nat, guarded: bool, left: Expr, all: seq<Lexeme>,
                                          ls: seq<Lexeme>)
    requires ParseOperators(cfg, min, left, ls).Some? && min <= 16
    requires Spells(cfg, guarded, left, all, ls) && Fits(cfg, min, left, ls)
    ensures ReadAt(cfg, min, guarded, all, ParseOperators(cfg, min, left, ls).value)
    decreases |ls|, 2
  {
    if Level(cfg, ls) != 0 && Level(cfg, ls) >= min {
      OperatorSound(cfg, min, guarded, left, all, ls);
      var more := ParseOperator(cfg, left, ls).value;
      OperatorsSound(cfg, min, guarded, more.e, all, more.rest);
    }
  }

  lemma {:induction false} OperatorSound(cfg: Config, min: nat, guarded: bool, left: Expr, all: seq<Lexeme>,
                                         ls: seq<Lexeme>)
    requires Level(cfg, ls) != 0 && Level(cfg, ls) >= min && ParseOperator(cfg, left, ls).Some?
    requires Spells(cfg, guarded, left, all, ls) && Fits(cfg, min, left, ls)
    ensures
      var r := ParseOperator(cfg, left, ls).value;
      Spells(cfg, guarded, r.e, all, r.rest) && Fits(cfg, min, r.e, r.rest)
    decreases |ls|, 1
  {
    if InfixOf(At(ls, 0)).Some? {
      var op := InfixOf(At(ls, 0)).value;
      RightLevelBound(At(ls, 0));
      ExprSound(cfg, RightLevel(op), false, ls[1..]);
      InfixStep(cfg, min, guarded, op, left, all, ls, ParseExpr(cfg, RightLevel(op), false, ls[1..]).value);
    } else if At(ls, 0).LBracket? {
      ExprSound(cfg, 0, false, ls[1..]);
      IndexStep(cfg, min, guarded, left, all, ls, ParseExpr(cfg, 0, false, ls[1..]).value);
    } else {
      AccessStep(cfg, min, guarded, left, all, ls);
    }
  }

  lemma RightLevelBound(l: Lexeme)
    requires InfixOf(l).Some?
    ensures RightLevel(InfixOf(l).value) <= 16
  {
    InfixLexemeOf(l);
  }

  lemma HeadTail(ls: seq<Lexeme>)
    requires ls != []
    ensures ls == [ls[0]] + ls[1..]
  {
  }

  lemma {:induction false} InfixStep(cfg: Config, min: nat, guarded: bool, op: Operator, left: Expr, all: seq<Lexeme>,
                                     ls: seq<Lexeme>, right: Found)
    requires min <= Level(cfg, ls) && InfixOf(At(ls, 0)) == Some(op)
    requires Spells(cfg, guarded, left, all, ls) && Fits(cfg, min, left, ls)
    requires ReadAt(cfg, RightLevel(op), false, ls[1..], right)
    ensures
      var e := Joined(cfg, op, left, right.e);
      Spells(cfg, guarded, e, all, right.rest) && Fits(cfg, min, e, right.rest)
  {
    InfixLexemeOf(ls[0]);
    RightEnd(cfg, op, right);
    if cfg.rightAssociativePower && op.Power? && left.Index? {
      RaiseSpells(cfg, guarded, left, all, ls, right);
      RaiseFits(cfg, min, left, right);
    } else {
      NotEntered(cfg, op, left, ls);
      InfixSpells(cfg, guarded, op, left, all, ls, right);
      InfixFits(cfg, min, op, left, right);
    }
  }

  /** What follows a right operand binds no tighter than its operator, and does not enter it. */
  lemma {:induction false} RightEnd(cfg: Config, op: Operator, right: Found)
    requires IsInfix(op) && Fits(cfg, RightLevel(op), right.e, right.rest)
    requires Level(cfg, right.rest) == 0 || Level(cfg, right.rest) < RightLevel(op)
    ensures Level(cfg, right.rest) <= Precedence(op) && Level(cfg, right.rest) <= RightBinding(right.e)
  {
  }

  lemma {:induction false} NotEntered(cfg: Config, op: Operator, left: Expr, ls: seq<Lexeme>)
    requires InfixOf(At(ls, 0)) == Some(op) && !(cfg.rightAssociativePower && op.Power? && left.Index?)
    requires Level(cfg, ls) <= RightBinding(left) || Enters(cfg, left, ls)
    ensures Target(cfg, op) <= RightBinding(left)
  {
  }

  lemma {:induction false} RaiseSpells(cfg: Config, guarded: bool, left: Expr, all: seq<Lexeme>, ls: seq<Lexeme>,
                                       right: Found)
    requires cfg.rightAssociativePower && left.Index? && ls != [] && ls[0].StarStar?
    requires Spells(cfg, guarded, left, all, ls) && Spells(cfg, false, right.e, ls[1..], right.rest)
    requires LeftBinding(cfg, right.e) > Precedence(Power)
    ensures Spells(cfg, guarded, Raise(left, right.e), all, right.rest)
  {
    InfixText(all, Print(left), ls, Print(right.e), right.rest);
  }

  lemma {:induction false} RaiseFits(cfg: Config, min: nat, left: Expr, right: Found)
    requires min <= LeftBinding(cfg, left)
    requires Level(cfg, right.rest) <= Precedence(Power) && Level(cfg, right.rest) <= RightBinding(right.e)
    ensures Fits(cfg, min, Raise(left, right.e), right.rest)
  {
  }

  lemma {:induction false} InfixSpells(cfg: Config, guarded: bool, op: Operator, left: Expr, all: seq<Lexeme>,
                                       ls: seq<Lexeme>, right: Found)
    requires ls != [] && IsInfix(op) && InfixLexeme(op) == ls[0] && Target(cfg, op) <= RightBinding(left)
    requires Spells(cfg, guarded, left, all, ls) && Spells(cfg, false, right.e, ls[1..], right.rest)
    requires LeftBinding(cfg, right.e) > Precedence(op)
    ensures Spells(cfg, guarded, Infix(op, left, right.e), all, right.rest)
  {
    InfixText(all, Print(left), ls, Print(right.e), right.rest);
  }

  lemma {:induction false} InfixFits(cfg: Config, min: nat, op: Operator, left: Expr, right: Found)
    requires IsInfix(op) && min <= Target(cfg, op) && min <= LeftBinding(cfg, left)
    requires Level(cfg, right.rest) <= Precedence(op) && Level(cfg, right.rest) <= RightBinding(right.e)
    ensures Fits(cfg, min, Infix(op, left, right.e), right.rest)
  {
  }

  lemma InfixText(all: seq<Lexeme>, left: seq<Lexeme>, ls: seq<Lexeme>, right: seq<Lexeme>, rest: seq<Lexeme>)
    requires all == left + ls && ls != [] && ls[1..] == right + rest
    ensures all == left + ([ls[0]] + right) + rest
  {
    HeadTail(ls);
    Assoc([ls[0]], right, rest);
    Assoc(left, [ls[0]] + right, rest);
  }

  lemma {:induction false} IndexStep(cfg: Config, min: nat, guarded: bool, left: Expr, all: seq<Lexeme>,
                                     ls: seq<Lexeme>, index: Found)
    requires ls != [] && ls[0].LBracket? && index.rest != [] && index.rest[0].RBracket?
    requires Spells(cfg, guarded, left, all, ls) && Spells(cfg, false, index.e, ls[1..], index.rest)
    requires RightBinding(left) >= Precedence(Subscript) >= min && LeftBinding(cfg, left) >= min
    ensures Spells(cfg, guarded, Index(left, index.e), all, index.rest[1..])
            && Fits(cfg, min, Index(left, index.e), index.rest[1..])
  {
    IndexSpells(cfg, guarded, left, all, ls, index);
    LevelBound(cfg, index.rest[1..]);
    PostfixFits(cfg, min, left, Index(left, index.e), index.rest[1..]);
  }

  lemma {:induction false} PostfixFits(cfg: Config, min: nat, left: Expr, e: Expr, rest: seq<Lexeme>)
    requires (e.Index? || e.Access?) && e.base == left && min <= Precedence(Subscript) && min <= LeftBinding(cfg, left)
    requires Level(cfg, rest) <= RightBinding(e) || Enters(cfg, e, rest)
    ensures Fits(cfg, min, e, rest)
  {
  }

  lemma {:induction false} IndexSpells(cfg: Config, guarded: bool, left: Expr, all: seq<Lexeme>, ls: seq<Lexeme>,
                                       index: Found)
    requires ls != [] && ls[0].LBracket? && index.rest != [] && index.rest[0].RBracket?
             && RightBinding(left) >= Precedence(Subscript)
    requires Spells(cfg, guarded, left, all, ls) && Spells(cfg, false, index.e, ls[1..], index.rest)
    ensures Spells(cfg, guarded, Index(left, index.e), all, index.rest[1..])
  {
    IndexText(all, Print(left), ls, Print(index.e), index.rest);
  }

  lemma IndexText(all: seq<Lexeme>, left: seq<Lexeme>, ls: seq<Lexeme>, index: seq<Lexeme>, tail: seq<Lexeme>)
    requires all == left + ls && ls != [] && ls[0] == LBracket && ls[1..] == index + tail && tail != []
             && tail[0] == RBracket
    ensures all == left + ([LBracket] + index + [RBracket]) + tail[1..]
  {
    BracketText(ls, LBracket, index, RBracket, tail);
    Assoc(left, [LBracket] + index + [RBracket], tail[1..]);
  }

  lemma LevelBound(cfg: Config, ls: seq<Lexeme>)
    ensures Level(cfg, ls) <= 16
    ensures !(cfg.rightAssociativePower && At(ls, 0).StarStar?) ==> Level(cfg, ls) <= 15
  {
    if InfixOf(At(ls, 0)).Some? {
      InfixLexemeOf(At(ls, 0));
    }
  }

  lemma BracketText(ls: seq<Lexeme>, l: Lexeme, inner: seq<Lexeme>, r: Lexeme, tail: seq<Lexeme>)
    requires ls != [] && ls[0] == l && ls[1..] == inner + tail && tail != [] && tail[0] == r
    ensures ls == [l] + inner + [r] + tail[1..]
  {
    HeadTail(ls);
    HeadTail(tail);
    Assoc(inner, [r], tail[1..]);
    Assoc([l], inner + [r], tail[1..]);
    Assoc([l], inner, [r]);
  }

  lemma {:induction false} AccessStep(cfg: Config, min: nat, guarded: bool, left: Expr, all: seq<Lexeme>,
                                      ls: seq<Lexeme>)
    requires ls != [] && DirectFieldAccess(ls[0]) && PostfixPathOk(ls[0].name) && !EndsInBuilder(left)
    requires Spells(cfg, guarded, left, all, ls)
    requires RightBinding(left) >= Precedence(Subscript) >= min && LeftBinding(cfg, left) >= min
    ensures Spells(cfg, guarded, Access(left, ls[0].name), all, ls[1..])
            && Fits(cfg, min, Access(left, ls[0].name), ls[1..])
  {
    HeadTail(ls);
    Assoc(Print(left), [ls[0]], ls[1..]);
    LevelBound(cfg, ls[1..]);
    PostfixFits(cfg, min, left, Access(left, ls[0].name), ls[1..]);
  }

  lemma {:induction false} PrimarySound(cfg: Config, guarded: bool, ls: seq<Lexeme>)
    requires ParsePrimary(cfg, guarded, ls).Some?
    ensures
      var r := ParsePrimary(cfg, guarded, ls).value;
      Spells(cfg, guarded, r.e, ls, r.rest) && Fits(cfg, TIGHTEST, r.e, r.rest)
    decreases |ls|, 1
  {
    var l := At(ls, 0);
    if (l.MinusSign? && !At(ls, 1).Number?) || l.Exclamation? {
      PrefixSound(cfg, guarded, if l.MinusSign? then UnaryMinus else Not, ls);
    } else if l.LParen? {
      GroupSound(cfg, guarded, ls);
    } else if BuilderStart(ls).Some? {
      BuildSound(cfg, guarded, ls);
    } else if l.Identifier? && !TimestampStart(ls) && FunctionNamed(l.name).Some? {
      CallSound(cfg, guarded, FunctionNamed(l.name).value, ls);
    } else {
      LeafSound(cfg, guarded, ls);
    }
  }

  lemma {:induction false} PrefixSound(cfg: Config, guarded: bool, op: Operator, ls: seq<Lexeme>)
    requires ls != [] && IsPrefix(op)
    requires ls[0] == (if op.Not? then Exclamation else MinusSign) && (op.UnaryMinus? ==> !At(ls, 1).Number?)
    requires ParsePrefix(cfg, op, ls).Some?
    ensures
      var r := ParsePrefix(cfg, op, ls).value;
      Spells(cfg, guarded, r.e, ls, r.rest) && Fits(cfg, TIGHTEST, r.e, r.rest)
    decreases |ls|, 0
  {
    ExprSound(cfg, Precedence(op) + 1, true, ls[1..]);
    PrefixStep(cfg, guarded, op, ls, ParseExpr(cfg, Precedence(op) + 1, true, ls[1..]).value);
  }

  lemma {:induction false} GroupSound(cfg: Config, guarded: bool, ls: seq<Lexeme>)
    requires ls != [] && ls[0].LParen? && ParseGroup(cfg, guarded, ls).Some?
    ensures
      var r := ParseGroup(cfg, guarded, ls).value;
      Spells(cfg, guarded, r.e, ls, r.rest) && Fits(cfg, TIGHTEST, r.e, r.rest)
    decreases |ls|, 0
  {
    ExprSound(cfg, 0, false, ls[1..]);
    GroupStep(cfg, guarded, ls, ParseExpr(cfg, 0, false, ls[1..]).value);
  }

  lemma {:induction false} GroupStep(cfg: Config, guarded: bool, ls: seq<Lexeme>, x: Found)
    requires ls != [] && ls[0].LParen? && Spells(cfg, false, x.e, ls[1..], x.rest)
    requires x.rest != [] && x.rest[0].RParen? && GroupOk(guarded, x.e)
    ensures Spells(cfg, guarded, Group(x.e), ls, x.rest[1..]) && Fits(cfg, TIGHTEST, Group(x.e), x.rest[1..])
  {
    BracketText(ls, LParen, Print(x.e), RParen, x.rest);
    LevelBound(cfg, x.rest[1..]);
  }

  lemma {:induction false} LeafSound(cfg: Config, guarded: bool, ls: seq<Lexeme>)
    requires ParsePrimary(cfg, guarded, ls).Some? && !At(ls, 0).Exclamation? && !At(ls, 0).LParen?
             && (At(ls, 0).MinusSign? ==> At(ls, 1).Number?)
    requires BuilderStart(ls).None?
    requires At(ls, 0).Identifier? ==> TimestampStart(ls) || FunctionNamed(At(ls, 0).name).None?
    ensures
      var r := ParsePrimary(cfg, guarded, ls).value;
      Spells(cfg, guarded, r.e, ls, r.rest) && Fits(cfg, TIGHTEST, r.e, r.rest)
  {
    var r := ParsePrimary(cfg, guarded, ls).value;
    assert ls == Print(r.e) + r.rest;
    LevelBound(cfg, r.rest);
  }

  lemma {:induction false} FirstIsNumber(e: Expr)
    requires Operands(e)
    ensures StartsWithNumber(e) ==> Print(e)[0].Number?
  {
    match e
    case Infix(_, l, _) => FirstIsNumber(l);
    case Raise(l, _) => FirstIsNumber(l);
    case Index(b, _) => FirstIsNumber(b);
    case Access(b, _) => FirstIsNumber(b);
    case _ =>
  }

  lemma {:induction false} PrefixStep(cfg: Config, guarded: bool, op: Operator, ls: seq<Lexeme>, arg: Found)
    requires IsPrefix(op) && At(ls, 0) == (if op.Not? then Exclamation else MinusSign)
             && (op.UnaryMinus? ==> !At(ls, 1).Number?)
    requires ls != [] && ReadAt(cfg, Precedence(op) + 1, true, ls[1..], arg)
    ensures Spells(cfg, guarded, Prefix(op, arg.e), ls, arg.rest) && Fits(cfg, TIGHTEST, Prefix(op, arg.e), arg.rest)
  {
    HeadTail(ls);
    Assoc([ls[0]], Print(arg.e), arg.rest);
    FirstIsNumber(arg.e);
    assert ls[1] == ls[1..][0] == Print(arg.e)[0];
  }

  lemma FunctionNameOf(s: string)
    requires FunctionNamed(s).Some?
    ensures IsFunctionLike(FunctionNamed(s).value) && FunctionName(FunctionNamed(s).value) == s
  {
  }

  lemma {:induction false} CallSound(cfg: Config, guarded: bool, fn: Operator, ls: seq<Lexeme>)
    requires At(ls, 0).Identifier? && FunctionNamed(At(ls, 0).name) == Some(fn) && ParseCall(cfg, fn, ls).Some?
    ensures
      var r := ParseCall(cfg, fn, ls).value;
      Spells(cfg, guarded, r.e, ls, r.rest) && Fits(cfg, TIGHTEST, r.e, r.rest)
    decreases |ls|, 0
  {
    FunctionNameOf(ls[0].name);
    ExprSound(cfg, 0, false, ls[2..]);
    var first := ParseExpr(cfg, 0, false, ls[2..]).value;
    if IsUnary(fn) {
      Call1Text(ls, ls[0], Print(first.e), first.rest);
      LevelBound(cfg, first.rest[1..]);
    } else {
      ExprSound(cfg, 0, false, first.rest[1..]);
      var second := ParseExpr(cfg, 0, false, first.rest[1..]).value;
      Call2Text(ls, ls[0], Print(first.e), first.rest, Print(second.e), second.rest);
      LevelBound(cfg, second.rest[1..]);
    }
  }

  lemma Call1Text(ls: seq<Lexeme>, name: Lexeme, first: seq<Lexeme>, tail: seq<Lexeme>)
    requires |ls| >= 2 && ls[0] == name && ls[1] == LParen && ls[2..] == first + tail && tail != [] && tail[0] == RParen
    ensures ls == [name, LParen] + (first + [RParen]) + tail[1..]
  {
    assert ls == [name, LParen] + ls[2..];
    HeadTail(tail);
    Assoc(first, [RParen], tail[1..]);
    Assoc([name, LParen], first + [RParen], tail[1..]);
  }

  lemma Call2Text(ls: seq<Lexeme>, name: Lexeme, first: seq<Lexeme>, mid: seq<Lexeme>, second: seq<Lexeme>,
                  tail: seq<Lexeme>)
    requires |ls| >= 2 && ls[0] == name && ls[1] == LParen && ls[2..] == first + mid && mid != [] && mid[0] == CommaSign
    requires mid[1..] == second + tail && tail != [] && tail[0] == RParen
    ensures ls == [name, LParen] + (first + ([CommaSign] + second + [RParen])) + tail[1..]
  {
    assert ls == [name, LParen] + ls[2..];
    BracketText(mid, CommaSign, second, RParen, tail);
    Assoc(first, [CommaSign] + second + [RParen], tail[1..]);
    Assoc([name, LParen], first + ([CommaSign] + second + [RParen]), tail[1..]);
  }

  // ------------------------------------------------------------------------
  // Builders

  /** `r` adds to `acc` the fields that `ls` spells. */
  predicate FieldsRead(cfg: Config, acc: seq<FieldInit>, ls: seq<Lexeme>, r: Fields) {
    && FieldsReady(cfg, r.fields) && |acc| < |r.fields| && acc <= r.fields
    && ls == FieldsText(r.fields, |acc|, r.comma) + r.rest
  }

  lemma {:induction false} FieldsSound(cfg: Config, acc: seq<FieldInit>, ls: seq<Lexeme>)
    requires FieldsReady(cfg, acc) && ParseFields(cfg, acc, ls).Some?
    ensures FieldsRead(cfg, acc, ls, ParseFields(cfg, acc, ls).value)
    decreases |ls|, 0
  {
    ExprSound(cfg, 0, false, ls[2..]);
    var v := ParseExpr(cfg, 0, false, ls[2..]).value;
    var r := ParseFields(cfg, acc, ls).value;
    var field := FieldInit(ls[0].name, v.e);
    ReadySnoc(cfg, acc, field);
    if At(v.rest, 0).CommaSign? && !At(v.rest, 1).RCurly? {
      FieldsSound(cfg, acc + [field], v.rest[1..]);
      NextFieldRead(cfg, acc, ls, field, v.rest, r);
    } else {
      LastFieldRead(cfg, acc, ls, field, v.rest, r);
    }
  }

  lemma {:induction false} NextFieldRead(cfg: Config, acc: seq<FieldInit>, ls: seq<Lexeme>, field: FieldInit,
                                         tail: seq<Lexeme>, r: Fields)
    requires |ls| >= 2 && ls[0] == Identifier(field.name) && ls[1].Colon?
             && Spells(cfg, false, field.value, ls[2..], tail)
    requires tail != [] && tail[0].CommaSign? && FieldsRead(cfg, acc + [field], tail[1..], r)
    ensures FieldsRead(cfg, acc, ls, r)
  {
    assert r.fields[|acc|] == (acc + [field])[|acc|] == field;
    TailIs(r.fields, |acc|, r.comma, tail, r.rest);
    FieldText(ls, field.name, Print(field.value), tail,
        PrintFields(r.fields, |acc| + 1) + Separator(r.comma) + [RCurly], r.rest);
  }

  lemma {:induction false} LastFieldRead(cfg: Config, acc: seq<FieldInit>, ls: seq<Lexeme>, field: FieldInit,
                                         tail: seq<Lexeme>, r: Fields)
    requires |ls| >= 2 && ls[0] == Identifier(field.name) && ls[1].Colon?
             && Spells(cfg, false, field.value, ls[2..], tail)
    requires r.fields == acc + [field] && FieldsReady(cfg, r.fields)
    requires tail != [] && if r.comma then tail[0].CommaSign? && At(tail, 1).RCurly? && tail[2..] == r.rest
             else tail[0].RCurly? && tail[1..] == r.rest
    ensures FieldsRead(cfg, acc, ls, r)
  {
    LastTailIs(r.fields, r.comma, tail, r.rest);
    FieldText(ls, field.name, Print(field.value), tail,
        PrintFields(r.fields, |acc| + 1) + Separator(r.comma) + [RCurly], r.rest);
  }

  lemma FieldText(ls: seq<Lexeme>, name: string, value: seq<Lexeme>, tail: seq<Lexeme>, more: seq<Lexeme>,
                  rest: seq<Lexeme>)
    requires |ls| >= 2 && ls[0] == Identifier(name) && ls[1].Colon? && ls[2..] == value + tail && tail == more + rest
    ensures ls == [Identifier(name), Colon] + value + more + rest
  {
    assert ls == [Identifier(name), Colon] + ls[2..];
    Assoc([Identifier(name), Colon], value, tail);
    Assoc([Identifier(name), Colon] + value, more, rest);
  }

  lemma {:induction false} ReadySnoc(cfg: Config, acc: seq<FieldInit>, field: FieldInit)
    requires FieldsReady(cfg, acc) && FreshName(acc, Identifier(field.name)) && Operands(field.value)
             && WellFormed(cfg, field.value, false)
    ensures FieldsReady(cfg, acc + [field])
  {
  }

  lemma {:induction false} TailIs(fields: seq<FieldInit>, from: nat, comma: bool, tail: seq<Lexeme>, rest: seq<Lexeme>)
    requires from + 1 < |fields| && forall i | 0 <= i < |fields| :: Operands(fields[i].value)
    requires tail != [] && tail[0].CommaSign? && tail[1..] == FieldsText(fields, from + 1, comma) + rest
    ensures tail == PrintFields(fields, from + 1) + Separator(comma) + [RCurly] + rest
  {
    TailShape(fields, from, comma, rest);
    HeadTail(tail);
    HeadTail(PrintFields(fields, from + 1) + Separator(comma) + [RCurly] + rest);
  }

  lemma {:induction false} LastTailIs(fields: seq<FieldInit>, comma: bool, tail: seq<Lexeme>, rest: seq<Lexeme>)
    requires fields != [] && forall i | 0 <= i < |fields| :: Operands(fields[i].value)
    requires tail != [] && if comma then tail[0].CommaSign? && At(tail, 1).RCurly? && tail[2..] == rest
             else tail[0].RCurly? && tail[1..] == rest
    ensures tail == PrintFields(fields, |fields|) + Separator(comma) + [RCurly] + rest
  {
    assert PrintFields(fields, |fields|) == [];
    if comma {
      assert tail == [CommaSign, RCurly] + rest;
    } else {
      assert tail == [RCurly] + rest;
    }
  }

  lemma {:induction false} BuildSound(cfg: Config, guarded: bool, ls: seq<Lexeme>)
    requires BuilderStart(ls).Some? && ParseBuild(cfg, ls).Some?
    ensures
      var r := ParseBuild(cfg, ls).value;
      Spells(cfg, guarded, r.e, ls, r.rest) && Fits(cfg, TIGHTEST, r.e, r.rest)
    decreases |ls|, 0
  {
    var r, start := ParseBuild(cfg, ls).value, BuilderStart(ls).value;
    var body := ls[start.1..];
    LevelBound(cfg, r.rest);
    BuildHead(cfg, ls);
    if At(body, 0).RCurly? {
      EmptyBuildSound(cfg, guarded, ls, r.e.ty, body);
    } else {
      FieldsSound(cfg, [], body);
      FullBuildSound(cfg, guarded, ls, r.e.ty, body, ParseFields(cfg, [], body).value);
    }
  }

  lemma {:induction false} BuildHead(cfg: Config, ls: seq<Lexeme>)
    requires BuilderStart(ls).Some? && ParseBuild(cfg, ls).Some?
    ensures
      var e, body := ParseBuild(cfg, ls).value.e, ls[BuilderStart(ls).value.1..];
      e.Build? && (e.ty.Some? ==> e.ty.value != "") && ls == BuilderHead(e.ty) + [LCurly] + body
  {
  }

  lemma {:induction false} EmptyBuildSound(cfg: Config, guarded: bool, ls: seq<Lexeme>, ty: Option<string>,
                                           body: seq<Lexeme>)
    requires (ty.Some? ==> ty.value != "") && ls == BuilderHead(ty) + [LCurly] + body && At(body, 0).RCurly?
    ensures Spells(cfg, guarded, Build(ty, [], false), ls, body[1..])
  {
    HeadTail(body);
    assert PrintFields([], 0) + Separator(false) + [RCurly] == [RCurly];
    Assoc(BuilderHead(ty) + [LCurly], [RCurly], body[1..]);
  }

  lemma {:induction false} FullBuildSound(cfg: Config, guarded: bool, ls: seq<Lexeme>, ty: Option<string>,
                                          body: seq<Lexeme>, f: Fields)
    requires (ty.Some? ==> ty.value != "") && ls == BuilderHead(ty) + [LCurly] + body && FieldsRead(cfg, [], body, f)
    ensures Spells(cfg, guarded, Build(ty, f.fields, f.comma), ls, f.rest)
  {
    FirstFieldText(f.fields, f.comma);
    Assoc(BuilderHead(ty) + [LCurly], FieldsText(f.fields, 0, f.comma), f.rest);
  }

  // ------------------------------------------------------------------------

  /** Every text the reference parser accepts compiles to the tree it reads. The strict mode
      rejects it just when it contains a comparison chain. */
  lemma {:induction false} AgreesWithReference(cfg: Config, ls: seq<Lexeme>)
    requires Parse(cfg, ls).Some?
    ensures
      var e := Parse(cfg, ls).value;
      && Operands(e) && WellFormed(cfg, e, false) && ls == Print(e)
      && CompileSource(cfg, ls) == Rejecting(Rejected(cfg, HasChain(e)),
            Ok(Compiled(Meaning(e), FieldLog(e) + PostOrder(Meaning(e)))))
  {
    ExprSound(cfg, 0, false, ls);
    var e := Parse(cfg, ls).value;
    assert ls == Print(e) + [];
    assert Print(e) + [] == Print(e);
    SourceMeans(cfg, e);
  }
}
