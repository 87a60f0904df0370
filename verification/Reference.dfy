/** A precedence-climbing parser for the surface syntax: the reference the shunting-yard
    parser is compared with. */
module Reference {
  import opened Wrappers
  import opened Operators
  import opened Trees
  import opened Shunting
  import opened Tokenizer
  import opened Grammar

  datatype Found = Found(e: Expr, rest: seq<Lexeme>)
  datatype Fields = Fields(fields: seq<FieldInit>, comma: bool, rest: seq<Lexeme>)

  function InfixOf(l: Lexeme): Option<Operator> {
    if l.MinusSign? then Some(Subtract)
    else if OperatorOf(l).Some? && IsInfix(OperatorOf(l).value) then OperatorOf(l)
    else None
  }

  /** How tightly the operator at the head of `ls` binds to what precedes it; 0 if there is none.
      Subscript and postfix field access share the level of power, and stay just below it when
      power groups to the right. */
  function Level(cfg: Config, ls: seq<Lexeme>): nat {
    var l := At(ls, 0);
    if InfixOf(l).Some? then Target(cfg, InfixOf(l).value)
    else if l.LBracket? || DirectFieldAccess(l) then Precedence(Subscript)
    else 0
  }

  /** The level of the right operand: it is above the operator's own level, so that equal operators
      group to the left, except for a power that groups to the right. */
  function RightLevel(op: Operator): nat {
    Precedence(op) + 1
  }

  predicate GroupOk(guarded: bool, x: Expr) {
    guarded || x.Prefix? || x.Infix? || x.Raise? || x.Index? || x.Build?
  }

  /** An expression made of operators that bind at least as tightly as `min`. */
  function ParseExpr(cfg: Config, min: nat, guarded: bool, ls: seq<Lexeme>): (r: Option<Found>)
    ensures r.Some? ==> |r.value.rest| < |ls|
    decreases |ls|, 3
  {
    var left := ParsePrimary(cfg, guarded, ls);
    if left.None? then None else ParseOperators(cfg, min, left.value.e, left.value.rest)
  }

  function ParseOperators(cfg: Config, min: nat, left: Expr, ls: seq<Lexeme>): (r: Option<Found>)
    ensures r.Some? ==> |r.value.rest| <= |ls|
    decreases |ls|, 2
  {
    if Level(cfg, ls) == 0 || Level(cfg, ls) < min then Some(Found(left, ls))
    else
      var more := ParseOperator(cfg, left, ls);
      if more.None? then None else ParseOperators(cfg, min, more.value.e, more.value.rest)
  }

  /** Two operands joined by `op`. A power that groups to the right does not reach past the
      subscript before it. */
  function Joined(cfg: Config, op: Operator, left: Expr, right: Expr): Expr {
    if cfg.rightAssociativePower && op.Power? && left.Index? then Raise(left, right) else Infix(op, left, right)
  }

  /** `left` extended by the operator at the head of `ls` and what belongs to it. */
  function ParseOperator(cfg: Config, left: Expr, ls: seq<Lexeme>): (r: Option<Found>)
    requires Level(cfg, ls) != 0
    ensures r.Some? ==> |r.value.rest| < |ls|
    decreases |ls|, 1
  {
    var l := At(ls, 0);
    if InfixOf(l).Some? then
      var right := ParseExpr(cfg, RightLevel(InfixOf(l).value), false, ls[1..]);
      if right.None? then None else Some(Found(Joined(cfg, InfixOf(l).value, left, right.value.e), right.value.rest))
    else if l.LBracket? then
      var index := ParseExpr(cfg, 0, false, ls[1..]);
      if index.None? || !At(index.value.rest, 0).RBracket? then None
      else Some(Found(Index(left, index.value.e), index.value.rest[1..]))
    else if PostfixPathOk(l.name) && !EndsInBuilder(left) then Some(Found(Access(left, l.name), ls[1..]))
    else None
  }

  function ParsePrimary(cfg: Config, guarded: bool, ls: seq<Lexeme>): (r: Option<Found>)
    ensures r.Some? ==> |r.value.rest| < |ls|
    decreases |ls|, 1
  {
    var l := At(ls, 0);
    if l.Truth? then Some(Found(Bool(l.b), ls[1..]))
    else if l.Number? then if l.plain.Some? then Some(Found(Num(l.plain.value, l.negated), ls[1..])) else None
    else if l.MinusSign? && At(ls, 1).Number? then
      if ls[1].negated.Some? then Some(Found(NegNum(ls[1].plain, ls[1].negated.value), ls[2..])) else None
    else if l.MinusSign? then ParsePrefix(cfg, UnaryMinus, ls)
    else if l.Exclamation? then ParsePrefix(cfg, Not, ls)
    else if l.LParen? then ParseGroup(cfg, guarded, ls)
    else if BuilderStart(ls).Some? then ParseBuild(cfg, ls)
    else if !l.Identifier? then None
    else if TimestampStart(ls) then
      if At(ls, 2).Identifier? && At(ls, 3).RParen?
          && ClockNamed(ls[2].name).Some? then Some(Found(Now(ls[2].name), ls[4..])) else None
    else if FunctionNamed(l.name).Some? then ParseCall(cfg, FunctionNamed(l.name).value, ls)
    else if PathOk(l.name) then Some(Found(Name(l.name), ls[1..]))
    else None
  }

  function ParsePrefix(cfg: Config, op: Operator, ls: seq<Lexeme>): (r: Option<Found>)
    requires ls != []
    ensures r.Some? ==> |r.value.rest| < |ls|
    decreases |ls|, 0
  {
    var arg := ParseExpr(cfg, Precedence(op) + 1, true, ls[1..]);
    if arg.None? then None else Some(Found(Prefix(op, arg.value.e), arg.value.rest))
  }

  function ParseGroup(cfg: Config, guarded: bool, ls: seq<Lexeme>): (r: Option<Found>)
    requires ls != []
    ensures r.Some? ==> |r.value.rest| < |ls|
    decreases |ls|, 0
  {
    var x := ParseExpr(cfg, 0, false, ls[1..]);
    if x.None? || !At(x.value.rest, 0).RParen? || !GroupOk(guarded, x.value.e) then None
    else Some(Found(Group(x.value.e), x.value.rest[1..]))
  }

  function ParseCall(cfg: Config, fn: Operator, ls: seq<Lexeme>): (r: Option<Found>)
    ensures r.Some? ==> |r.value.rest| < |ls|
    decreases |ls|, 0
  {
    if !At(ls, 1).LParen? then None
    else
      var first := ParseExpr(cfg, 0, false, ls[2..]);
      if first.None? then None
      else if IsUnary(fn) then
        if At(first.value.rest, 0).RParen? then Some(Found(Call1(fn, first.value.e), first.value.rest[1..])) else None
      else if !At(first.value.rest, 0).CommaSign? then None
      else
        var second := ParseExpr(cfg, 0, false, first.value.rest[1..]);
        if second.None? || !At(second.value.rest, 0).RParen? then None
        else Some(Found(Call2(fn, first.value.e, second.value.e), second.value.rest[1..]))
  }

  function ParseBuild(cfg: Config, ls: seq<Lexeme>): (r: Option<Found>)
    requires BuilderStart(ls).Some?
    ensures r.Some? ==> |r.value.rest| < |ls|
    decreases |ls|, 0
  {
    var start := BuilderStart(ls).value;
    var ty := if ls[0].LCurly? then None else Some(start.0);
    var body := ls[start.1..];
    if ty == Some("") then None
    else if At(body, 0).RCurly? then Some(Found(Build(ty, [], false), body[1..]))
    else
      var f := ParseFields(cfg, [], body);
      if f.None? then None else Some(Found(Build(ty, f.value.fields, f.value.comma), f.value.rest))
  }

  predicate FreshName(acc: seq<FieldInit>, l: Lexeme) {
    l.Identifier? && '.' !in l.name && forall i | 0 <= i < |acc| :: acc[i].name != l.name
  }

  function ParseFields(cfg: Config, acc: seq<FieldInit>, ls: seq<Lexeme>): (r: Option<Fields>)
    ensures r.Some? ==> |r.value.rest| < |ls|
    decreases |ls|, 0
  {
    if !FreshName(acc, At(ls, 0)) || !At(ls, 1).Colon? then None
    else
      var v := ParseExpr(cfg, 0, false, ls[2..]);
      if v.None? then None
      else
        var acc1, rest := acc + [FieldInit(ls[0].name, v.value.e)], v.value.rest;
        if At(rest, 0).RCurly? then Some(Fields(acc1, false, rest[1..]))
        else if !At(rest, 0).CommaSign? then None
        else if At(rest, 1).RCurly? then Some(Fields(acc1, true, rest[2..]))
        else ParseFields(cfg, acc1, rest[1..])
  }

  /** The expression that `ls` spells, from its first lexeme to its last. */
  function Parse(cfg: Config, ls: seq<Lexeme>): Option<Expr> {
    var r := ParseExpr(cfg, 0, false, ls);
    if r.Some? && r.value.rest == [] then Some(r.value.e) else None
  }
}
