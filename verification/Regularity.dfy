/** Two conditions on a text that the compiler does not check: operands and operators alternate,
    and every call has as many arguments as its function takes. Both are read off the lexemes in
    one pass; the fields of a builder are texts of their own. */
module Regularity {
  import opened Wrappers
  import opened Operators
  import opened Tokenizer
  import opened Reference

  /** The texts of a builder's fields, and what follows its closing brace. */
  datatype Split = Split(texts: seq<seq<Lexeme>>, rest: seq<Lexeme>)

  /** Splits a builder, from its opening brace on. */
  function SplitBuilder(ls: seq<Lexeme>): (r: Option<Split>)
    ensures r.Some? ==> |r.value.rest| < |ls| && forall t | t in r.value.texts :: |t| < |ls|
    decreases |ls|
  {
    if At(ls, 0).RCurly? then Some(Split([], ls[1..]))
    else if !At(ls, 0).Identifier? || !At(ls, 1).Colon? then None
    else
      var n := Collect(ls[2..], []);
      if n.Err? then None
      else
        var text, tail := ls[2..][..n.value], ls[2..][n.value..];
        if Closes(tail) then Some(Split([text], AfterSeparator(tail)))
        else
          var more := SplitBuilder(AfterSeparator(tail));
          if more.None? then None else Some(Split([text] + more.value.texts, more.value.rest))
  }

  // ------------------------------------------------------------------------
  // Alternation

  /** `ls` alternates, where an operand is wanted. */
  predicate WantsOperand(ls: seq<Lexeme>)
    decreases |ls|
  {
    var l := At(ls, 0);
    if BuilderStart(ls).Some? then
      var s := SplitBuilder(ls[BuilderStart(ls).value.1..]);
      s.Some? && (forall t | t in s.value.texts :: WantsOperand(t)) && WantsOperator(s.value.rest)
    else if TimestampStart(ls) then !At(ls, 3).Eof? && WantsOperator(ls[4..])
    else if l.Identifier? && FunctionNamed(l.name).Some? then WantsOperand(ls[1..])
    else if l.Identifier? || l.Number? || l.Truth? then WantsOperator(ls[1..])
    else if l.MinusSign? || l.Exclamation? || l.LParen? then WantsOperand(ls[1..])
    else false
  }

  /** `ls` alternates, where an operator, a closing bracket or the end is wanted. */
  predicate WantsOperator(ls: seq<Lexeme>)
    decreases |ls|
  {
    var l := At(ls, 0);
    if l.Eof? then true
    else if InfixOf(l).Some? || l.LBracket? || l.CommaSign? then WantsOperand(ls[1..])
    else if l.RParen? || l.RBracket? || DirectFieldAccess(l) then WantsOperator(ls[1..])
    else false
  }

  /** Operands and operators alternate in `ls`, and in every builder field. */
  predicate Alternates(ls: seq<Lexeme>) { WantsOperand(ls) }

  // ------------------------------------------------------------------------
  // Arity

  /** An open bracket; that of a call knows how many commas are still due. */
  datatype Slot = Plain | Call(due: nat)

  /** The calls in `ls`, with `open` open before it, have the arguments they are due. */
  predicate ArityFrom(open: seq<Slot>, ls: seq<Lexeme>)
    decreases |ls|
  {
    var l := At(ls, 0);
    if l.Eof? then true
    else if BuilderStart(ls).Some? then
      var s := SplitBuilder(ls[BuilderStart(ls).value.1..]);
      s.Some? && (forall t | t in s.value.texts :: ArityFrom([], t)) && ArityFrom(open, s.value.rest)
    else if TimestampStart(ls) then !At(ls, 3).Eof? && ArityFrom(open, ls[4..])
    else if l.Identifier? && FunctionNamed(l.name).Some? && At(ls, 1).LParen? then
      ArityFrom(open + [Call(if IsUnary(FunctionNamed(l.name).value) then 0 else 1)], ls[2..])
    else if l.LParen? || l.LBracket? then ArityFrom(open + [Plain], ls[1..])
    else if l.CommaSign? && open != [] && Last(open).Call? then
      Last(open).due > 0 && ArityFrom(Front(open) + [Call(Last(open).due - 1)], ls[1..])
    else if (l.RParen? || l.RBracket?) && open != [] then
      (Last(open).Call? ==> Last(open).due == 0) && ArityFrom(Front(open), ls[1..])
    else ArityFrom(open, ls[1..])
  }

  /** Every call in `ls`, and in every builder field, has the arguments its function takes. */
  predicate ArityOk(ls: seq<Lexeme>) { ArityFrom([], ls) }
}
