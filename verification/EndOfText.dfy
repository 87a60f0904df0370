/** The end-of-file lexeme changes nothing for a text without one. */
module EndOfText {
  import opened Wrappers
  import opened Operators
  import opened Tokenizer
  import opened Reference
  import opened Regularity

  predicate NoEof(ls: seq<Lexeme>) { forall i | 0 <= i < |ls| :: !ls[i].Eof? }

  lemma AtEof(ls: seq<Lexeme>, k: nat)
    ensures At(ls + [Eof], k) == At(ls, k)
  {
  }

  lemma TailEof(ls: seq<Lexeme>, k: nat)
    requires NoEof(ls) && k <= |ls|
    ensures (ls + [Eof])[k..] == ls[k..] + [Eof] && NoEof(ls[k..])
  {
  }

  lemma StartsEof(ls: seq<Lexeme>)
    ensures BuilderStart(ls + [Eof]) == BuilderStart(ls) && TimestampStart(ls + [Eof]) == TimestampStart(ls)
  {
    AtEof(ls, 0);
    AtEof(ls, 1);
    AtEof(ls, 2);
  }

  lemma {:induction false} CollectEof(ls: seq<Lexeme>, open: seq<Lexeme>)
    requires NoEof(ls)
    ensures Collect(ls + [Eof], open) == Collect(ls, open)
    decreases |ls|
  {
    AtEof(ls, 0);
    if ls != [] {
      TailEof(ls, 1);
      if OpenAfter(open, ls[0]).Some? {
        CollectEof(ls[1..], OpenAfter(open, ls[0]).value);
      }
    }
  }

  lemma {:induction false} SplitEof(ls: seq<Lexeme>)
    requires NoEof(ls) && SplitBuilder(ls).Some?
    ensures
      var s := SplitBuilder(ls).value;
      SplitBuilder(ls + [Eof]) == Some(Split(s.texts, s.rest + [Eof])) && NoEof(s.rest) && forall t | t in s.texts ::
            NoEof(t)
    decreases |ls|
  {
    AtEof(ls, 0);
    AtEof(ls, 1);
    if At(ls, 0).RCurly? {
      TailEof(ls, 1);
    } else {
      TailEof(ls, 2);
      var rest := ls[2..];
      CollectEof(rest, []);
      var n := Collect(rest, []).value;
      TailEof(rest, n);
      assert (rest + [Eof])[..n] == rest[..n] && NoEof(rest[..n]);
      SeparatorEof(rest[n..]);
      if !Closes(rest[n..]) {
        SplitEof(AfterSeparator(rest[n..]));
      }
    }
  }

  lemma SeparatorEof(tail: seq<Lexeme>)
    requires NoEof(tail) && tail != []
    ensures Closes(tail + [Eof]) == Closes(tail) && AfterSeparator(tail + [Eof]) == AfterSeparator(tail) + [Eof]
            && NoEof(AfterSeparator(tail))
  {
    AtEof(tail, 0);
    AtEof(tail, 1);
    TailEof(tail, 1);
    if |tail| >= 2 {
      TailEof(tail, 2);
    }
  }

  lemma {:induction false} OperandEof(ls: seq<Lexeme>)
    requires NoEof(ls) && WantsOperand(ls)
    ensures WantsOperand(ls + [Eof])
    decreases |ls|
  {
    AtEof(ls, 0);
    StartsEof(ls);
    if BuilderStart(ls).Some? {
      var k := BuilderStart(ls).value.1;
      TailEof(ls, k);
      SplitEof(ls[k..]);
      OperatorEof(SplitBuilder(ls[k..]).value.rest);
    } else if TimestampStart(ls) {
      AtEof(ls, 3);
      TailEof(ls, 4);
      OperatorEof(ls[4..]);
    } else {
      TailEof(ls, 1);
      if ls[0].MinusSign? || ls[0].Exclamation? || ls[0].LParen?
          || (ls[0].Identifier? && FunctionNamed(ls[0].name).Some?) {
        OperandEof(ls[1..]);
      } else {
        OperatorEof(ls[1..]);
      }
    }
  }

  lemma {:induction false} OperatorEof(ls: seq<Lexeme>)
    requires NoEof(ls) && WantsOperator(ls)
    ensures WantsOperator(ls + [Eof])
    decreases |ls|
  {
    AtEof(ls, 0);
    if ls != [] {
      TailEof(ls, 1);
      if InfixOf(ls[0]).Some? || ls[0].LBracket? || ls[0].CommaSign? {
        OperandEof(ls[1..]);
      } else {
        OperatorEof(ls[1..]);
      }
    }
  }

  lemma {:induction false} ArityEof(open: seq<Slot>, ls: seq<Lexeme>)
    requires NoEof(ls) && ArityFrom(open, ls)
    ensures ArityFrom(open, ls + [Eof])
    decreases |ls|
  {
    AtEof(ls, 0);
    AtEof(ls, 1);
    StartsEof(ls);
    if ls == [] {
    } else if BuilderStart(ls).Some? {
      var k := BuilderStart(ls).value.1;
      TailEof(ls, k);
      SplitEof(ls[k..]);
      ArityEof(open, SplitBuilder(ls[k..]).value.rest);
    } else if TimestampStart(ls) {
      AtEof(ls, 3);
      TailEof(ls, 4);
      ArityEof(open, ls[4..]);
    } else if ls[0].Identifier? && FunctionNamed(ls[0].name).Some? && At(ls, 1).LParen? {
      TailEof(ls, 2);
      ArityEof(open + [Slot.Call(if IsUnary(FunctionNamed(ls[0].name).value) then 0 else 1)], ls[2..]);
    } else {
      TailEof(ls, 1);
      ArityEof(NextOpen(open, ls[0]), ls[1..]);
    }
  }

  /** The slots open after a lexeme that stands by itself. */
  function NextOpen(open: seq<Slot>, l: Lexeme): seq<Slot> {
    if l.LParen? || l.LBracket? then open + [Plain]
    else if l.CommaSign? && open != [] && Last(open).Call? then
      Front(open) + [Slot.Call(if Last(open).due > 0 then Last(open).due - 1 else 0)]
    else if (l.RParen? || l.RBracket?) && open != [] then Front(open)
    else open
  }
}
