/** Moves of the shunting-yard machine, composable without looking inside it. */
module ShuntingSteps {
  import opened Wrappers
  import opened Operators
  import opened Trees
  import opened Shunting

  function Rejecting<T>(bad: bool, r: Result<T, Error>): Result<T, Error> {
    if bad then Err(ComparisonChaining) else r
  }

  lemma RejectingTwice<T>(x: Result<T, Error>, bad1: bool, y: Result<T, Error>, bad2: bool, z: Result<T, Error>)
    requires x == Rejecting(bad1, y) && y == Rejecting(bad2, z)
    ensures x == Rejecting(bad1 || bad2, z)
  {
  }

  /** Collapsing `st` to any level up to `k` goes through `st1`, or rejects a chain if `bad`. */
  ghost predicate Shrinks(cfg: Config, k: nat, st: State, bad: bool, st1: State) {
    forall target: nat | 0 < target <= k :: Collapse(cfg, target, st) == Rejecting(bad, Collapse(cfg, target, st1))
  }

  /** Reading `toks` after `prev` takes `st` to `st1`, or rejects a chain if `bad`. */
  ghost predicate Leads(cfg: Config, prev: Option<Token<Tree>>, toks: seq<Token<Tree>>, st: State, bad: bool,
                        st1: State)
    requires toks != []
  {
    forall rest :: Run(cfg, prev, toks + rest, st) == Rejecting(bad, Run(cfg, Some(Last(toks)), rest, st1))
  }

  lemma ShrinksTrans(cfg: Config, k1: nat, k2: nat, k: nat, st: State, bad1: bool, st1: State, bad2: bool, st2: State)
    requires Shrinks(cfg, k1, st, bad1, st1) && Shrinks(cfg, k2, st1, bad2, st2) && k <= k1 && k <= k2
    ensures Shrinks(cfg, k, st, bad1 || bad2, st2)
  {
    forall target: nat | 0 < target <= k
      ensures Collapse(cfg, target, st) == Rejecting(bad1 || bad2, Collapse(cfg, target, st2))
    {
      assert Collapse(cfg, target, st1) == Rejecting(bad2, Collapse(cfg, target, st2));
    }
  }

  lemma LeadsTrans(cfg: Config, prev: Option<Token<Tree>>, toks: seq<Token<Tree>>, st: State, bad1: bool, st1: State,
                   toks2: seq<Token<Tree>>, bad2: bool, st2: State)
    requires toks != [] && toks2 != []
    requires Leads(cfg, prev, toks, st, bad1, st1) && Leads(cfg, Some(Last(toks)), toks2, st1, bad2, st2)
    ensures Leads(cfg, prev, toks + toks2, st, bad1 || bad2, st2)
  {
    forall rest ensures Run(cfg, prev, toks + toks2 + rest, st)
                     == Rejecting(bad1 || bad2, Run(cfg, Some(Last(toks + toks2)), rest, st2))
    {
      assert toks + toks2 + rest == toks + (toks2 + rest);
      assert Last(toks + toks2) == Last(toks2);
    }
  }

  /** One token whose effect does not depend on what follows. */
  lemma LeadsOne(cfg: Config, prev: Option<Token<Tree>>, t: Token<Tree>, st: State, bad: bool, st1: State)
    requires forall next :: Step(cfg, prev, t, next, st) == Rejecting(bad, Ok(st1))
    ensures Leads(cfg, prev, [t], st, bad, st1)
  {
    forall rest ensures Run(cfg, prev, [t] + rest, st) == Rejecting(bad, Run(cfg, Some(Last([t])), rest, st1)) {
      RunCons(cfg, prev, t, rest, st);
    }
  }

  lemma RunCons(cfg: Config, prev: Option<Token<Tree>>, t: Token<Tree>, rest: seq<Token<Tree>>, st: State)
    ensures Run(cfg, prev, [t] + rest, st)
         == match Step(cfg, prev, t, First(rest), st)
            case Ok(st1) => Run(cfg, Some(t), rest, st1)
            case Err(e) => Err(e)
  {
    assert ([t] + rest)[1..] == rest;
  }

  // ------------------------------------------------------------------------
  // Reductions

  function Combined(op: Operator, x: Tree, y: Tree): Operand<Tree>
    requires !IsPunctuation(op)
  {
    Operand(Binary(ToNodeOperator(op), x, y), IsComparison(op), false)
  }

  function Applied(op: Operator, x: Tree): Operand<Tree>
    requires !IsPunctuation(op)
  {
    Operand(Unary(ToNodeOperator(op), x), IsComparison(op), false)
  }

  predicate Chained(cfg: Config, op: Operator, x: Operand<Tree>, y: Operand<Tree>) {
    cfg.disallowChaining && IsComparison(op) && (Unguarded(x) || Unguarded(y))
  }

  lemma CombineTwo(cfg: Config, op: Operator, operands: seq<Operand<Tree>>, x: Operand<Tree>, y: Operand<Tree>)
    requires !IsPunctuation(op) && !IsUnary(op)
    ensures Combine(cfg, op, operands + [x, y])
         == Rejecting(Chained(cfg, op, x, y), Ok(operands + [Combined(op, x.value, y.value)]))
  {
    var both := operands + [x, y];
    assert both[..|both| - 2] == operands;
  }

  lemma CombineOne(cfg: Config, op: Operator, operands: seq<Operand<Tree>>, x: Operand<Tree>)
    requires !IsPunctuation(op) && IsUnary(op)
    ensures Combine(cfg, op, operands + [x]) == Ok(operands + [Applied(op, x.value)])
  {
    assert Front(operands + [x]) == operands;
  }

  lemma ShrinkTwo(cfg: Config, operands: seq<Operand<Tree>>, ops: seq<Operator>, op: Operator, x: Operand<Tree>,
                  y: Operand<Tree>)
    requires !IsPunctuation(op) && !IsUnary(op)
    ensures Shrinks(cfg, Precedence(op), State(operands + [x, y], ops + [op]),
                    Chained(cfg, op, x, y), State(operands + [Combined(op, x.value, y.value)], ops))
  {
    CombineTwo(cfg, op, operands, x, y);
    assert Front(ops + [op]) == ops;
  }

  lemma ShrinkOne(cfg: Config, operands: seq<Operand<Tree>>, ops: seq<Operator>, op: Operator, x: Operand<Tree>)
    requires !IsPunctuation(op) && IsUnary(op)
    ensures Shrinks(cfg, Precedence(op), State(operands + [x], ops + [op]),
                    false, State(operands + [Applied(op, x.value)], ops))
  {
    CombineOne(cfg, op, operands, x);
    assert Front(ops + [op]) == ops;
  }

  // ------------------------------------------------------------------------
  // Tokens

  /** Nothing on the operator stack binds as tightly as `k`. */
  predicate Blocks(ops: seq<Operator>, k: nat) {
    ops == [] || Precedence(Last(ops)) < k
  }

  lemma ReadLiteral(cfg: Config, prev: Option<Token<Tree>>, c: Const, st: State)
    ensures Leads(cfg, prev, [Literal(c)], st, false, State(st.operands + [Leaf(Constant(c))], st.ops))
  {
    LeadsOne(cfg, prev, Literal(c), st, false, State(st.operands + [Leaf(Constant(c))], st.ops));
  }

  lemma ReadWhole(cfg: Config, prev: Option<Token<Tree>>, t: Tree, st: State)
    ensures Leads(cfg, prev, [Whole(t)], st, false, State(st.operands + [Leaf(t)], st.ops))
  {
    LeadsOne(cfg, prev, Whole(t), st, false, State(st.operands + [Leaf(t)], st.ops));
  }

  lemma ReadSource(cfg: Config, prev: Option<Token<Tree>>, parts: seq<string>, st: State)
    requires parts != [] && parts[0] != ""
    ensures Leads(cfg, prev, [Path(parts)], st, false,
            State(st.operands + [Leaf(SourceField(parts[0], parts[1..]))], st.ops))
  {
    LeadsOne(cfg, prev, Path(parts), st, false, State(st.operands + [Leaf(SourceField(parts[0], parts[1..]))], st.ops));
  }

  lemma ReadOpening(cfg: Config, prev: Option<Token<Tree>>, op: Operator, st: State)
    requires IsPrefix(op) || op.LeftParen?
    ensures Leads(cfg, prev, [Op(op)], st, false, State(st.operands, st.ops + [op]))
  {
    LeadsOne(cfg, prev, Op(op), st, false, State(st.operands, st.ops + [op]));
  }

  lemma ReadInfixOp(cfg: Config, prev: Option<Token<Tree>>, op: Operator, k: nat, st: State, bad: bool, st1: State)
    requires IsInfix(op) && Target(cfg, op) <= k && Shrinks(cfg, k, st, bad, st1) && Blocks(st1.ops, Target(cfg, op))
    ensures Leads(cfg, prev, [Op(op)], st, bad, State(st1.operands, st1.ops + [op]))
  {
    assert Collapse(cfg, Target(cfg, op), st1) == Ok(st1);
    assert Collapse(cfg, Target(cfg, op), st) == Rejecting(bad, Ok(st1));
    forall next ensures Step(cfg, prev, Op(op), next, st) == Rejecting(bad, Ok(State(st1.operands, st1.ops + [op]))) {
      StepInfix(cfg, prev, op, next, st);
    }
    LeadsOne(cfg, prev, Op(op), st, bad, State(st1.operands, st1.ops + [op]));
  }

  lemma StepInfix(cfg: Config, prev: Option<Token<Tree>>, op: Operator, next: Option<Token<Tree>>, st: State)
    requires IsInfix(op)
    ensures Step(cfg, prev, Op(op), next, st)
         == match Collapse(cfg, Target(cfg, op), st)
            case Ok(st1) => Ok(State(st1.operands, st1.ops + [op]))
            case Err(e) => Err(e)
  {
  }

  lemma ReadLeftBracket(cfg: Config, prev: Option<Token<Tree>>, k: nat, st: State, bad: bool, st1: State)
    requires Precedence(Subscript) <= k && Shrinks(cfg, k, st, bad, st1) && Blocks(st1.ops, Precedence(Subscript))
    ensures Leads(cfg, prev, [Op(LeftSquareBracket)], st, bad,
            State(st1.operands, st1.ops + [Subscript, LeftSquareBracket]))
  {
    assert Collapse(cfg, Precedence(Subscript), st1) == Ok(st1);
    LeadsOne(cfg, prev, Op(LeftSquareBracket), st, bad, State(st1.operands, st1.ops + [Subscript, LeftSquareBracket]));
  }

  lemma ReadRightBracket(cfg: Config, prev: Option<Token<Tree>>, k: nat, st: State, bad: bool, st1: State,
                         below: seq<Operator>)
    requires 1 <= k && Shrinks(cfg, k, st, bad, st1) && st1.ops == below + [Subscript, LeftSquareBracket]
    ensures Leads(cfg, prev, [Op(RightSquareBracket)], st, bad, State(st1.operands, below + [Subscript]))
  {
    assert Collapse(cfg, 1, st1) == Ok(st1);
    assert Front(st1.ops) == below + [Subscript];
    LeadsOne(cfg, prev, Op(RightSquareBracket), st, bad, State(st1.operands, below + [Subscript]));
  }

  lemma ReadPostfix(cfg: Config, prev: Token<Tree>, parts: seq<string>, k: nat, st: State, bad: bool,
                    operands: seq<Operand<Tree>>, x: Operand<Tree>, ops: seq<Operator>)
    requires parts != [] && parts[0] == ""
    requires IsOperandToken(prev) && !(prev.Whole? && prev.node.Builder?)
    requires Precedence(Subscript) <= k && Shrinks(cfg, k, st, bad, State(operands + [x], ops))
             && Blocks(ops, Precedence(Subscript))
    ensures Leads(cfg, Some(prev), [Path(parts)], st, bad,
            State(operands + [Leaf(PostfixField(x.value, parts[1..]))], ops))
  {
    var st1 := State(operands + [x], ops);
    assert Collapse(cfg, Precedence(Subscript), st1) == Ok(st1);
    assert Front(operands + [x]) == operands;
    LeadsOne(cfg, Some(prev), Path(parts), st, bad, State(operands + [Leaf(PostfixField(x.value, parts[1..]))], ops));
  }

  lemma ReadFunctionName(cfg: Config, prev: Option<Token<Tree>>, fn: Operator, st: State)
    requires IsFunctionLike(fn)
    ensures Leads(cfg, prev, [Op(fn), Op(LeftParen)], st, false, State(st.operands, st.ops + [fn, LeftParen]))
  {
    var toks := [Op(fn), Op(LeftParen)];
    var st1, st2 := State(st.operands, st.ops + [fn]), State(st.operands, st.ops + [fn, LeftParen]);
    assert st1.ops + [LeftParen] == st2.ops;
    forall rest ensures Run(cfg, prev, toks + rest, st) == Rejecting(false, Run(cfg, Some(Last(toks)), rest, st2)) {
      assert toks + rest == [Op(fn)] + ([Op(LeftParen)] + rest);
      RunCons(cfg, prev, Op(fn), [Op(LeftParen)] + rest, st);
      RunCons(cfg, Some(Op(fn)), Op(LeftParen), rest, st1);
    }
  }

  lemma ReadComma(cfg: Config, prev: Token<Tree>, k: nat, st: State, bad: bool, st1: State, below: seq<Operator>,
                  fn: Operator)
    requires IsOperandToken(prev) && 1 <= k && Shrinks(cfg, k, st, bad, st1)
    requires st1.ops == below + [fn, LeftParen] && IsFunctionLike(fn)
    ensures Leads(cfg, Some(prev), [Op(Comma)], st, bad, st1)
  {
    assert Collapse(cfg, 1, st1) == Ok(st1);
    assert Front(st1.ops) == below + [fn];
    LeadsOne(cfg, Some(prev), Op(Comma), st, bad, st1);
  }

  /** A closing parenthesis that ends a group. */
  lemma ReadGroupEnd(cfg: Config, prev: Token<Tree>, k: nat, st: State, bad: bool,
                     operands: seq<Operand<Tree>>, x: Operand<Tree>, below: seq<Operator>)
    requires IsOperandToken(prev) && 1 <= k && Shrinks(cfg, k, st, bad, State(operands + [x], below + [LeftParen]))
    requires below == [] || !IsFunctionLike(Last(below))
    requires || |st.ops| != |below| + 1 || (!x.parenthesized && x.value.Builder?)
             || (below != [] && IsUnary(Last(below)))
    ensures Leads(cfg, Some(prev), [Op(RightParen)], st, bad, State(operands + [x.(parenthesized := true)], below))
  {
    var st1 := State(operands + [x], below + [LeftParen]);
    assert Collapse(cfg, 1, st1) == Ok(st1);
    assert Front(st1.ops) == below && Front(st1.operands) == operands;
    LeadsOne(cfg, Some(prev), Op(RightParen), st, bad, State(operands + [x.(parenthesized := true)], below));
  }

  /** A closing parenthesis that ends the argument list of `fn`. */
  lemma ReadCallEnd(cfg: Config, prev: Token<Tree>, k: nat, st: State, bad: bool,
                    operands: seq<Operand<Tree>>, x: Operand<Tree>, below: seq<Operator>, fn: Operator,
                        result: seq<Operand<Tree>>)
    requires IsOperandToken(prev) && 1 <= k && Shrinks(cfg, k, st, bad, State(operands + [x], below + [fn, LeftParen]))
    requires IsFunctionLike(fn)
    requires Combine(cfg, fn, operands + [x.(parenthesized := true)]) == Ok(result)
    ensures Leads(cfg, Some(prev), [Op(RightParen)], st, bad, State(result, below))
  {
    var st1 := State(operands + [x], below + [fn, LeftParen]);
    assert Collapse(cfg, 1, st1) == Ok(st1);
    assert Front(st1.ops) == below + [fn] && Front(below + [fn]) == below && Front(st1.operands) == operands;
    LeadsOne(cfg, Some(prev), Op(RightParen), st, bad, State(result, below));
  }
}
