/** The parser with its shared node pool, as the program runs it. */
module Parser {
  import opened Wrappers
  import opened Operators
  import opened Trees
  import opened Shunting
  import opened ShuntingSteps
  import opened Tokenizer
  import opened Sorting

  /** The parser's two stacks; operands are positions in the node pool. */
  datatype Stacks = Stacks(operands: seq<Operand<nat>>, ops: seq<Operator>)

  // ------------------------------------------------------------------------
  // What indices, tokens and stacks stand for.

  ghost predicate Stands(v: seq<Tree>, x: Operand<nat>, t: Operand<Tree>) {
    && x.value < |v| && v[x.value] == t.value
    && x.isComparison == t.isComparison && x.parenthesized == t.parenthesized
  }

  ghost predicate StandAll(v: seq<Tree>, xs: seq<Operand<nat>>, ts: seq<Operand<Tree>>) {
    |xs| == |ts| && forall i | 0 <= i < |xs| :: Stands(v, xs[i], ts[i])
  }

  ghost predicate TokenStands(v: seq<Tree>, x: Token<Node>, t: Token<Tree>) {
    match x
    case Whole(n) =>
      && t.Whole? && (n.MessageBuilder? || n.FunctionLeaf?)
      && WellFormedNode(n) && InRange(n, |v|) && DecodeNode(v, n) == t.node
    case Path(parts) => t == Path(parts)
    case Literal(c) => t == Literal(c)
    case Op(op) => t == Op(op)
  }

  ghost predicate TokensStand(v: seq<Tree>, xs: seq<Token<Node>>, ts: seq<Token<Tree>>) {
    |xs| == |ts| && forall i | 0 <= i < |xs| :: TokenStands(v, xs[i], ts[i])
  }

  ghost predicate AssignsStand(v: seq<Tree>, xs: seq<NodeAssign>, ts: seq<Assign>) {
    && |xs| == |ts|
    && forall i | 0 <= i < |xs| :: xs[i].name == ts[i].name && xs[i].index < |v| && v[xs[i].index] == ts[i].value
  }

  /** The trees pushed so far to build the operands, oldest first. */
  ghost function OperandLog(ts: seq<Operand<Tree>>): seq<Tree> {
    if ts == [] then [] else OperandLog(Front(ts)) + PostOrder(Last(ts).value)
  }

  lemma OperandLogSnoc(ts: seq<Operand<Tree>>, t: Operand<Tree>)
    ensures OperandLog(ts + [t]) == OperandLog(ts) + PostOrder(t.value)
  {
    assert Front(ts + [t]) == ts;
  }

  lemma TokensStandExtend(v: seq<Tree>, w: seq<Tree>, xs: seq<Token<Node>>, ts: seq<Token<Tree>>)
    requires TokensStand(v, xs, ts) && v <= w
    ensures TokensStand(w, xs, ts)
  {
    forall i | 0 <= i < |xs| ensures TokenStands(w, xs[i], ts[i]) {
      assert TokenStands(v, xs[i], ts[i]);
      if xs[i].Whole? {
        DecodeNodeExtend(v, w, xs[i].node);
      }
    }
  }

  ghost predicate PrevStands(v: seq<Tree>, x: Option<Token<Node>>, t: Option<Token<Tree>>) {
    (x.None? <==> t.None?) && (x.Some? ==> TokenStands(v, x.value, t.value))
  }

  function Before<T>(s: seq<T>, i: nat): Option<T>
    requires i <= |s|
  {
    if i == 0 then None else Some(s[i - 1])
  }

  ghost function CollapsingTarget(cfg: Config, op: Operator): nat {
    if op.LeftSquareBracket? then Precedence(Subscript) else Target(cfg, op)
  }

  function Pushed(op: Operator): seq<Operator> {
    if op.LeftSquareBracket? then [Subscript, LeftSquareBracket] else [op]
  }

  ghost function CollapseThenPush(cfg: Config, target: nat, more: seq<Operator>, st: State): Result<State, Error>
    requires target > 0
  {
    var st1 :- Collapse(cfg, target, st);
    Ok(st1.(ops := st1.ops + more))
  }

  lemma StepCollapses(cfg: Config, prev: Option<Token<Tree>>, op: Operator, next: Option<Token<Tree>>, st: State)
    requires op.LeftSquareBracket? || (IsStackable(op) && !op.LeftParen? && !IsFunctionLike(op) && !IsPrefix(op))
    ensures CollapsingTarget(cfg, op) > 0
    ensures StepOp(cfg, prev, op, next, st) == CollapseThenPush(cfg, CollapsingTarget(cfg, op), Pushed(op), st)
  {
  }

  lemma RunUnfold(cfg: Config, ts: seq<Token<Tree>>, i: nat, st: State)
    requires i < |ts|
    ensures
      var r := Step(cfg, Before(ts, i), ts[i], First(ts[i + 1..]), st);
      Run(cfg, Before(ts, i), ts[i..], st) == if r.Ok? then Run(cfg, Before(ts, i + 1), ts[i + 1..], r.value)
            else Err(r.error)
  {
    assert ts[i..][1..] == ts[i + 1..];
  }

  /** Combining operands pushes just the combined tree. */
  lemma CombineLog(cfg: Config, op: Operator, ts: seq<Operand<Tree>>)
    requires !IsPunctuation(op) && Combine(cfg, op, ts).Ok?
    ensures
      var ts1 := Combine(cfg, op, ts).value;
      ts1 != [] && OperandLog(ts1) == OperandLog(ts) + [Last(ts1).value]
  {
    if IsUnary(op) {
      SplitOne(ts);
      CombineOne(cfg, op, Front(ts), Last(ts));
      UnaryLog(Front(ts), Last(ts), Applied(op, Last(ts).value));
    } else {
      var below, l, r := ts[..|ts| - 2], ts[|ts| - 2], ts[|ts| - 1];
      SplitTwo(ts);
      Assoc(below, [l], [r]);
      CombineTwo(cfg, op, below, l, r);
      BinaryLog(below, l, r, Combined(op, l.value, r.value));
    }
  }

  lemma SplitOne<T>(s: seq<T>)
    requires s != []
    ensures Front(s) + [Last(s)] == s
  {
  }

  lemma SplitTwo<T>(s: seq<T>)
    requires |s| >= 2
    ensures s[..|s| - 2] + [s[|s| - 2]] + [s[|s| - 1]] == s
  {
  }

  lemma UnaryLog(below: seq<Operand<Tree>>, x: Operand<Tree>, y: Operand<Tree>)
    requires PostOrder(y.value) == PostOrder(x.value) + [y.value]
    ensures OperandLog(below + [y]) == OperandLog(below + [x]) + [y.value]
  {
    OperandLogSnoc(below, x);
    OperandLogSnoc(below, y);
    Assoc(OperandLog(below), PostOrder(x.value), [y.value]);
  }

  lemma BinaryLog(below: seq<Operand<Tree>>, l: Operand<Tree>, r: Operand<Tree>, y: Operand<Tree>)
    requires PostOrder(y.value) == PostOrder(l.value) + PostOrder(r.value) + [y.value]
    ensures OperandLog(below + [y]) == OperandLog(below + [l] + [r]) + [y.value]
  {
    OperandLogSnoc(below, l);
    OperandLogSnoc(below + [l], r);
    OperandLogSnoc(below, y);
    Assoc(OperandLog(below), PostOrder(l.value), PostOrder(r.value));
    Assoc(OperandLog(below), PostOrder(l.value) + PostOrder(r.value), [y.value]);
  }

  lemma MarkStands(v: seq<Tree>, xs: seq<Operand<nat>>, ts: seq<Operand<Tree>>)
    requires StandAll(v, xs, ts)
    ensures StandAll(v, MarkParenthesized(xs), MarkParenthesized(ts))
    ensures OperandLog(MarkParenthesized(ts)) == OperandLog(ts)
  {
    if ts != [] {
      assert Stands(v, Last(xs), Last(ts));
      OperandLogSnoc(Front(ts), Last(ts).(parenthesized := true));
    }
  }

  lemma StandSnoc(v: seq<Tree>, w: seq<Tree>, xs: seq<Operand<nat>>, ts: seq<Operand<Tree>>)
    requires xs != [] && ts != [] && v <= w && StandAll(v, Front(xs), Front(ts)) && Stands(w, Last(xs), Last(ts))
    ensures StandAll(w, xs, ts)
  {
    forall i | 0 <= i < |xs| ensures Stands(w, xs[i], ts[i]) {
      if i < |xs| - 1 {
        assert Stands(v, Front(xs)[i], Front(ts)[i]);
      }
    }
  }

  lemma SingleOperandLog(ts: seq<Operand<Tree>>)
    requires |ts| == 1
    ensures OperandLog(ts) == PostOrder(ts[0].value)
  {
    assert Front(ts) == [];
  }

  lemma StackableBinds(op: Operator)
    requires IsStackable(op) && !op.LeftParen? && !op.LeftSquareBracket?
    ensures Precedence(op) >= 1
  {
  }

  /** At a bracket or an empty stack there is nothing left to reduce. */
  lemma CollapseStops(cfg: Config, st: State)
    requires st.ops == [] || Last(st.ops).LeftParen? || Last(st.ops).LeftSquareBracket?
    ensures Collapse(cfg, 1, st) == Ok(st)
  {
  }

  // ------------------------------------------------------------------------

  /** `r` is the node, and the operands below it, that the machine's `spec` asks for. */
  ghost predicate Builds(v: seq<Tree>, op: Operator, r: Result<(Node, seq<Operand<nat>>), Error>,
                         spec: Result<seq<Operand<Tree>>, Error>) {
    match spec
    case Err(e) => r == Err(e)
    case Ok(ts) =>
      && ts != [] && r.Ok? && WellFormedNode(r.value.0) && InRange(r.value.0, |v|)
      && Last(ts) == Operand(DecodeNode(v, r.value.0), IsComparison(op), false)
      && StandAll(v, r.value.1, Front(ts))
  }

  lemma UnaryNodeBuilds(cfg: Config, v: seq<Tree>, op: Operator, operands: seq<Operand<nat>>, ts: seq<Operand<Tree>>)
    requires !IsPunctuation(op) && IsUnary(op) && StandAll(v, operands, ts) && operands != []
    ensures Builds(v, op, Ok((Combination(ToNodeOperator(op), Last(operands).value, None), Front(operands))),
            Combine(cfg, op, ts))
  {
    assert Stands(v, Last(operands), Last(ts));
    assert IsUnaryNodeOperator(ToNodeOperator(op));
    var ts1 := Combine(cfg, op, ts).value;
    assert Front(ts1) == Front(ts);
  }

  lemma BinaryNodeBuilds(cfg: Config, v: seq<Tree>, op: Operator, operands: seq<Operand<nat>>, ts: seq<Operand<Tree>>)
    requires !IsPunctuation(op) && !IsUnary(op) && StandAll(v, operands, ts) && |operands| >= 2
             && Combine(cfg, op, ts).Ok?
    ensures Builds(v, op, Ok((Combination(ToNodeOperator(op), operands[|operands| - 2].value,
            Some(operands[|operands| - 1].value)),
                              operands[..|operands| - 2])), Combine(cfg, op, ts))
  {
    assert Stands(v, operands[|operands| - 1], ts[|ts| - 1]) && Stands(v, operands[|operands| - 2], ts[|ts| - 2]);
    assert !IsUnaryNodeOperator(ToNodeOperator(op));
    var ts1 := Combine(cfg, op, ts).value;
    assert Front(ts1) == ts[..|ts| - 2];
  }

  /** Tokens other than whole nodes do not depend on how nodes are represented. */
  lemma SimpleTokenStands(v: seq<Tree>, lastIsOperator: bool, rest: seq<Lexeme>)
    requires !At(rest, 0).Eof?
    ensures
      var x, t := SimpleToken<Node>(lastIsOperator, rest), SimpleToken<Tree>(lastIsOperator, rest);
      if x.Err? then t == Err(x.error) else t.Ok? && t.value.1 == x.value.1 && TokenStands(v, x.value.0, t.value.0)
  {
    if rest[0].Identifier? {
      assert ParseValue<Node>(rest[0].name).Err? <==> ParseValue<Tree>(rest[0].name).Err?;
    }
  }

  lemma SliceSnoc<T>(s: seq<T>, k: nat)
    requires k < |s|
    ensures s[..k] + [s[k]] == s[..k + 1] && s[k..][1..] == s[k + 1..] && s[k..][0] == s[k]
  {
  }

  lemma {:induction false} CollectUnfold(rest: seq<Lexeme>, open: seq<Lexeme>, n: nat)
    requires rest != [] && !rest[0].Eof? && !(open == [] && (rest[0].RCurly? || rest[0].CommaSign?))
    requires OpenAfter(open, rest[0]).Some?
    ensures Plus(n, Collect(rest, open)) == Plus(n + 1, Collect(rest[1..], OpenAfter(open, rest[0]).value))
  {
  }

  lemma LastStands(v: seq<Tree>, xs: seq<Token<Node>>, ts: seq<Token<Tree>>)
    requires TokensStand(v, xs, ts)
    ensures LastIsOperator(xs) == LastIsOperator(ts)
  {
    if xs != [] {
      assert TokenStands(v, Last(xs), Last(ts));
    }
  }

  lemma TokensStandSnoc(v: seq<Tree>, xs: seq<Token<Node>>, x: Token<Node>, ts: seq<Token<Tree>>, t: Token<Tree>)
    requires TokensStand(v, xs, ts) && TokenStands(v, x, t)
    ensures TokensStand(v, xs + [x], ts + [t])
  {
  }

  ghost predicate NamesOk(xs: seq<NodeAssign>) {
    && (forall i | 0 <= i < |xs| :: xs[i].name != "")
    && (forall i, j | 0 <= i < j < |xs| :: xs[i].name != xs[j].name)
  }

  lemma AssignsSnoc(v: seq<Tree>, w: seq<Tree>, xs: seq<NodeAssign>, ts: seq<Assign>, x: NodeAssign, t: Assign)
    requires AssignsStand(v, xs, ts) && v <= w && x.name == t.name && x.index < |w| && w[x.index] == t.value
    requires NamesOk(xs) && x.name != "" && forall i | 0 <= i < |xs| :: xs[i].name != x.name
    ensures AssignsStand(w, xs + [x], ts + [t]) && NamesOk(xs + [x])
  {
  }

  lemma BuilderStands(v: seq<Tree>, ty: string, xs: seq<NodeAssign>, ts: seq<Assign>)
    requires AssignsStand(v, xs, ts) && NamesOk(xs)
    ensures TokenStands(v, Whole(MessageBuilder(if ty == "" then None else Some(ty), xs)), Whole(BuilderOf(ty, ts)))
  {
    var n := MessageBuilder(if ty == "" then None else Some(ty), xs);
    assert DecodeNode(v, n).assigns == ts;
  }

  lemma {:induction false} TimestampUnfold(cfg: Config, acc: Tokenized, rest: seq<Lexeme>)
    requires TimestampStart(rest)
    ensures
      var clock := ParseTimestamp(rest[1..]);
      Tokenize(cfg, acc, rest)
      == if clock.Err? then Err(clock.error) else Tokenize(cfg, Snoc(acc, Whole(Timestamp(clock.value))), rest[4..])
  {
  }

  lemma {:induction false} SimpleUnfold(cfg: Config, acc: Tokenized, rest: seq<Lexeme>)
    requires !At(rest, 0).Eof? && !TimestampStart(rest) && BuilderStart(rest).None?
    ensures
      var t := SimpleToken<Tree>(LastIsOperator(acc.tokens), rest);
      Tokenize(cfg, acc, rest) == if t.Err? then Err(t.error)
            else Tokenize(cfg, Snoc(acc, t.value.0), rest[t.value.1..])
  {
  }

  lemma {:induction false} BuilderUnfold(cfg: Config, acc: Tokenized, rest: seq<Lexeme>)
    requires BuilderStart(rest).Some?
    ensures
      var start := BuilderStart(rest).value;
      var b := ParseBuilder(cfg, start.0, Built([], acc.log), rest[start.1..]);
      Tokenize(cfg, acc, rest)
      == if b.Err? then Err(b.error)
         else if DirectFieldAccess(At(b.value.rest, 0)) then Err(FieldOnBuilder)
         else Tokenize(cfg, Tokenized(acc.tokens + [Whole(b.value.tree)], b.value.log), b.value.rest)
  {
  }

  lemma {:induction false} BodyUnfold(cfg: Config, ty: string, acc: Built, name: string, rest: seq<Lexeme>)
    requires Collect(rest, []).Ok? && Collect(rest, []).value > 0
    ensures
      var n := Collect(rest, []).value;
      var field := CompileField(cfg, acc.log, rest[..n]);
      ParseFieldBody(cfg, ty, acc, name, rest)
      == if field.Err? then Err(field.error)
            else NextField(cfg, ty, Built(acc.assigns + [Assign(name, field.value.0)], field.value.1), rest[n..])
  {
  }

  class TokenStream {
    var tokens: seq<Lexeme>
    var pos: nat

    ghost predicate Valid()
      reads this
    {
      tokens != [] && Last(tokens).Eof? && pos <= |tokens|
    }

    /** What is still to be read. */
    ghost function Rest(): seq<Lexeme>
      reads this
      requires Valid()
    {
      tokens[pos..]
    }

    constructor (ls: seq<Lexeme>)
      ensures Valid() && pos == 0 && tokens == StreamOf(ls) && Rest() == StreamOf(ls)
    {
      tokens := if ls == [] || !Last(ls).Eof? then ls + [Eof] else ls;
      pos := 0;
    }

    function Lookahead(n: nat): (l: Lexeme)
      reads this
      requires Valid()
      ensures l == At(Rest(), n)
    {
      if pos + n >= |tokens| then tokens[|tokens| - 1] else tokens[pos + n]
    }

    function Peek(): (l: Lexeme)
      reads this
      requires Valid()
      ensures l == At(Rest(), 0)
    {
      Lookahead(0)
    }

    predicate IsEOF()
      reads this
      requires Valid()
      ensures IsEOF() <==> At(Rest(), 0).Eof?
    {
      Peek().Eof?
    }

    method Next() returns (l: Lexeme)
      requires Valid()
      modifies this
      ensures Valid() && tokens == old(tokens)
      ensures l == At(old(Rest()), 0)
      ensures Rest() == if old(Rest()) == [] then [] else old(Rest())[1..]
    {
      l := Peek();
      if pos < |tokens| {
        pos := pos + 1;
      }
    }
  }

  // ------------------------------------------------------------------------

  ghost predicate Sound(nodes: seq<Node>, nodeByWire: map<Node, nat>, pool: seq<Tree>) {
    && ChildrenFirst(nodes)
    && (forall i | 0 <= i < |nodes| :: WellFormedNode(nodes[i]))
    && (forall i | 0 <= i < |nodes| :: nodes[i] in nodeByWire && nodeByWire[nodes[i]] == i)
    && (forall n | n in nodeByWire :: nodeByWire[n] < |nodes| && nodes[nodeByWire[n]] == n)
    && pool == View(nodes)
  }

  class ParserShunt {
    const cfg: Config
    var nodes: seq<Node>
    var nodeByWire: map<Node, nat>
    /** The trees the pool stands for, index by index. */
    ghost var pool: seq<Tree>

    /** The pool is hash-consed and bottom-up, and every node is structurally sound. */
    ghost predicate Valid()
      reads this
    {
      Sound(nodes, nodeByWire, pool)
    }
    /** Indices that decode to the same tree are the same index. */
    lemma PoolIsCanonical()
      requires Valid()
      ensures Distinct(pool)
    {
      forall i, j | 0 <= i < j < |nodes| ensures nodes[i] != nodes[j] {
        assert nodeByWire[nodes[i]] == i && nodeByWire[nodes[j]] == j;
      }
      ViewDistinct(nodes);
    }

    constructor (disallowComparisonOperatorChaining: bool, enableRightAssociativeExponentiation: bool)
      ensures Valid() && nodes == [] && pool == []
      ensures cfg == Config(disallowComparisonOperatorChaining, enableRightAssociativeExponentiation)
    {
      cfg := Config(disallowComparisonOperatorChaining, enableRightAssociativeExponentiation);
      nodes := [];
      nodeByWire := map[];
      pool := [];
    }

    /** The pool grew, and what was there is untouched. */
    twostate predicate Grown()
      reads this
    {
      old(nodes) <= nodes && old(pool) <= pool
    }

    method PushNode(n: Node) returns (i: nat)
      requires Valid() && WellFormedNode(n) && InRange(n, |nodes|)
      modifies this
      ensures Valid() && Grown()
      ensures i < |nodes| && nodes[i] == n
      ensures pool == Intern(old(pool), [DecodeNode(old(pool), n)])
      ensures pool[i] == DecodeNode(old(pool), n)
    {
      ghost var v := pool;
      ghost var t := DecodeNode(v, n);
      assert Front([t]) == [];
      assert Intern(v, [t]) == if t in v then v else v + [t];
      if n in nodeByWire {
        i := nodeByWire[n];
        ViewAt(nodes, i);
      } else {
        forall j | 0 <= j < |v| ensures v[j] != t {
          ViewAt(nodes, j);
          PoolIsCanonical();
          assert nodes[j] in nodeByWire;
          if v[j] == t {
            DecodeNodeInjective(v, nodes[j], n);
          }
        }
        ViewSnoc(nodes, n);
        i := |nodes|;
        nodes := nodes + [n];
        nodeByWire := nodeByWire[n := i];
        pool := pool + [t];
      }
    }

    /** The stacks stand for the machine state `st`, and since the pool was `base` exactly
        the trees of its operands have been pushed. */
    ghost predicate Represents(base: seq<Tree>, s: Stacks, st: State)
      reads this
    {
      && Valid()
      && pool == Intern(base, OperandLog(st.operands))
      && StandAll(pool, s.operands, st.operands)
      && s.ops == st.ops
      && (forall i | 0 <= i < |s.ops| :: IsStackable(s.ops[i]))
    }

    /** The outcome `r` agrees with the machine's outcome `spec`, errors included. */
    ghost predicate Agrees(base: seq<Tree>, r: Result<Stacks, Error>, spec: Result<State, Error>)
      reads this
    {
      match spec
      case Ok(st) => r.Ok? && Represents(base, r.value, st)
      case Err(e) => r == Err(e)
    }

    method PushNodeToOperandStack(n: Node, operands: seq<Operand<nat>>, isComparison: bool)
        returns (operands1: seq<Operand<nat>>)
      requires Valid() && WellFormedNode(n) && InRange(n, |nodes|)
      modifies this
      ensures Valid() && Grown()
      ensures pool == Intern(old(pool), [DecodeNode(old(pool), n)])
      ensures |operands1| == |operands| + 1 && Front(operands1) == operands
      ensures Stands(pool, Last(operands1), Operand(DecodeNode(old(pool), n), isComparison, false))
    {
      var id := PushNode(n);
      operands1 := operands + [Operand(id, isComparison, false)];
    }

    /** Pops the operands of `op` and builds the node that combines them. */
    method BuildCombinationNode(op: Operator, operands: seq<Operand<nat>>, ghost ts: seq<Operand<Tree>>)
      returns (r: Result<(Node, seq<Operand<nat>>), Error>)
      requires !IsPunctuation(op) && Valid() && StandAll(pool, operands, ts)
      ensures Builds(pool, op, r, Combine(cfg, op, ts))
    {
      if IsUnary(op) {
        if operands == [] {
          return Err(MissingOperand(op));
        }
        var left := Last(operands);
        r := Ok((Combination(ToNodeOperator(op), left.value, None), Front(operands)));
        UnaryNodeBuilds(cfg, pool, op, operands, ts);
      } else {
        if |operands| < 2 {
          return Err(MissingOperand(op));
        }
        var right, left := operands[|operands| - 1], operands[|operands| - 2];
        assert Stands(pool, right, ts[|ts| - 1]) && Stands(pool, left, ts[|ts| - 2]);
        if IsComparison(op) && ((left.isComparison && !left.parenthesized)
            || (right.isComparison && !right.parenthesized)) {
          if cfg.disallowChaining {
            return Err(ComparisonChaining);
          }
        }
        r := Ok((Combination(ToNodeOperator(op), left.value, Some(right.value)), operands[..|operands| - 2]));
        BinaryNodeBuilds(cfg, pool, op, operands, ts);
      }
    }

    /** Builds and pushes the node of an operator taken off the stack. */
    method Reduce(op: Operator, s: Stacks, ghost base: seq<Tree>, ghost st: State) returns (r: Result<Stacks, Error>)
      requires !IsPunctuation(op) && Represents(base, s, st)
      modifies this
      ensures Valid() && Grown()
      ensures Combine(cfg, op, st.operands).Err? ==> r == Err(Combine(cfg, op, st.operands).error)
      ensures Combine(cfg, op, st.operands).Ok? ==>
        r.Ok? && Represents(base, r.value, State(Combine(cfg, op, st.operands).value, st.ops))
    {
      var b := BuildCombinationNode(op, s.operands, st.operands);
      if b.Err? {
        return Err(b.error);
      }
      ghost var ts1 := Combine(cfg, op, st.operands).value;
      CombineLog(cfg, op, st.operands);
      var operands := PushNodeToOperandStack(b.value.0, b.value.1, IsComparison(op));
      InternAppend(base, OperandLog(st.operands), [Last(ts1).value]);
      StandSnoc(old(pool), pool, operands, ts1);
      r := Ok(Stacks(operands, s.ops));
    }

    /** Takes the top operator off and reduces it; what is left collapses the same way. */
    method PopAndReduce(target: nat, s: Stacks, ghost base: seq<Tree>, ghost st: State)
        returns (r: Result<Stacks, Error>, ghost st1: State)
      requires Represents(base, s, st) && s.ops != [] && 0 < target <= Precedence(Last(s.ops))
      modifies this
      ensures Valid() && Grown()
      ensures r.Err? ==> Collapse(cfg, target, st) == Err(r.error)
      ensures r.Ok? ==> Represents(base, r.value, st1) && Collapse(cfg, target, st) == Collapse(cfg, target, st1)
      ensures r.Ok? ==> r.value.ops == Front(s.ops)
    {
      var op, rest := Last(s.ops), Stacks(s.operands, Front(s.ops));
      st1 := State(st.operands, Front(st.ops));
      r := Reduce(op, rest, base, st1);
      if r.Ok? {
        st1 := State(Combine(cfg, op, st.operands).value, Front(st.ops));
      }
    }

    method CollapseOperators(target: nat, s: Stacks, ghost base: seq<Tree>, ghost st: State)
        returns (r: Result<Stacks, Error>, ghost st1: State)
      requires Represents(base, s, st) && target > 0
      modifies this
      ensures Valid() && Grown()
      ensures r.Ok? ==> Collapse(cfg, target, st) == Ok(st1) && Represents(base, r.value, st1)
      ensures r.Err? ==> Collapse(cfg, target, st) == Err(r.error)
    {
      var cur := s;
      st1 := st;
      while cur.ops != []
        invariant Represents(base, cur, st1) && Grown()
        invariant Collapse(cfg, target, st) == Collapse(cfg, target, st1)
        decreases |cur.ops|
      {
        var lastOp := Last(cur.ops);
        if Precedence(lastOp) < target {
          break;
        }
        r, st1 := PopAndReduce(target, cur, base, st1);
        if r.Err? {
          return;
        }
        cur := r.value;
      }
      r := Ok(cur);
    }

    /** Reduces down to the innermost open bracket, or to the bottom: the loop that closing
        brackets, commas and the end of the input have in common. */
    method UnwindToBracket(s: Stacks, ghost base: seq<Tree>, ghost st: State)
        returns (r: Result<Stacks, Error>, ghost st1: State)
      requires Represents(base, s, st)
      modifies this
      ensures Valid() && Grown()
      ensures r.Ok? ==> Collapse(cfg, 1, st) == Ok(st1) && Represents(base, r.value, st1)
      ensures r.Err? ==> Collapse(cfg, 1, st) == Err(r.error)
      ensures r.Ok? ==> r.value.ops == [] || Last(r.value.ops).LeftParen? || Last(r.value.ops).LeftSquareBracket?
    {
      var cur := s;
      st1 := st;
      while cur.ops != [] && !Last(cur.ops).LeftParen? && !Last(cur.ops).LeftSquareBracket?
        invariant Represents(base, cur, st1) && Grown()
        invariant Collapse(cfg, 1, st) == Collapse(cfg, 1, st1)
        decreases |cur.ops|
      {
        StackableBinds(Last(cur.ops));
        r, st1 := PopAndReduce(1, cur, base, st1);
        if r.Err? {
          return;
        }
        cur := r.value;
      }
      CollapseStops(cfg, st1);
      r := Ok(cur);
    }

    method HandleRightSquareBracket(s: Stacks, ghost base: seq<Tree>, ghost st: State)
        returns (r: Result<Stacks, Error>)
      requires Represents(base, s, st)
      modifies this
      ensures Valid() && Grown()
      ensures Agrees(base, r, StepRightBracket(cfg, st))
    {
      ghost var st1;
      r, st1 := UnwindToBracket(s, base, st);
      if r.Ok? {
        var operands, ops := r.value.operands, r.value.ops;
        if ops == [] || Last(ops).LeftParen? {
          r := Err(UnmatchedRightBracket);
        } else if Front(ops) == [] || !Last(Front(ops)).Subscript? {
          r := Err(BracketWithoutSubscript);
        } else {
          r := Ok(Stacks(operands, Front(ops)));
        }
      }
    }

    method HandleComma(lastIsOperator: bool, s: Stacks, ghost base: seq<Tree>, ghost prev: Option<Token<Tree>>,
                       ghost st: State) returns (r: Result<Stacks, Error>)
      requires Represents(base, s, st)
      requires lastIsOperator <==> prev.None? || !IsOperandToken(prev.value)
      modifies this
      ensures Valid() && Grown()
      ensures Agrees(base, r, StepComma(cfg, prev, st))
    {
      if lastIsOperator {
        return Err(CommaWithoutArgument);
      }
      ghost var st1;
      r, st1 := UnwindToBracket(s, base, st);
      if r.Ok? {
        var ops := r.value.ops;
        if ops == [] {
          r := Err(CommaOutsideCall);
        } else if Last(ops).LeftSquareBracket? {
          r := Err(CommaInSubscript);
        } else if |ops| < 2 || !IsFunctionLike(ops[|ops| - 2]) {
          r := Err(CommaOutsideCall);
        }
      }
    }

    method HandleRightParen(s: Stacks, ghost base: seq<Tree>, ghost prev: Option<Token<Tree>>, ghost st: State)
        returns (r: Result<Stacks, Error>)
      requires Represents(base, s, st) && prev != Some(Op(Comma))
      modifies this
      ensures Valid() && Grown()
      ensures Agrees(base, r, StepRightParen(cfg, prev, st))
    {
      ghost var st1;
      r, st1 := UnwindToBracket(s, base, st);
      if r.Ok? {
        if r.value.ops == [] || Last(r.value.ops).LeftSquareBracket? {
          r := Err(UnmatchedRightParen);
        } else {
          r := ClosePair(|r.value.ops| != |s.ops|, r.value, base, st1);
        }
      }
    }

    /** Matches the opening parenthesis on top: the redundancy rule, and the call it may end. */
    method ClosePair(foundOperator: bool, s: Stacks, ghost base: seq<Tree>, ghost st: State)
        returns (r: Result<Stacks, Error>)
      requires Represents(base, s, st) && s.ops != [] && Last(s.ops).LeftParen?
      modifies this
      ensures Valid() && Grown()
      ensures Agrees(base, r, CloseParen(cfg, foundOperator, st))
    {
      var below := Front(s.ops);
      if !foundOperator {
        var isMsgBuilder := IsBareBuilder(s.operands, st.operands);
        if !isMsgBuilder && (below == [] || (!IsFunctionLike(Last(below)) && !IsUnary(Last(below)))) {
          return Err(RedundantParens);
        }
      }
      var operands := MarkParenthesized(s.operands);
      MarkStands(pool, s.operands, st.operands);
      if below != [] && IsFunctionLike(Last(below)) {
        r := Reduce(Last(below), Stacks(operands, Front(below)), base,
            State(MarkParenthesized(st.operands), Front(below)));
      } else {
        r := Ok(Stacks(operands, below));
      }
    }

    method IsBareBuilder(operands: seq<Operand<nat>>, ghost ts: seq<Operand<Tree>>) returns (b: bool)
      requires Valid() && StandAll(pool, operands, ts)
      ensures b == BareBuilderOnTop(ts)
    {
      b := false;
      if operands != [] {
        var top := Last(operands);
        assert Stands(pool, top, Last(ts));
        ViewAt(nodes, top.value);
        b := !top.parenthesized && top.value < |nodes| && nodes[top.value].MessageBuilder?;
      }
    }

    method FinishOperators(s: Stacks, ghost base: seq<Tree>, ghost st: State) returns (r: Result<nat, Error>)
      requires Represents(base, s, st)
      modifies this
      ensures Valid() && Grown()
      ensures Yields(base, r, Finish(cfg, st))
    {
      if LeftParen in s.ops {
        return Err(UnmatchedLeftParen);
      }
      if LeftSquareBracket in s.ops {
        return Err(UnmatchedLeftBracket);
      }
      var cur;
      ghost var st1;
      cur, st1 := UnwindToBracket(s, base, st);
      if cur.Err? {
        return Err(cur.error);
      }
      if |cur.value.operands| > 1 {
        return Err(OperandsWithoutOperator);
      } else if cur.value.operands == [] {
        return Err(NoOperands);
      }
      SingleOperandLog(st1.operands);
      assert Stands(pool, cur.value.operands[0], st1.operands[0]);
      r := Ok(cur.value.operands[0].value);
    }

    /** Pushes the node of a tree that is a single node of its own. */
    method PushLeaf(n: Node, s: Stacks, ghost base: seq<Tree>, ghost st: State) returns (s1: Stacks)
      requires Represents(base, s, st) && WellFormedNode(n) && InRange(n, |nodes|)
      requires PostOrder(DecodeNode(pool, n)) == [DecodeNode(pool, n)]
      modifies this
      ensures Valid() && Grown()
      ensures Represents(base, s1, State(st.operands + [Leaf(DecodeNode(old(pool), n))], st.ops))
    {
      ghost var t := DecodeNode(pool, n);
      var operands := PushNodeToOperandStack(n, s.operands, false);
      OperandLogSnoc(st.operands, Leaf(t));
      InternAppend(base, OperandLog(st.operands), [t]);
      assert Front(st.operands + [Leaf(t)]) == st.operands;
      StandSnoc(old(pool), pool, operands, st.operands + [Leaf(t)]);
      s1 := Stacks(operands, s.ops);
    }

    /** Replaces the operand on top by a field taken from it. */
    method PushPostfix(fields: seq<string>, s: Stacks, ghost base: seq<Tree>, ghost st: State) returns (s1: Stacks)
      requires Represents(base, s, st) && s.operands != []
      modifies this
      ensures Valid() && Grown()
      ensures Represents(base, s1, State(Front(st.operands) + [Leaf(PostfixField(Last(st.operands).value, fields))],
              st.ops))
    {
      var lhs := Last(s.operands);
      assert Stands(pool, lhs, Last(st.operands));
      var n := FieldLeaf("", Some(lhs.value), fields);
      ghost var x := Leaf(PostfixField(Last(st.operands).value, fields));
      assert DecodeNode(pool, n) == x.value;
      var operands := PushNodeToOperandStack(n, Front(s.operands), false);
      UnaryLog(Front(st.operands), Last(st.operands), x);
      assert Front(st.operands) + [Last(st.operands)] == st.operands;
      InternAppend(base, OperandLog(st.operands), [x.value]);
      assert Front(Front(st.operands) + [x]) == Front(st.operands);
      StandSnoc(old(pool), pool, operands, Front(st.operands) + [x]);
      s1 := Stacks(operands, s.ops);
    }

    method HandlePath(parts: seq<string>, prev: Option<Token<Node>>, s: Stacks, ghost base: seq<Tree>,
                      ghost prevT: Option<Token<Tree>>, ghost st: State)
      returns (r: Result<Stacks, Error>)
      requires Represents(base, s, st) && PrevStands(pool, prev, prevT)
      modifies this
      ensures Valid() && Grown()
      ensures Agrees(base, r, StepPath(cfg, prevT, parts, st))
    {
      if parts == [] {
        r := Ok(s);
      } else if parts[0] != "" {
        var s1 := PushLeaf(FieldLeaf(parts[0], None, parts[1..]), s, base, st);
        r := Ok(s1);
      } else if prev.None? || !IsOperandToken(prev.value) {
        r := Err(PostfixWithoutOperand);
      } else if prev.value.Whole? && prev.value.node.MessageBuilder? {
        r := Err(FieldOnBuilder);
      } else {
        r := HandlePostfix(parts, s, base, prevT.value, st);
      }
    }

    method HandlePostfix(parts: seq<string>, s: Stacks, ghost base: seq<Tree>, ghost prev: Token<Tree>, ghost st: State)
        returns (r: Result<Stacks, Error>)
      requires Represents(base, s, st) && parts != [] && parts[0] == ""
      requires IsOperandToken(prev) && !(prev.Whole? && prev.node.Builder?)
      modifies this
      ensures Valid() && Grown()
      ensures Agrees(base, r, StepPath(cfg, Some(prev), parts, st))
    {
      ghost var st1;
      r, st1 := CollapseOperators(Precedence(Subscript), s, base, st);
      if r.Ok? {
        if r.value.operands == [] {
          r := Err(EmptyOperandStack);
        } else {
          var s1 := PushPostfix(parts[1..], r.value, base, st1);
          r := Ok(s1);
        }
      }
    }

    method HandleOperator(op: Operator, prev: Option<Token<Node>>, next: Option<Token<Node>>, s: Stacks,
                          ghost base: seq<Tree>,
                          ghost prevT: Option<Token<Tree>>, ghost nextT: Option<Token<Tree>>, ghost st: State,
                              ghost spec: Result<State, Error>)
      returns (r: Result<Stacks, Error>)
      requires Represents(base, s, st) && PrevStands(pool, prev, prevT) && PrevStands(pool, next, nextT)
      requires spec == StepOp(cfg, prevT, op, nextT, st)
      modifies this
      ensures Valid() && Grown()
      ensures Agrees(base, r, spec)
    {
      if IsFunctionLike(op) {
        r := HandleFunction(op, next, s, base, prevT, nextT, st);
      } else if IsPrefix(op) || op.LeftParen? {
        PushOps(base, s, st, [op]);
        r := Ok(s.(ops := s.ops + [op]));
      } else if op.Comma? || op.RightParen? || op.RightSquareBracket? {
        r := HandlePunctuation(op, prev, s, base, prevT, st, spec);
      } else {
        StepCollapses(cfg, prevT, op, nextT, st);
        var targetPrec := TargetPrecedence(op);
        r := CollapseAndPush(targetPrec, Pushed(op), s, base, st);
      }
    }

    method HandlePunctuation(op: Operator, prev: Option<Token<Node>>, s: Stacks, ghost base: seq<Tree>,
                             ghost prevT: Option<Token<Tree>>, ghost st: State, ghost spec: Result<State, Error>)
      returns (r: Result<Stacks, Error>)
      requires Represents(base, s, st) && PrevStands(pool, prev, prevT)
      requires op.Comma? || op.RightParen? || op.RightSquareBracket?
      requires op.Comma? ==> spec == StepComma(cfg, prevT, st)
      requires op.RightSquareBracket? ==> spec == StepRightBracket(cfg, st)
      requires op.RightParen? ==> spec == StepRightParen(cfg, prevT, st)
      modifies this
      ensures Valid() && Grown()
      ensures Agrees(base, r, spec)
    {
      if op.Comma? {
        r := HandleComma(prev.None? || !IsOperandToken(prev.value), s, base, prevT, st);
      } else if op.RightSquareBracket? {
        r := HandleRightSquareBracket(s, base, st);
      } else if prev == Some(Op(Comma)) {
        r := Err(TrailingComma);
      } else {
        r := HandleRightParen(s, base, prevT, st);
      }
    }

    method HandleFunction(op: Operator, next: Option<Token<Node>>, s: Stacks, ghost base: seq<Tree>,
                          ghost prevT: Option<Token<Tree>>, ghost nextT: Option<Token<Tree>>, ghost st: State)
      returns (r: Result<Stacks, Error>)
      requires Represents(base, s, st) && PrevStands(pool, next, nextT) && IsFunctionLike(op)
      ensures Agrees(base, r, StepOp(cfg, prevT, op, nextT, st))
    {
      PushOps(base, s, st, [op]);
      if next.None? {
        r := Err(FunctionWithoutArgument(op));
      } else if next.value != Op(LeftParen) {
        r := Err(FunctionWithoutParens(op));
      } else {
        r := Ok(s.(ops := s.ops + [op]));
      }
    }

    lemma PushOps(base: seq<Tree>, s: Stacks, st: State, more: seq<Operator>)
      requires Represents(base, s, st) && forall i | 0 <= i < |more| :: IsStackable(more[i])
      ensures Represents(base, s.(ops := s.ops + more), st.(ops := st.ops + more))
    {
    }

    /** The level an arriving infix operator or subscript bracket reduces to. */
    method TargetPrecedence(op: Operator) returns (targetPrec: nat)
      ensures targetPrec == CollapsingTarget(cfg, op)
    {
      targetPrec := if op.LeftSquareBracket? then Precedence(Subscript) else Precedence(op);
      if cfg.rightAssociativePower && op.Power? {
        targetPrec := targetPrec + 1;
      }
    }

    method CollapseAndPush(targetPrec: nat, more: seq<Operator>, s: Stacks, ghost base: seq<Tree>, ghost st: State)
        returns (r: Result<Stacks, Error>)
      requires Represents(base, s, st) && targetPrec > 0 && forall i | 0 <= i < |more| :: IsStackable(more[i])
      modifies this
      ensures Valid() && Grown()
      ensures Agrees(base, r, CollapseThenPush(cfg, targetPrec, more, st))
    {
      ghost var st1;
      r, st1 := CollapseOperators(targetPrec, s, base, st);
      if r.Ok? {
        PushOps(base, r.value, st1, more);
        r := Ok(r.value.(ops := r.value.ops + more));
      }
    }

    /** The outcome is the root of the tree `spec`, whose nodes are all that was pushed. */
    ghost predicate Yields(base: seq<Tree>, r: Result<nat, Error>, spec: Result<Tree, Error>)
      reads this
      requires Valid()
    {
      match spec
      case Ok(t) => r.Ok? && r.value < |nodes| && pool[r.value] == t && pool == Intern(base, PostOrder(t))
      case Err(e) => r == Err(e)
    }

    method CompileTokens(tokens: seq<Token<Node>>, ghost ts: seq<Token<Tree>>) returns (r: Result<nat, Error>)
      requires Valid() && TokensStand(pool, tokens, ts)
      modifies this
      ensures Valid() && Grown()
      ensures Yields(old(pool), r, Compile(cfg, ts))
    {
      ghost var base, st := pool, EMPTY;
      var s := Stacks([], []);
      var i := 0;
      while i < |tokens|
        invariant 0 <= i <= |tokens| && Represents(base, s, st) && Grown()
        invariant TokensStand(pool, tokens, ts)
        invariant Run(cfg, None, ts, EMPTY) == Run(cfg, Before(ts, i), ts[i..], st)
      {
        RunUnfold(cfg, ts, i, st);
        ghost var v := pool;
        var r1 := HandleToken(tokens, i, s, base, ts, st);
        if r1.Err? {
          return Err(r1.error);
        }
        TokensStandExtend(v, pool, tokens, ts);
        s, st, i := r1.value, Step(cfg, Before(ts, i), ts[i], First(ts[i + 1..]), st).value, i + 1;
      }
      r := FinishOperators(s, base, st);
    }

    method HandleToken(tokens: seq<Token<Node>>, i: nat, s: Stacks, ghost base: seq<Tree>, ghost ts: seq<Token<Tree>>,
                       ghost st: State)
      returns (r: Result<Stacks, Error>)
      requires Represents(base, s, st) && TokensStand(pool, tokens, ts) && i < |tokens|
      modifies this
      ensures Valid() && Grown()
      ensures Agrees(base, r, Step(cfg, Before(ts, i), ts[i], First(ts[i + 1..]), st))
    {
      var prev, next := Before(tokens, i), First(tokens[i + 1..]);
      assert TokenStands(pool, tokens[i], ts[i]);
      match tokens[i]
      case Path(parts) => r := HandlePath(parts, prev, s, base, Before(ts, i), st);
      case Literal(c) =>
        var s1 := PushLeaf(ConstantLeaf(c), s, base, st);
        r := Ok(s1);
      case Whole(n) =>
        var s1 := PushLeaf(n, s, base, st);
        r := Ok(s1);
      case Op(op) =>
        r := HandleOperator(op, prev, next, s, base, Before(ts, i), First(ts[i + 1..]), st,
                            StepOp(cfg, Before(ts, i), op, First(ts[i + 1..]), st));
    }

    // ----------------------------------------------------------------------
    // Tokenizing

    /** A token that is neither a builder nor a timestamp. */
    method ScanSimple(stream: TokenStream, lastIsOperator: bool) returns (r: Result<Token<Node>, Error>)
      requires stream.Valid() && !stream.IsEOF()
      modifies stream
      ensures stream.Valid() && stream.tokens == old(stream.tokens)
      ensures
        var spec := SimpleToken<Node>(lastIsOperator, old(stream.Rest()));
        if spec.Err? then r == Err(spec.error)
        else r == Ok(spec.value.0) && stream.Rest() == old(stream.Rest())[spec.value.1..]
    {
      var tok := stream.Next();
      if tok.Truth? {
        r := Ok(Literal(BoolConst(tok.b)));
      } else if tok.Number? {
        r := if tok.plain.None? then Err(NumberTooLarge) else Ok(Literal(tok.plain.value));
      } else if tok.RCurly? {
        r := Err(UnmatchedRightCurly);
      } else if tok.Colon? {
        r := Err(UnexpectedColon);
      } else if tok.Identifier? {
        r := ParseValue(tok.name);
      } else if tok.MinusSign? {
        if !lastIsOperator {
          r := Ok(Op(Subtract));
        } else if stream.Peek().Number? {
          var num := stream.Next();
          r := if num.negated.None? then Err(NumberTooLarge) else Ok(Literal(num.negated.value));
        } else {
          r := Ok(Op(UnaryMinus));
        }
      } else {
        r := if OperatorOf(tok).None? then Err(UnknownOperator) else Ok(Op(OperatorOf(tok).value));
      }
    }

    method ParseTimestampFunction(stream: TokenStream) returns (r: Result<Node, Error>)
      requires stream.Valid() && stream.Peek().LParen?
      modifies stream
      ensures stream.Valid() && stream.tokens == old(stream.tokens)
      ensures
        var spec := ParseTimestamp(old(stream.Rest()));
        if spec.Err? then r == Err(spec.error)
        else r == Ok(FunctionLeaf(spec.value)) && stream.Rest() == old(stream.Rest())[3..]
    {
      var _ := stream.Next();
      var param := stream.Next();
      if param.RParen? {
        return Err(TimestampWithoutParameter);
      }
      if !param.Identifier? {
        return Err(BadTimestampParameter);
      }
      var after := stream.Next();
      if after.CommaSign? {
        return Err(TimestampWithManyParameters);
      }
      if !after.RParen? {
        return Err(TimestampUnclosed);
      }
      r := if ClockNamed(param.name).None? then Err(BadTimestampParameter)
            else Ok(FunctionLeaf(ClockNamed(param.name).value));
    }

    /** Takes the lexemes of one field's expression off the stream. */
    method CollectExpr(stream: TokenStream) returns (r: Result<seq<Lexeme>, Error>)
      requires stream.Valid()
      modifies stream
      ensures stream.Valid() && stream.tokens == old(stream.tokens)
      ensures
        var spec := Collect(old(stream.Rest()), []);
        if spec.Err? then r == Err(spec.error)
        else r == Ok(old(stream.Rest())[..spec.value]) && stream.Rest() == old(stream.Rest())[spec.value..]
    {
      var expr: seq<Lexeme>, open: seq<Lexeme> := [], [];
      ghost var rest0 := stream.Rest();
      while true
        invariant stream.Valid() && stream.tokens == old(stream.tokens)
        invariant |expr| <= |rest0| && expr == rest0[..|expr|] && stream.Rest() == rest0[|expr|..]
        invariant Collect(rest0, []) == Plus(|expr|, Collect(stream.Rest(), open))
        decreases |stream.Rest()|
      {
        if stream.IsEOF() {
          return Err(if open == [] then UnmatchedLeftCurly else UnbalancedField);
        }
        var tok := stream.Peek();
        if open == [] && (tok.RCurly? || tok.CommaSign?) {
          return Ok(expr);
        }
        var open1 := OpenAfter(open, tok);
        if open1.None? {
          return Err(UnbalancedField);
        }
        ghost var rest := stream.Rest();
        CollectUnfold(rest, open, |expr|);
        assert Collect(rest0, []) == Plus(|expr| + 1, Collect(rest[1..], open1.value));
        SliceSnoc(rest0, |expr|);
        open := open1.value;
        var next := stream.Next();
        assert stream.Rest() == rest[1..];
        expr := expr + [next];
      }
    }

    /** Compiles a piece of source on its own, into the shared pool. */
    method CompileSourceText(source: seq<Lexeme>, ghost base: seq<Tree>, ghost log: seq<Tree>)
      returns (r: Result<nat, Error>, ghost t: Tree, ghost log1: seq<Tree>)
      requires Valid() && WellLexed(source) && pool == Intern(base, log)
      modifies this
      ensures Valid() && Grown()
      ensures r.Err? ==> CompileField(cfg, log, source) == Err(r.error)
      ensures r.Ok? ==> CompileField(cfg, log, source) == Ok((t, log1))
      ensures r.Ok? ==> r.value < |nodes| && pool[r.value] == t && pool == Intern(base, log1)
      decreases |source| + 1, 3
    {
      var stream := new TokenStream(source);
      assert WellLexed(stream.Rest());
      t, log1 := Timestamp(RealtimeClock), [];
      var tokens;
      ghost var out;
      tokens, out := TokenizeStream(stream, base, log);
      if tokens.Err? {
        return Err(tokens.error), t, log1;
      }
      r := CompileTokens(tokens.value, out.tokens);
      if r.Ok? {
        t := Compile(cfg, out.tokens).value;
        log1 := out.log + PostOrder(t);
        InternAppend(base, out.log, PostOrder(t));
      }
    }

    method TokenizeStream(stream: TokenStream, ghost base: seq<Tree>, ghost log: seq<Tree>)
      returns (r: Result<seq<Token<Node>>, Error>, ghost out: Tokenized)
      requires Valid() && stream.Valid() && WellLexed(stream.Rest()) && pool == Intern(base, log)
      modifies this, stream
      ensures Valid() && Grown()
      ensures r.Err? ==> Tokenize(cfg, Tokenized([], log), old(stream.Rest())) == Err(r.error)
      ensures r.Ok? ==> Tokenize(cfg, Tokenized([], log), old(stream.Rest())) == Ok(out)
      ensures r.Ok? ==> TokensStand(pool, r.value, out.tokens) && pool == Intern(base, out.log)
      decreases |stream.Rest()|, 2
    {
      var tokens: seq<Token<Node>> := [];
      out := Tokenized([], log);
      ghost var rest0 := stream.Rest();
      while !stream.IsEOF()
        invariant Valid() && Grown() && stream.Valid()
        invariant WellLexed(stream.Rest()) && |stream.Rest()| <= |rest0|
        invariant TokensStand(pool, tokens, out.tokens) && pool == Intern(base, out.log)
        invariant Tokenize(cfg, Tokenized([], log), rest0) == Tokenize(cfg, out, stream.Rest())
        decreases |stream.Rest()|
      {
        r, out := TokenizeNext(stream, tokens, base, out);
        if r.Err? {
          return;
        }
        tokens := r.value;
      }
      r := Ok(tokens);
    }

    /** One more token has been read: tokenizing goes on as before from `acc1` and `rest1`. */
    ghost predicate ReadOne(base: seq<Tree>, acc: Tokenized, rest: seq<Lexeme>, r: Result<seq<Token<Node>>, Error>,
                            acc1: Tokenized, rest1: seq<Lexeme>)
      reads this
      requires Valid()
    {
      if r.Err? then Tokenize(cfg, acc, rest) == Err(r.error)
      else
        && |rest1| < |rest| && WellLexed(rest1)
        && Tokenize(cfg, acc, rest) == Tokenize(cfg, acc1, rest1)
        && TokensStand(pool, r.value, acc1.tokens) && pool == Intern(base, acc1.log)
    }

    method TokenizeNext(stream: TokenStream, tokens: seq<Token<Node>>, ghost base: seq<Tree>, ghost acc: Tokenized)
      returns (r: Result<seq<Token<Node>>, Error>, ghost out: Tokenized)
      requires Valid() && stream.Valid() && !stream.IsEOF() && WellLexed(stream.Rest())
      requires TokensStand(pool, tokens, acc.tokens) && pool == Intern(base, acc.log)
      modifies this, stream
      ensures Valid() && Grown() && stream.Valid()
      ensures ReadOne(base, acc, old(stream.Rest()), r, out, stream.Rest())
      decreases |stream.Rest()|, 1
    {
      var tok := stream.Peek();
      if tok.LCurly? || (tok == Identifier("new") && stream.Lookahead(1).Identifier? && stream.Lookahead(2).LCurly?) {
        r, out := TokenizeBuilderToken(stream, tokens, base, acc);
      } else if tok == Identifier("timestamp") && stream.Lookahead(1).LParen? {
        r, out := TokenizeTimestamp(stream, tokens, base, acc);
      } else {
        r, out := TokenizeSimple(stream, tokens, base, acc);
      }
    }

    method TokenizeTimestamp(stream: TokenStream, tokens: seq<Token<Node>>, ghost base: seq<Tree>, ghost acc: Tokenized)
      returns (r: Result<seq<Token<Node>>, Error>, ghost out: Tokenized)
      requires Valid() && stream.Valid() && TimestampStart(stream.Rest()) && WellLexed(stream.Rest())
      requires TokensStand(pool, tokens, acc.tokens) && pool == Intern(base, acc.log)
      modifies stream
      ensures Valid() && stream.Valid()
      ensures ReadOne(base, acc, old(stream.Rest()), r, out, stream.Rest())
    {
      out := acc;
      TimestampUnfold(cfg, acc, stream.Rest());
      var _ := stream.Next();
      var n := ParseTimestampFunction(stream);
      if n.Err? {
        return Err(n.error), out;
      }
      out := Snoc(acc, Whole(Timestamp(n.value.clock)));
      TokensStandSnoc(pool, tokens, Whole(n.value), acc.tokens, Whole(Timestamp(n.value.clock)));
      r := Ok(tokens + [Whole(n.value)]);
    }

    method TokenizeSimple(stream: TokenStream, tokens: seq<Token<Node>>, ghost base: seq<Tree>, ghost acc: Tokenized)
      returns (r: Result<seq<Token<Node>>, Error>, ghost out: Tokenized)
      requires Valid() && stream.Valid() && !stream.IsEOF() && WellLexed(stream.Rest())
      requires !TimestampStart(stream.Rest()) && BuilderStart(stream.Rest()).None?
      requires TokensStand(pool, tokens, acc.tokens) && pool == Intern(base, acc.log)
      modifies stream
      ensures Valid() && stream.Valid()
      ensures ReadOne(base, acc, old(stream.Rest()), r, out, stream.Rest())
    {
      out := acc;
      ghost var rest := stream.Rest();
      SimpleUnfold(cfg, acc, rest);
      LastStands(pool, tokens, acc.tokens);
      SimpleTokenStands(pool, LastIsOperator(tokens), rest);
      var t := ScanSimple(stream, LastIsOperator(tokens));
      if t.Err? {
        return Err(t.error), out;
      }
      ghost var tt := SimpleToken<Tree>(LastIsOperator(acc.tokens), rest).value.0;
      out := Snoc(acc, tt);
      TokensStandSnoc(pool, tokens, t.value, acc.tokens, tt);
      r := Ok(tokens + [t.value]);
    }

    method TokenizeBuilderToken(stream: TokenStream, tokens: seq<Token<Node>>, ghost base: seq<Tree>,
                                ghost acc: Tokenized)
      returns (r: Result<seq<Token<Node>>, Error>, ghost out: Tokenized)
      requires Valid() && stream.Valid() && WellLexed(stream.Rest()) && BuilderStart(stream.Rest()).Some?
      requires TokensStand(pool, tokens, acc.tokens) && pool == Intern(base, acc.log)
      modifies this, stream
      ensures Valid() && Grown() && stream.Valid()
      ensures ReadOne(base, acc, old(stream.Rest()), r, out, stream.Rest())
      decreases |stream.Rest()|, 0
    {
      out := acc;
      ghost var rest := stream.Rest();
      var messageType := "";
      var first := stream.Next();
      if first.Identifier? {
        var ty := stream.Next();
        messageType := ty.name;
        var _ := stream.Next();
      }
      ghost var start := BuilderStart(rest).value;
      assert messageType == start.0 && stream.Rest() == rest[start.1..];
      BuilderUnfold(cfg, acc, rest);
      ghost var v := pool;
      var n;
      ghost var parsed;
      n, parsed := ParseMessageBuilder(stream, messageType, base, acc.log);
      if n.Err? {
        return Err(n.error), out;
      }
      if DirectFieldAccess(stream.Peek()) {
        return Err(FieldOnBuilder), out;
      }
      TokensStandExtend(v, pool, tokens, acc.tokens);
      TokensStandSnoc(pool, tokens, Whole(n.value), acc.tokens, Whole(parsed.tree));
      out := Tokenized(acc.tokens + [Whole(parsed.tree)], parsed.log);
      r := Ok(tokens + [Whole(n.value)]);
    }

    /** Compiles an inline message builder, from behind its opening brace. */
    method ParseMessageBuilder(stream: TokenStream, messageType: string, ghost base: seq<Tree>, ghost log: seq<Tree>)
      returns (r: Result<Node, Error>, ghost out: Parsed)
      requires Valid() && stream.Valid() && WellLexed(stream.Rest()) && pool == Intern(base, log)
      modifies this, stream
      ensures Valid() && Grown() && stream.Valid()
      ensures r.Err? ==> ParseBuilder(cfg, messageType, Built([], log), old(stream.Rest())) == Err(r.error)
      ensures r.Ok? ==> ParseBuilder(cfg, messageType, Built([], log), old(stream.Rest())) == Ok(out)
      ensures r.Ok? ==> stream.Rest() == out.rest && WellLexed(out.rest)
      ensures r.Ok? ==> TokenStands(pool, Whole(r.value), Whole(out.tree)) && pool == Intern(base, out.log)
      decreases |stream.Rest()|, 1
    {
      var assignments: seq<NodeAssign> := [];
      ghost var acc := Built([], log);
      ghost var rest0 := stream.Rest();
      out := Parsed(Timestamp(RealtimeClock), [], []);
      var closed := false;
      while !closed
        invariant Valid() && Grown() && stream.Valid()
        invariant WellLexed(stream.Rest()) && |stream.Rest()| <= |rest0|
        invariant AssignsStand(pool, assignments, acc.assigns) && NamesOk(assignments) && pool == Intern(base, acc.log)
        invariant ParseBuilder(cfg, messageType, Built([], log), rest0)
               == if closed then Ok(Parsed(BuilderOf(messageType, acc.assigns), acc.log, stream.Rest()))
                  else ParseBuilder(cfg, messageType, acc, stream.Rest())
        decreases !closed, |stream.Rest()|
      {
        if stream.IsEOF() {
          return Err(UnmatchedLeftCurly), out;
        }
        if stream.Peek().RCurly? {
          var _ := stream.Next();
          closed := true;
        } else {
          var field;
          field, acc := ParseField(stream, messageType, assignments, base, acc);
          if field.Err? {
            return Err(field.error), out;
          }
          assignments, closed := field.value.0, field.value.1;
        }
      }
      out := Parsed(BuilderOf(messageType, acc.assigns), acc.log, stream.Rest());
      var n := MessageBuilder(if messageType == "" then None else Some(messageType), assignments);
      BuilderStands(pool, messageType, assignments, acc.assigns);
      r := Ok(n);
    }

    /** One more field has been read, and with it perhaps the whole builder. */
    ghost predicate ReadField(base: seq<Tree>, ty: string, spec: Result<Parsed, Error>,
                              r: Result<(seq<NodeAssign>, bool), Error>, acc1: Built, rest1: seq<Lexeme>)
      reads this
      requires Valid()
    {
      if r.Err? then spec == Err(r.error)
      else
        && WellLexed(rest1)
        && AssignsStand(pool, r.value.0, acc1.assigns) && NamesOk(r.value.0) && pool == Intern(base, acc1.log)
        && spec == if r.value.1 then Ok(Parsed(BuilderOf(ty, acc1.assigns), acc1.log, rest1))
              else ParseBuilder(cfg, ty, acc1, rest1)
    }

    /** One field of a builder with the comma or brace after it; tells whether that closed the builder. */
    method ParseField(stream: TokenStream, messageType: string, assignments: seq<NodeAssign>, ghost base: seq<Tree>,
                      ghost acc: Built)
      returns (r: Result<(seq<NodeAssign>, bool), Error>, ghost acc1: Built)
      requires Valid() && stream.Valid() && WellLexed(stream.Rest()) && !stream.Peek().Eof? && !stream.Peek().RCurly?
      requires AssignsStand(pool, assignments, acc.assigns) && NamesOk(assignments) && pool == Intern(base, acc.log)
      modifies this, stream
      ensures Valid() && Grown() && stream.Valid()
      ensures ReadField(base, messageType, ParseBuilder(cfg, messageType, acc, old(stream.Rest())), r, acc1,
              stream.Rest())
      ensures r.Ok? ==> |stream.Rest()| < |old(stream.Rest())|
      decreases |stream.Rest()|, 0
    {
      acc1 := acc;
      var name := ParseFieldName(stream, assignments, pool, acc.assigns);
      if name.Err? {
        return Err(name.error), acc1;
      }
      r, acc1 := ParseFieldValue(stream, messageType, assignments, name.value, base, acc);
    }

    method ParseFieldValue(stream: TokenStream, messageType: string, assignments: seq<NodeAssign>, name: string,
                           ghost base: seq<Tree>, ghost acc: Built)
      returns (r: Result<(seq<NodeAssign>, bool), Error>, ghost acc1: Built)
      requires Valid() && stream.Valid() && WellLexed(stream.Rest())
      requires AssignsStand(pool, assignments, acc.assigns) && NamesOk(assignments) && pool == Intern(base, acc.log)
      requires name != "" && forall i | 0 <= i < |assignments| :: assignments[i].name != name
      modifies this, stream
      ensures Valid() && Grown() && stream.Valid()
      ensures ReadField(base, messageType, ParseFieldBody(cfg, messageType, acc, name, old(stream.Rest())), r, acc1,
              stream.Rest())
      ensures r.Ok? ==> |stream.Rest()| < |old(stream.Rest())|
      decreases |stream.Rest()|, 6
    {
      acc1 := acc;
      ghost var rest := stream.Rest();
      var expr := CollectExpr(stream);
      if expr.Err? {
        return Err(expr.error), acc1;
      }
      if expr.value == [] {
        return Err(MissingFieldExpression), acc1;
      }
      BodyUnfold(cfg, messageType, acc, name, rest);
      r, acc1 := FinishField(stream, expr.value, messageType, assignments, name, base, acc);
    }

    /** Compiles the collected expression of a field, and reads the separator after it. */
    method FinishField(stream: TokenStream, source: seq<Lexeme>, messageType: string, assignments: seq<NodeAssign>,
                       name: string,
                       ghost base: seq<Tree>, ghost acc: Built)
      returns (r: Result<(seq<NodeAssign>, bool), Error>, ghost acc1: Built)
      requires Valid() && stream.Valid() && WellLexed(source) && WellLexed(stream.Rest())
      requires stream.Rest() != [] && (stream.Peek().CommaSign? || stream.Peek().RCurly?)
      requires AssignsStand(pool, assignments, acc.assigns) && NamesOk(assignments) && pool == Intern(base, acc.log)
      requires name != "" && forall i | 0 <= i < |assignments| :: assignments[i].name != name
      modifies this, stream
      ensures Valid() && Grown() && stream.Valid()
      ensures
        var field := CompileField(cfg, acc.log, source);
        var spec := if field.Err? then Err(field.error)
                    else NextField(cfg, messageType, Built(acc.assigns + [Assign(name, field.value.0)], field.value.1),
                        old(stream.Rest()));
        ReadField(base, messageType, spec, r, acc1, stream.Rest())
      ensures r.Ok? ==> |stream.Rest()| < |old(stream.Rest())|
      decreases |source| + 1, 5
    {
      var added;
      added, acc1 := CompileAssignment(source, assignments, name, base, acc);
      if added.Err? {
        return Err(added.error), acc1;
      }
      var closed := ReadSeparator(stream);
      r := Ok((added.value, closed));
    }

    /** Compiles the expression of a field and records the assignment. */
    method CompileAssignment(source: seq<Lexeme>, assignments: seq<NodeAssign>, name: string, ghost base: seq<Tree>,
                             ghost acc: Built)
      returns (r: Result<seq<NodeAssign>, Error>, ghost acc1: Built)
      requires Valid() && WellLexed(source)
      requires AssignsStand(pool, assignments, acc.assigns) && NamesOk(assignments) && pool == Intern(base, acc.log)
      requires name != "" && forall i | 0 <= i < |assignments| :: assignments[i].name != name
      modifies this
      ensures Valid() && Grown()
      ensures r.Err? ==> CompileField(cfg, acc.log, source) == Err(r.error)
      ensures r.Ok? ==>
        var field := CompileField(cfg, acc.log, source);
        field.Ok? && acc1 == Built(acc.assigns + [Assign(name, field.value.0)], field.value.1)
      ensures r.Ok? ==> AssignsStand(pool, r.value, acc1.assigns) && NamesOk(r.value) && pool == Intern(base, acc1.log)
      decreases |source| + 1, 4
    {
      acc1 := acc;
      ghost var v := pool;
      var index;
      ghost var t, log1;
      index, t, log1 := CompileSourceText(source, base, acc.log);
      if index.Err? {
        return Err(index.error), acc1;
      }
      acc1 := Built(acc.assigns + [Assign(name, t)], log1);
      AssignsSnoc(v, pool, assignments, acc.assigns, NodeAssign(name, index.value), Assign(name, t));
      r := Ok(assignments + [NodeAssign(name, index.value)]);
    }

    /** The comma or brace that ends a field: collection stops at nothing else. */
    method ReadSeparator(stream: TokenStream) returns (closed: bool)
      requires stream.Valid() && (stream.Peek().CommaSign? || stream.Peek().RCurly?)
      modifies stream
      ensures stream.Valid() && closed == Closes(old(stream.Rest()))
              && stream.Rest() == AfterSeparator(old(stream.Rest()))
    {
      var sep := stream.Next();
      closed := sep.RCurly?;
      if sep.CommaSign? && stream.Peek().RCurly? {
        var _ := stream.Next();
        closed := true;
      }
    }

    method ParseFieldName(stream: TokenStream, assignments: seq<NodeAssign>, ghost v: seq<Tree>,
                          ghost assigns: seq<Assign>) returns (r: Result<string, Error>)
      requires stream.Valid() && WellLexed(stream.Rest()) && AssignsStand(v, assignments, assigns)
      modifies stream
      ensures stream.Valid() && r == FieldName(assigns, old(stream.Rest()))
      ensures r.Ok? ==> stream.Rest() == old(stream.Rest())[2..]
      ensures r.Ok? ==> r.value != "" && forall i | 0 <= i < |assignments| :: assignments[i].name != r.value
    {
      var fieldTok := stream.Next();
      if !fieldTok.Identifier? {
        return Err(ExpectedFieldName);
      }
      var fieldName := fieldTok.name;
      if '.' in fieldName {
        return Err(DottedFieldName);
      }
      if exists i | 0 <= i < |assignments| :: assignments[i].name == fieldName {
        return Err(DuplicateField(fieldName));
      }
      var colonTok := stream.Next();
      if !colonTok.Colon? {
        return Err(MissingColon);
      }
      r := Ok(fieldName);
    }

    // ----------------------------------------------------------------------
    // Whole expressions

    /** Compiles one expression. Its outcome, its tree and what it pushes depend on its text alone. */
    method CompileOne(source: seq<Lexeme>) returns (r: Result<nat, Error>)
      requires Valid() && WellLexed(source)
      modifies this
      ensures Valid() && Grown()
      ensures CompileSource(cfg, source).Err? ==> r == Err(CompileSource(cfg, source).error)
      ensures CompileSource(cfg, source).Ok? ==>
        && r.Ok? && r.value < |nodes|
        && pool[r.value] == CompileSource(cfg, source).value.tree
        && pool == Intern(old(pool), CompileSource(cfg, source).value.log)
    {
      ghost var t, log;
      r, t, log := CompileSourceText(source, pool, []);
    }

    /** Compiles every expression of a session, in the order of their keys. `outcomes` is what
        each expression means by itself: compilation succeeds just when all of them do, each
        key is then mapped to the root of its own tree, and the pool is the expressions' trees
        interned in key order. */
    method CompileAll(uncompiled: map<nat, seq<Lexeme>>)
        returns (r: Result<map<nat, nat>, Error>, ghost outcomes: map<nat, Result<Compiled, Error>>)
      requires Valid() && forall k | k in uncompiled :: WellLexed(uncompiled[k])
      modifies this
      ensures Valid() && Grown()
      ensures OutcomesOf(cfg, uncompiled, outcomes)
      ensures r.Err? ==> exists k :: FirstFailure(outcomes, k, r.error)
      ensures r.Ok? ==>
              r.value.Keys == uncompiled.Keys && forall k | k in uncompiled :: MapsKey(pool, outcomes, r.value, k)
      ensures r.Ok? ==> pool == Intern(old(pool), SessionLog(outcomes, SortedKeys(uncompiled.Keys)))
    {
      outcomes := Outcomes(cfg, uncompiled);
      OutcomesAreOutcomes(cfg, uncompiled, outcomes);
      var sessionIdxs := SortedKeys(uncompiled.Keys);
      r := CompileKeys(uncompiled, sessionIdxs, outcomes);
    }

    method CompileKeys(uncompiled: map<nat, seq<Lexeme>>, sessionIdxs: seq<nat>,
                       ghost outcomes: map<nat, Result<Compiled, Error>>)
      returns (r: Result<map<nat, nat>, Error>)
      requires Valid() && (forall k | k in uncompiled :: WellLexed(uncompiled[k]))
               && OutcomesOf(cfg, uncompiled, outcomes)
      requires sessionIdxs == SortedKeys(uncompiled.Keys)
      modifies this
      ensures Valid() && Grown()
      ensures r.Err? ==> exists k :: FirstFailure(outcomes, k, r.error)
      ensures r.Ok? ==>
              r.value.Keys == uncompiled.Keys && forall k | k in uncompiled :: MapsKey(pool, outcomes, r.value, k)
      ensures r.Ok? ==> pool == Intern(old(pool), SessionLog(outcomes, sessionIdxs))
    {
      var idxMap: map<nat, nat> := map[];
      var i := 0;
      CompiledNothing(pool, outcomes, sessionIdxs);
      while i < |sessionIdxs|
        invariant 0 <= i <= |sessionIdxs| && Valid() && Grown()
        invariant CompiledSoFar(old(pool), pool, outcomes, sessionIdxs[..i], idxMap)
      {
        r := CompileKey(uncompiled, sessionIdxs, i, idxMap, old(pool), outcomes);
        if r.Err? {
          assert FirstFailure(outcomes, sessionIdxs[i], r.error);
          return;
        }
        idxMap, i := r.value, i + 1;
      }
      CompiledEverything(old(pool), pool, outcomes, sessionIdxs, idxMap);
      r := Ok(idxMap);
    }

    /** Compiles the expression of the next key. */
    method CompileKey(uncompiled: map<nat, seq<Lexeme>>, keys: seq<nat>, i: nat, idxMap: map<nat, nat>,
                      ghost base: seq<Tree>, ghost outcomes: map<nat, Result<Compiled, Error>>)
      returns (r: Result<map<nat, nat>, Error>)
      requires Valid() && (forall k | k in uncompiled :: WellLexed(uncompiled[k]))
               && OutcomesOf(cfg, uncompiled, outcomes)
      requires keys == SortedKeys(uncompiled.Keys) && i < |keys|
               && CompiledSoFar(base, pool, outcomes, keys[..i], idxMap)
      modifies this
      ensures Valid() && Grown()
      ensures r.Err? ==> FirstFailure(outcomes, keys[i], r.error)
      ensures r.Ok? ==> CompiledSoFar(base, pool, outcomes, keys[..i + 1], r.value)
    {
      var k := keys[i];
      assert k in keys;
      ghost var v := pool;
      var n := CompileKnown(uncompiled, k, outcomes);
      if n.Err? {
        FailsFirst(v, outcomes, idxMap, keys, i, n.error);
        return Err(n.error);
      }
      SliceSnoc(keys, i);
      SessionSnoc(base, outcomes, keys[..i], k);
      assert outcomes[k].Ok? && pool[n.value] == outcomes[k].value.tree;
      MapsToSnoc(v, pool, outcomes, idxMap, keys[..i], k, n.value);
      r := Ok(idxMap[k := n.value]);
    }

    method CompileKnown(uncompiled: map<nat, seq<Lexeme>>, k: nat, ghost outcomes: map<nat, Result<Compiled, Error>>)
        returns (r: Result<nat, Error>)
      requires Valid() && k in uncompiled && WellLexed(uncompiled[k]) && OutcomesOf(cfg, uncompiled, outcomes)
      modifies this
      ensures Valid() && Grown()
      ensures r.Err? <==> outcomes[k].Err?
      ensures r.Err? ==> r.error == outcomes[k].error
      ensures r.Ok? ==>
              r.value < |pool| && pool[r.value] == outcomes[k].value.tree
              && pool == Intern(old(pool), outcomes[k].value.log)
    {
      r := CompileOne(uncompiled[k]);
    }
  }

  /** The expressions of `keys` have been compiled, from the pool `base` on. */
  ghost predicate CompiledSoFar(base: seq<Tree>, v: seq<Tree>, outcomes: map<nat, Result<Compiled, Error>>,
                                keys: seq<nat>, idxMap: map<nat, nat>) {
    && idxMap.Keys <= outcomes.Keys
    && MapsTo(v, outcomes, idxMap, keys)
    && v == Intern(base, SessionLog(outcomes, keys))
  }

  lemma CompiledNothing(v: seq<Tree>, outcomes: map<nat, Result<Compiled, Error>>, keys: seq<nat>)
    ensures CompiledSoFar(v, v, outcomes, keys[..0], map[])
  {
  }

  lemma CompiledEverything(base: seq<Tree>, v: seq<Tree>, outcomes: map<nat, Result<Compiled, Error>>, keys: seq<nat>,
                           idxMap: map<nat, nat>)
    requires keys == SortedKeys(outcomes.Keys) && CompiledSoFar(base, v, outcomes, keys[..|keys|], idxMap)
    ensures idxMap.Keys == outcomes.Keys && forall k | k in outcomes :: MapsKey(v, outcomes, idxMap, k)
    ensures v == Intern(base, SessionLog(outcomes, keys))
  {
    assert keys[..|keys|] == keys;
    AllMapped(v, outcomes, idxMap);
  }

  /** What each expression means by itself. */
  ghost function Outcomes(cfg: Config, uncompiled: map<nat, seq<Lexeme>>): map<nat, Result<Compiled, Error>> {
    map k | k in uncompiled :: CompileSource(cfg, uncompiled[k])
  }

  ghost predicate OutcomesOf(cfg: Config, uncompiled: map<nat, seq<Lexeme>>,
                             outcomes: map<nat, Result<Compiled, Error>>) {
    && outcomes.Keys == uncompiled.Keys
    && forall k {:trigger CompileSource(cfg, uncompiled[k])} | k in uncompiled ::
          outcomes[k] == CompileSource(cfg, uncompiled[k])
  }

  lemma OutcomesAreOutcomes(cfg: Config, uncompiled: map<nat, seq<Lexeme>>, outcomes: map<nat, Result<Compiled, Error>>)
    requires outcomes == Outcomes(cfg, uncompiled)
    ensures OutcomesOf(cfg, uncompiled, outcomes)
  {
  }

  predicate AtMost(a: nat, b: nat) { a <= b }

  function SortedKeys(s: set<nat>): (keys: seq<nat>)
    ensures forall k :: k in keys <==> k in s
  {
    Sorted(AtMost, s)
  }

  /** `k` is the smallest key whose expression does not compile by itself, for the reason `e`. */
  ghost predicate FirstFailure(outcomes: map<nat, Result<Compiled, Error>>, k: nat, e: Error) {
    && k in outcomes && outcomes[k] == Err(e)
    && forall j | j in outcomes && j < k :: outcomes[j].Ok?
  }

  /** Each of `keys` is mapped to the root of the tree its own expression means. */
  ghost predicate MapsTo(v: seq<Tree>, outcomes: map<nat, Result<Compiled, Error>>, idxMap: map<nat, nat>,
                         keys: seq<nat>) {
    forall j | 0 <= j < |keys| :: MapsKey(v, outcomes, idxMap, keys[j])
  }

  ghost predicate MapsKey(v: seq<Tree>, outcomes: map<nat, Result<Compiled, Error>>, idxMap: map<nat, nat>, k: nat) {
    && k in outcomes && k in idxMap && idxMap[k] < |v|
    && outcomes[k].Ok? && v[idxMap[k]] == outcomes[k].value.tree
  }

  /** What the expressions of `keys` push into the pool, one after the other. */
  ghost function SessionLog(outcomes: map<nat, Result<Compiled, Error>>, keys: seq<nat>): seq<Tree> {
    if keys == [] then []
    else
      var k := Last(keys);
      SessionLog(outcomes, Front(keys)) + if k in outcomes && outcomes[k].Ok? then outcomes[k].value.log else []
  }

  lemma FailsFirst(v: seq<Tree>, outcomes: map<nat, Result<Compiled, Error>>, idxMap: map<nat, nat>, keys: seq<nat>,
                   i: nat, e: Error)
    requires keys == SortedKeys(outcomes.Keys) && i < |keys|
    requires MapsTo(v, outcomes, idxMap, keys[..i]) && keys[i] in outcomes && outcomes[keys[i]] == Err(e)
    ensures FirstFailure(outcomes, keys[i], e)
  {
    SortedAscends(AtMost, outcomes.Keys);
    forall j | j in outcomes && j < keys[i] ensures outcomes[j].Ok? {
      assert j in keys;
      var x :| 0 <= x < |keys| && keys[x] == j;
      assert x < i;
      assert MapsKey(v, outcomes, idxMap, keys[..i][x]);
    }
  }

  lemma MapsToSnoc(v: seq<Tree>, w: seq<Tree>, outcomes: map<nat, Result<Compiled, Error>>, idxMap: map<nat, nat>,
                   keys: seq<nat>, k: nat, n: nat)
    requires MapsTo(v, outcomes, idxMap, keys) && v <= w
    requires k in outcomes && outcomes[k].Ok? && n < |w| && w[n] == outcomes[k].value.tree
    ensures MapsTo(w, outcomes, idxMap[k := n], keys + [k])
  {
    forall j | 0 <= j < |keys| ensures MapsKey(w, outcomes, idxMap[k := n], keys[j]) {
      assert MapsKey(v, outcomes, idxMap, keys[j]);
    }
  }

  lemma AllMapped(v: seq<Tree>, outcomes: map<nat, Result<Compiled, Error>>, idxMap: map<nat, nat>)
    requires idxMap.Keys <= outcomes.Keys && MapsTo(v, outcomes, idxMap, SortedKeys(outcomes.Keys))
    ensures idxMap.Keys == outcomes.Keys && forall k | k in outcomes :: MapsKey(v, outcomes, idxMap, k)
  {
    var keys := SortedKeys(outcomes.Keys);
    forall k | k in outcomes ensures MapsKey(v, outcomes, idxMap, k) {
      assert k in keys;
    }
  }

  lemma SessionSnoc(base: seq<Tree>, outcomes: map<nat, Result<Compiled, Error>>, keys: seq<nat>, k: nat)
    requires k in outcomes && outcomes[k].Ok?
    ensures Intern(base, SessionLog(outcomes, keys + [k]))
            == Intern(Intern(base, SessionLog(outcomes, keys)), outcomes[k].value.log)
  {
    assert Front(keys + [k]) == keys;
    InternAppend(base, SessionLog(outcomes, keys), outcomes[k].value.log);
  }
}
