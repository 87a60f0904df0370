/** The two-stack shunting-yard machine, stated on trees.

    The parser keeps pool indices on its operand stack; here every operand is the
    tree its index stands for. The machine therefore never mentions the pool, and
    what it computes is a function of the tokens alone. */
module Shunting {
  import opened Wrappers
  import opened Operators
  import opened Trees

  datatype Config = Config(disallowChaining: bool, rightAssociativePower: bool)

  datatype Error =
    | MissingOperand(op: Operator)
    | ComparisonChaining
    | PostfixWithoutOperand | FieldOnBuilder | EmptyOperandStack
    | FunctionWithoutArgument(op: Operator) | FunctionWithoutParens(op: Operator)
    | CommaWithoutArgument | CommaInSubscript | CommaOutsideCall | TrailingComma
    | UnmatchedRightParen | RedundantParens
    | UnmatchedRightBracket | BracketWithoutSubscript
    | UnmatchedLeftParen | UnmatchedLeftBracket
    | OperandsWithoutOperator | NoOperands
    | NumberTooLarge | UnmatchedRightCurly | UnexpectedColon | EmptyFieldPart | UnknownOperator
    | TimestampWithoutParameter | BadTimestampParameter | TimestampWithManyParameters | TimestampUnclosed
    | UnmatchedLeftCurly | ExpectedFieldName | DottedFieldName | DuplicateField(name: string)
    | MissingColon | UnbalancedField | MissingFieldExpression

  /** A token of the compiler; `N` is how it stands for a node built while tokenizing. */
  datatype Token<+N> = Path(parts: seq<string>) | Literal(c: Const) | Whole(node: N) | Op(op: Operator)

  datatype Operand<+V> = Operand(value: V, isComparison: bool, parenthesized: bool)

  datatype State = State(operands: seq<Operand<Tree>>, ops: seq<Operator>)

  predicate IsOperandToken<N>(tok: Token<N>) {
    tok.Op? ==> tok.op.RightParen? || tok.op.RightSquareBracket?
  }

  /** The precedence down to which an arriving infix operator reduces the stack. */
  function Target(cfg: Config, op: Operator): nat {
    Precedence(op) + if cfg.rightAssociativePower && op.Power? then 1 else 0
  }

  predicate Unguarded<V>(x: Operand<V>) {
    x.isComparison && !x.parenthesized
  }

  function Leaf(t: Tree): Operand<Tree> {
    Operand(t, false, false)
  }

  /** Replaces the operands of `op` on top of the stack by the tree that combines them. */
  function Combine(cfg: Config, op: Operator, operands: seq<Operand<Tree>>): Result<seq<Operand<Tree>>, Error>
    requires !IsPunctuation(op)
  {
    if IsUnary(op) then
      if operands == [] then Err(MissingOperand(op))
      else Ok(Front(operands) + [Operand(Unary(ToNodeOperator(op), Last(operands).value), IsComparison(op), false)])
    else if |operands| < 2 then Err(MissingOperand(op))
    else
      var right, left := operands[|operands| - 1], operands[|operands| - 2];
      if cfg.disallowChaining && IsComparison(op) && (Unguarded(left) || Unguarded(right)) then Err(ComparisonChaining)
      else Ok(operands[..|operands| - 2] + [Operand(Binary(ToNodeOperator(op), left.value, right.value),
          IsComparison(op), false)])
  }

  /** Reduces while the operator on top binds at least as tightly as `target`. */
  function Collapse(cfg: Config, target: nat, st: State): Result<State, Error>
    requires target > 0
    decreases |st.ops|
  {
    if st.ops == [] || Precedence(Last(st.ops)) < target then Ok(st)
    else
      var operands :- Combine(cfg, Last(st.ops), st.operands);
      Collapse(cfg, target, State(operands, Front(st.ops)))
  }

  predicate BareBuilderOnTop(operands: seq<Operand<Tree>>) {
    operands != [] && !Last(operands).parenthesized && Last(operands).value.Builder?
  }

  function MarkParenthesized<V>(operands: seq<Operand<V>>): seq<Operand<V>> {
    if operands == [] then [] else Front(operands) + [Last(operands).(parenthesized := true)]
  }

  function StepPath(cfg: Config, prev: Option<Token<Tree>>, parts: seq<string>, st: State): Result<State, Error> {
    if parts == [] then Ok(st)
    else if parts[0] != "" then Ok(st.(operands := st.operands + [Leaf(SourceField(parts[0], parts[1..]))]))
    else if prev.None? || !IsOperandToken(prev.value) then Err(PostfixWithoutOperand)
    else if prev.value.Whole? && prev.value.node.Builder? then Err(FieldOnBuilder)
    else
      var st1 :- Collapse(cfg, Precedence(Subscript), st);
      if st1.operands == [] then Err(EmptyOperandStack)
      else Ok(st1.(operands := Front(st1.operands) + [Leaf(PostfixField(Last(st1.operands).value, parts[1..]))]))
  }

  /** A comma, once the operators of its argument are reduced. */
  function AfterComma(st: State): Result<State, Error> {
    if st.ops != [] && Last(st.ops).LeftSquareBracket? then Err(CommaInSubscript)
    else if |st.ops| < 2 || !Last(st.ops).LeftParen? || !IsFunctionLike(Last(Front(st.ops))) then Err(CommaOutsideCall)
    else Ok(st)
  }

  function StepComma(cfg: Config, prev: Option<Token<Tree>>, st: State): Result<State, Error> {
    if prev.None? || !IsOperandToken(prev.value) then Err(CommaWithoutArgument)
    else
      var st1 :- Collapse(cfg, 1, st);
      AfterComma(st1)
  }

  /** A closing parenthesis, once the operators inside it are reduced; parentheses around
      nothing but an operand are redundant unless they hold a bare builder, an argument or
      the operand of a prefix operator. */
  function CloseParen(cfg: Config, foundOperator: bool, st: State): Result<State, Error> {
    if st.ops == [] || !Last(st.ops).LeftParen? then Err(UnmatchedRightParen)
    else
      var below := Front(st.ops);
      if && !foundOperator
         && !BareBuilderOnTop(st.operands)
         && (below == [] || (!IsFunctionLike(Last(below)) && !IsUnary(Last(below))))
      then Err(RedundantParens)
      else
        var operands := MarkParenthesized(st.operands);
        if below != [] && IsFunctionLike(Last(below)) then
          var operands1 :- Combine(cfg, Last(below), operands);
          Ok(State(operands1, Front(below)))
        else Ok(State(operands, below))
  }

  function StepRightParen(cfg: Config, prev: Option<Token<Tree>>, st: State): Result<State, Error> {
    if prev == Some(Op(Comma)) then Err(TrailingComma)
    else
      var st1 :- Collapse(cfg, 1, st);
      CloseParen(cfg, |st1.ops| != |st.ops|, st1)
  }

  /** A closing bracket, once the operators inside it are reduced. */
  function CloseBracket(st: State): Result<State, Error> {
    if st.ops == [] || !Last(st.ops).LeftSquareBracket? then Err(UnmatchedRightBracket)
    else
      var below := Front(st.ops);
      if below == [] || !Last(below).Subscript? then Err(BracketWithoutSubscript)
      else Ok(st.(ops := below))
  }

  function StepRightBracket(cfg: Config, st: State): Result<State, Error> {
    var st1 :- Collapse(cfg, 1, st);
    CloseBracket(st1)
  }

  function StepOp(cfg: Config, prev: Option<Token<Tree>>, op: Operator, next: Option<Token<Tree>>,
                  st: State): Result<State, Error> {
    if IsFunctionLike(op) then
      if next.None? then Err(FunctionWithoutArgument(op))
      else if next != Some(Op(LeftParen)) then Err(FunctionWithoutParens(op))
      else Ok(st.(ops := st.ops + [op]))
    else if op.Comma? then StepComma(cfg, prev, st)
    else if IsPrefix(op) || op.LeftParen? then Ok(st.(ops := st.ops + [op]))
    else if op.RightParen? then StepRightParen(cfg, prev, st)
    else if op.LeftSquareBracket? then
      var st1 :- Collapse(cfg, Precedence(Subscript), st);
      Ok(st1.(ops := st1.ops + [Subscript, LeftSquareBracket]))
    else if op.RightSquareBracket? then StepRightBracket(cfg, st)
    else
      var st1 :- Collapse(cfg, Target(cfg, op), st);
      Ok(st1.(ops := st1.ops + [op]))
  }

  function Step(cfg: Config, prev: Option<Token<Tree>>, tok: Token<Tree>, next: Option<Token<Tree>>,
                st: State): Result<State, Error> {
    match tok
    case Path(parts) => StepPath(cfg, prev, parts, st)
    case Literal(c) => Ok(st.(operands := st.operands + [Leaf(Constant(c))]))
    case Whole(t) => Ok(st.(operands := st.operands + [Leaf(t)]))
    case Op(op) => StepOp(cfg, prev, op, next, st)
  }

  function First<T>(s: seq<T>): Option<T> {
    if s == [] then None else Some(s[0])
  }

  /** Feeds `rest` to the machine, one token at a time. */
  function Run(cfg: Config, prev: Option<Token<Tree>>, rest: seq<Token<Tree>>, st: State): Result<State, Error>
    decreases |rest|
  {
    if rest == [] then Ok(st)
    else
      var st1 :- Step(cfg, prev, rest[0], First(rest[1..]), st);
      Run(cfg, Some(rest[0]), rest[1..], st1)
  }

  function Finish(cfg: Config, st: State): Result<Tree, Error> {
    if LeftParen in st.ops then Err(UnmatchedLeftParen)
    else if LeftSquareBracket in st.ops then Err(UnmatchedLeftBracket)
    else
      var st1 :- Collapse(cfg, 1, st);
      if |st1.operands| > 1 then Err(OperandsWithoutOperator)
      else if st1.operands == [] then Err(NoOperands)
      else Ok(st1.operands[0].value)
  }

  const EMPTY := State([], [])

  /** The tree a token list compiles to. */
  function Compile(cfg: Config, tokens: seq<Token<Tree>>): Result<Tree, Error> {
    var st :- Run(cfg, None, tokens, EMPTY);
    Finish(cfg, st)
  }

  // ------------------------------------------------------------------------
  // Disallowing comparison chains only ever turns a result into that one error.

  function Loose(cfg: Config): Config {
    cfg.(disallowChaining := false)
  }

  /** `a` is `b`, or the rejection of a comparison chain. */
  ghost predicate Restricts<T(!new)>(a: Result<T, Error>, b: Result<T, Error>) {
    a == b || a == Err(ComparisonChaining)
  }

  lemma {:induction false} CollapseRestricts(cfg: Config, target: nat, st: State)
    requires target > 0
    ensures Restricts(Collapse(cfg, target, st), Collapse(Loose(cfg), target, st))
    decreases |st.ops|
  {
    if st.ops != [] && Precedence(Last(st.ops)) >= target {
      var operands := Combine(cfg, Last(st.ops), st.operands);
      if operands.Ok? {
        CollapseRestricts(cfg, target, State(operands.value, Front(st.ops)));
      }
    }
  }

  lemma RightParenRestricts(cfg: Config, prev: Option<Token<Tree>>, st: State)
    ensures Restricts(StepRightParen(cfg, prev, st), StepRightParen(Loose(cfg), prev, st))
  {
    CollapseRestricts(cfg, 1, st);
  }

  lemma StepRestricts(cfg: Config, prev: Option<Token<Tree>>, tok: Token<Tree>, next: Option<Token<Tree>>, st: State)
    ensures Restricts(Step(cfg, prev, tok, next, st), Step(Loose(cfg), prev, tok, next, st))
  {
    match tok
    case Path(_) => CollapseRestricts(cfg, Precedence(Subscript), st);
    case Op(op) =>
      if IsFunctionLike(op) || IsPrefix(op) || op.LeftParen? {
      } else if op.Comma? || op.RightSquareBracket? {
        CollapseRestricts(cfg, 1, st);
      } else if op.RightParen? {
        RightParenRestricts(cfg, prev, st);
      } else if op.LeftSquareBracket? {
        CollapseRestricts(cfg, Precedence(Subscript), st);
      } else {
        CollapseRestricts(cfg, Target(cfg, op), st);
      }
    case _ =>
  }

  lemma {:induction false} RunRestricts(cfg: Config, prev: Option<Token<Tree>>, rest: seq<Token<Tree>>, st: State)
    ensures Restricts(Run(cfg, prev, rest, st), Run(Loose(cfg), prev, rest, st))
    decreases |rest|
  {
    if rest != [] {
      StepRestricts(cfg, prev, rest[0], First(rest[1..]), st);
      var st1 := Step(cfg, prev, rest[0], First(rest[1..]), st);
      if st1.Ok? {
        RunRestricts(cfg, Some(rest[0]), rest[1..], st1.value);
      }
    }
  }

  /** For every token list, well formed or not: the strict mode either gives what the
      permissive mode gives, or rejects a chain. */
  lemma CompileRestricts(cfg: Config, tokens: seq<Token<Tree>>)
    ensures Restricts(Compile(cfg, tokens), Compile(Loose(cfg), tokens))
  {
    RunRestricts(cfg, None, tokens, EMPTY);
    var st := Run(cfg, None, tokens, EMPTY);
    if st.Ok? {
      CollapseRestricts(cfg, 1, st.value);
    }
  }
}
