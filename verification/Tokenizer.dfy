/** Lexemes, and the tokenizer that turns them into compiler tokens.

    Inline message builders are compiled while tokenizing, so the tokenizer and the
    shunting-yard machine call each other through the nesting of builders. As in
    `Shunting`, nodes are the trees they stand for; `log` lists, in order, the trees
    pushed into the pool on the way. */
module Tokenizer {
  import opened Wrappers
  import opened Operators
  import opened Trees
  import opened Shunting

  /** A number carries what it resolves to by itself and right after a negating minus;
      `None` is an integer too large for every numeric type. */
  datatype Lexeme =
    | Eof
    | Truth(b: bool)
    | Number(plain: Option<Const>, negated: Option<Const>)
    | Identifier(name: string)
    | PlusSign | MinusSign | Star | Slash | StarStar | Percent
    | EqualEqual | NotEqual | GreaterThan | GreaterThanOrEqual | LessThan | LessThanOrEqual
    | AmpAmp | BarBar | Caret | Exclamation
    | LParen | RParen | LBracket | RBracket | LCurly | RCurly | Colon | CommaSign

  /** The lexer never produces an empty identifier. */
  ghost predicate WellLexed(ls: seq<Lexeme>) {
    forall i | 0 <= i < |ls| :: ls[i].Identifier? ==> ls[i].name != ""
  }

  predicate IsOpening(l: Lexeme) { l.LParen? || l.LBracket? || l.LCurly? }
  predicate IsClosing(l: Lexeme) { l.RParen? || l.RBracket? || l.RCurly? }

  function MatchingDelimiter(l: Lexeme): Option<Lexeme> {
    match l
    case LParen => Some(RParen)
    case RParen => Some(LParen)
    case LBracket => Some(RBracket)
    case RBracket => Some(LBracket)
    case LCurly => Some(RCurly)
    case RCurly => Some(LCurly)
    case _ => None
  }

  /** Looking past the end of a stream yields the end-of-file lexeme. */
  function At(rest: seq<Lexeme>, k: nat): Lexeme {
    if k < |rest| then rest[k] else Eof
  }

  /** A stream always ends in an end-of-file lexeme. */
  function StreamOf(ls: seq<Lexeme>): (s: seq<Lexeme>)
    ensures s != [] && Last(s).Eof?
  {
    if ls == [] || !Last(ls).Eof? then ls + [Eof] else ls
  }

  function OperatorOf(l: Lexeme): Option<Operator> {
    match l
    case PlusSign => Some(Add)
    case Star => Some(Multiply)
    case Slash => Some(Divide)
    case StarStar => Some(Power)
    case Percent => Some(Modulo)
    case AmpAmp => Some(And)
    case BarBar => Some(Or)
    case Caret => Some(Xor)
    case EqualEqual => Some(Eq)
    case NotEqual => Some(NotEq)
    case GreaterThanOrEqual => Some(GtEq)
    case GreaterThan => Some(Gt)
    case LessThanOrEqual => Some(LtEq)
    case LessThan => Some(Lt)
    case Exclamation => Some(Not)
    case LParen => Some(LeftParen)
    case RParen => Some(RightParen)
    case LBracket => Some(LeftSquareBracket)
    case RBracket => Some(RightSquareBracket)
    case CommaSign => Some(Comma)
    case _ => None
  }

  function FunctionNamed(s: string): Option<Operator> {
    if s == "alleq" then Some(AllEq)
    else if s == "contains" then Some(Contains)
    else if s == "doesnotcontain" then Some(DoesNotContain)
    else if s == "floor" then Some(Floor)
    else if s == "round" then Some(Round)
    else if s == "ceil" then Some(Ceil)
    else if s == "abs" then Some(Absolute)
    else if s == "length" then Some(Length)
    else None
  }

  function ClockNamed(s: string): Option<Clock> {
    if s == "REALTIME_CLOCK" then Some(RealtimeClock)
    else if s == "MONOTONIC_TIME_SINCE_BOOT" then Some(MonotonicSinceBoot)
    else if s == "MONOTONIC_TIME_SINCE_BOOT_OR_RESUME" then Some(MonotonicSinceBootOrResume)
    else None
  }

  /** The parts of `s` between its dots. */
  function SplitDots(s: string): (parts: seq<string>)
    ensures parts != []
    ensures parts[0] == "" <==> s == "" || s[0] == '.'
  {
    if s == "" then [""]
    else if s[0] == '.' then [""] + SplitDots(s[1..])
    else
      var parts := SplitDots(s[1..]);
      [[s[0]] + parts[0]] + parts[1..]
  }

  predicate IsDotted(s: string) { s != "" && s[0] == '.' }

  /** A function name, a source path, or (after a leading dot) a field path. */
  function ParseValue<N>(s: string): (r: Result<Token<N>, Error>)
    ensures r.Ok? ==> !r.value.Whole?
  {
    if FunctionNamed(s).Some? then Ok(Op(FunctionNamed(s).value))
    else
      var parts := SplitDots(s);
      var mandatory := if IsDotted(s) then parts[1..] else parts;
      if "" in mandatory then Err(EmptyFieldPart) else Ok(Path(parts))
  }

  predicate DirectFieldAccess(l: Lexeme) {
    l.Identifier? && IsDotted(l.name)
  }

  /** The clock of `timestamp(<clock>)`, read from its opening parenthesis on. */
  function ParseTimestamp(rest: seq<Lexeme>): (r: Result<Clock, Error>)
    ensures r.Ok? ==> |rest| >= 3
  {
    var param, after := At(rest, 1), At(rest, 2);
    if param.RParen? then Err(TimestampWithoutParameter)
    else if !param.Identifier? then Err(BadTimestampParameter)
    else if after.CommaSign? then Err(TimestampWithManyParameters)
    else if !after.RParen? then Err(TimestampUnclosed)
    else if ClockNamed(param.name).None? then Err(BadTimestampParameter)
    else Ok(ClockNamed(param.name).value)
  }

  /** The delimiters open after `l`, innermost last; `None` if `l` closes the wrong one, or is
      a colon outside all of them. */
  function OpenAfter(open: seq<Lexeme>, l: Lexeme): Option<seq<Lexeme>> {
    if IsOpening(l) then Some(open + [l])
    else if IsClosing(l) then
      if open == [] || MatchingDelimiter(Last(open)) != Some(l) then None else Some(Front(open))
    else if open == [] && l.Colon? then None
    else Some(open)
  }

  /** How many lexemes belong to a field's expression: up to the first comma or closing
      brace outside every delimiter opened since. */
  function Collect(rest: seq<Lexeme>, open: seq<Lexeme>): (r: Result<nat, Error>)
    ensures r.Ok? ==> r.value < |rest| && (rest[r.value].CommaSign? || rest[r.value].RCurly?)
    decreases |rest|
  {
    var l := At(rest, 0);
    if l.Eof? then Err(if open == [] then UnmatchedLeftCurly else UnbalancedField)
    else if open == [] && (l.RCurly? || l.CommaSign?) then Ok(0)
    else if OpenAfter(open, l).None? then Err(UnbalancedField)
    else Plus(1, Collect(rest[1..], OpenAfter(open, l).value))
  }

  function Plus(n: nat, r: Result<nat, Error>): Result<nat, Error> {
    match r
    case Ok(m) => Ok(n + m)
    case Err(e) => Err(e)
  }

  datatype Tokenized = Tokenized(tokens: seq<Token<Tree>>, log: seq<Tree>)
  datatype Built = Built(assigns: seq<Assign>, log: seq<Tree>)
  datatype Parsed = Parsed(tree: Tree, log: seq<Tree>, rest: seq<Lexeme>)

  function BuilderOf(ty: string, assigns: seq<Assign>): Tree {
    Builder(if ty == "" then None else Some(ty), assigns)
  }

  predicate LastIsOperator<N>(tokens: seq<Token<N>>) {
    tokens == [] || !IsOperandToken(Last(tokens))
  }

  function Snoc(acc: Tokenized, t: Token<Tree>): Tokenized {
    acc.(tokens := acc.tokens + [t])
  }

  /** The opening of an inline builder, if `rest` starts with one: its message type, and how
      many lexemes the opening takes. */
  function BuilderStart(rest: seq<Lexeme>): (r: Option<(string, nat)>)
    ensures r.Some? ==> 0 < r.value.1 <= |rest|
  {
    if At(rest, 0).LCurly? then Some(("", 1))
    else if At(rest, 0) == Identifier("new") && At(rest, 1).Identifier? && At(rest, 2).LCurly? then
      Some((rest[1].name, 3))
    else None
  }

  predicate TimestampStart(rest: seq<Lexeme>) {
    At(rest, 0) == Identifier("timestamp") && At(rest, 1).LParen?
  }

  /** Any other token, and how many lexemes it takes: two for a negated number, else one.
      Whether a minus negates, or subtracts, depends on the token before it. */
  function SimpleToken<N>(lastIsOperator: bool, rest: seq<Lexeme>): (r: Result<(Token<N>, nat), Error>)
    requires !At(rest, 0).Eof?
    ensures r.Ok? ==> 0 < r.value.1 <= |rest| && !r.value.0.Whole?
  {
    var l := rest[0];
    if l.Truth? then Ok((Literal(BoolConst(l.b)), 1))
    else if l.Number? then if l.plain.None? then Err(NumberTooLarge) else Ok((Literal(l.plain.value), 1))
    else if l.RCurly? then Err(UnmatchedRightCurly)
    else if l.Colon? then Err(UnexpectedColon)
    else if l.Identifier? then
      var t :- ParseValue(l.name);
      Ok((t, 1))
    else if l.MinusSign? then
      if !lastIsOperator then Ok((Op(Subtract), 1))
      else if !At(rest, 1).Number? then Ok((Op(UnaryMinus), 1))
      else if rest[1].negated.None? then Err(NumberTooLarge)
      else Ok((Literal(rest[1].negated.value), 2))
    else if OperatorOf(l).None? then Err(UnknownOperator)
    else Ok((Op(OperatorOf(l).value), 1))
  }

  function Tokenize(cfg: Config, acc: Tokenized, rest: seq<Lexeme>): Result<Tokenized, Error>
    decreases |rest|, 1
  {
    if At(rest, 0).Eof? then Ok(acc)
    else if BuilderStart(rest).Some? then
      var start := BuilderStart(rest).value;
      TokenizeBuilder(cfg, acc, start.0, rest[start.1..])
    else if TimestampStart(rest) then
      var clock :- ParseTimestamp(rest[1..]);
      Tokenize(cfg, Snoc(acc, Whole(Timestamp(clock))), rest[4..])
    else
      var t :- SimpleToken(LastIsOperator(acc.tokens), rest);
      Tokenize(cfg, Snoc(acc, t.0), rest[t.1..])
  }

  /** Continues after the opening brace of a builder. */
  function TokenizeBuilder(cfg: Config, acc: Tokenized, ty: string, rest: seq<Lexeme>): Result<Tokenized, Error>
    decreases |rest|, 2
  {
    var b :- ParseBuilder(cfg, ty, Built([], acc.log), rest);
    if DirectFieldAccess(At(b.rest, 0)) then Err(FieldOnBuilder)
    else Tokenize(cfg, Tokenized(acc.tokens + [Whole(b.tree)], b.log), b.rest)
  }

  /** The name that starts a field assignment, with its colon. */
  function FieldName(assigns: seq<Assign>, rest: seq<Lexeme>): (r: Result<string, Error>)
    ensures r.Ok? ==> |rest| >= 2
  {
    var l := At(rest, 0);
    if !l.Identifier? then Err(ExpectedFieldName)
    else if '.' in l.name then Err(DottedFieldName)
    else if exists i | 0 <= i < |assigns| :: assigns[i].name == l.name then Err(DuplicateField(l.name))
    else if !At(rest, 1).Colon? then Err(MissingColon)
    else Ok(l.name)
  }

  /** Parses the fields of a builder up to and including its closing brace. */
  function ParseBuilder(cfg: Config, ty: string, acc: Built, rest: seq<Lexeme>): (r: Result<Parsed, Error>)
    ensures r.Ok? ==> |r.value.rest| < |rest|
    decreases |rest|, 0
  {
    if At(rest, 0).Eof? then Err(UnmatchedLeftCurly)
    else if rest[0].RCurly? then Ok(Parsed(BuilderOf(ty, acc.assigns), acc.log, rest[1..]))
    else
      var name :- FieldName(acc.assigns, rest);
      ParseFieldBody(cfg, ty, acc, name, rest[2..])
  }

  /** A field's expression, the separator after it, and the rest of the builder. */
  function ParseFieldBody(cfg: Config, ty: string, acc: Built, name: string,
                          rest: seq<Lexeme>): (r: Result<Parsed, Error>)
    ensures r.Ok? ==> |r.value.rest| < |rest|
    decreases |rest|, 3
  {
    var n :- Collect(rest, []);
    if n == 0 then Err(MissingFieldExpression)
    else
      var field :- CompileField(cfg, acc.log, rest[..n]);
      NextField(cfg, ty, Built(acc.assigns + [Assign(name, field.0)], field.1), rest[n..])
  }

  /** Whether the separator at the head of `rest` ends the builder; a trailing comma does too. */
  predicate Closes(rest: seq<Lexeme>) {
    At(rest, 0).RCurly? || At(rest, 1).RCurly?
  }

  function AfterSeparator(rest: seq<Lexeme>): seq<Lexeme>
    requires rest != []
  {
    if rest[0].CommaSign? && At(rest, 1).RCurly? then rest[2..] else rest[1..]
  }

  function NextField(cfg: Config, ty: string, acc: Built, rest: seq<Lexeme>): (r: Result<Parsed, Error>)
    requires rest != []
    ensures r.Ok? ==> |r.value.rest| < |rest|
    decreases |rest|, 0
  {
    if Closes(rest) then Ok(Parsed(BuilderOf(ty, acc.assigns), acc.log, AfterSeparator(rest)))
    else ParseBuilder(cfg, ty, acc, AfterSeparator(rest))
  }

  /** Compiles a piece of source on its own; returns its tree and the grown log. */
  function CompileField(cfg: Config, log: seq<Tree>, source: seq<Lexeme>): Result<(Tree, seq<Tree>), Error>
    decreases |source| + 1, 2
  {
    var toks :- Tokenize(cfg, Tokenized([], log), StreamOf(source));
    var t :- Compile(cfg, toks.tokens);
    Ok((t, toks.log + PostOrder(t)))
  }

  datatype Compiled = Compiled(tree: Tree, log: seq<Tree>)

  /** The meaning of one expression text, and the trees it pushes into the pool. */
  function CompileSource(cfg: Config, source: seq<Lexeme>): Result<Compiled, Error> {
    var r :- CompileField(cfg, [], source);
    Ok(Compiled(r.0, r.1))
  }
}
