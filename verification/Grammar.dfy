/** The surface grammar, independently of any parser: well-formed expressions, the
    lexemes they are written with, and the trees they mean. */
module Grammar {
  import opened Wrappers
  import opened Operators
  import opened Trees
  import opened Shunting
  import opened Tokenizer

  datatype Expr =
    | Name(ident: string)                               // a.b.c
    | Num(value: Const, negated: Option<Const>)         // 5
    | NegNum(plain: Option<Const>, value: Const)        // -5, one constant
    | Bool(b: bool)
    | Now(clockName: string)                            // timestamp(CLOCK)
    | Build(ty: Option<string>, fields: seq<FieldInit>, trailingComma: bool)
    | Prefix(op: Operator, arg: Expr)
    | Infix(op: Operator, left: Expr, right: Expr)
    | Raise(left: Expr, right: Expr)                    // base[index] ** right, read as base[index ** right]
    | Index(base: Expr, index: Expr)                    // base[index]
    | Access(base: Expr, path: string)                  // base.f.g
    | Call1(fn: Operator, arg: Expr)
    | Call2(fn: Operator, first: Expr, second: Expr)
    | Group(inner: Expr)                                // (inner)
  datatype FieldInit = FieldInit(name: string, value: Expr)

  // ------------------------------------------------------------------------
  // How an expression is written.

  function InfixLexeme(op: Operator): Lexeme
    requires IsInfix(op)
  {
    match op
    case Add => PlusSign
    case Subtract => MinusSign
    case Multiply => Star
    case Divide => Slash
    case Power => StarStar
    case Modulo => Percent
    case And => AmpAmp
    case Or => BarBar
    case Xor => Caret
    case Eq => EqualEqual
    case NotEq => NotEqual
    case GtEq => GreaterThanOrEqual
    case Gt => GreaterThan
    case LtEq => LessThanOrEqual
    case Lt => LessThan
  }

  function FunctionName(op: Operator): string
    requires IsFunctionLike(op)
  {
    match op
    case AllEq => "alleq"
    case Contains => "contains"
    case DoesNotContain => "doesnotcontain"
    case Floor => "floor"
    case Round => "round"
    case Ceil => "ceil"
    case Absolute => "abs"
    case Length => "length"
  }

  predicate Operands(e: Expr) {
    match e
    case Prefix(op, arg) => IsPrefix(op) && Operands(arg)
    case Infix(op, l, r) => IsInfix(op) && Operands(l) && Operands(r)
    case Raise(l, r) => l.Index? && Operands(l) && Operands(l.base) && Operands(l.index) && Operands(r)
    case Index(b, i) => Operands(b) && Operands(i)
    case Access(b, _) => Operands(b)
    case Call1(fn, a) => IsFunctionLike(fn) && IsUnary(fn) && Operands(a)
    case Call2(fn, a, b) => IsFunctionLike(fn) && !IsUnary(fn) && Operands(a) && Operands(b)
    case Group(x) => Operands(x)
    case Build(_, fields, _) => forall i | 0 <= i < |fields| :: Operands(fields[i].value)
    case _ => true
  }


  function BuilderHead(ty: Option<string>): seq<Lexeme> {
    if ty.Some? then [Identifier("new"), Identifier(ty.value)] else []
  }

  function Separator(comma: bool): seq<Lexeme> {
    if comma then [CommaSign] else []
  }

  function Print(e: Expr): (ls: seq<Lexeme>)
    requires Operands(e)
    ensures ls != []
  {
    match e
    case Name(s) => [Identifier(s)]
    case Num(v, neg) => [Number(Some(v), neg)]
    case NegNum(plain, v) => [MinusSign, Number(plain, Some(v))]
    case Bool(b) => [Truth(b)]
    case Now(clock) => [Identifier("timestamp"), LParen, Identifier(clock), RParen]
    case Build(ty, fields, comma) =>
      BuilderHead(ty) + [LCurly] + (PrintFields(fields, 0) + Separator(comma) + [RCurly])
    case Prefix(op, arg) => [if op.Not? then Exclamation else MinusSign] + Print(arg)
    case Infix(op, l, r) => Print(l) + ([InfixLexeme(op)] + Print(r))
    case Raise(l, r) => Print(l) + ([StarStar] + Print(r))
    case Index(b, i) => Print(b) + ([LBracket] + Print(i) + [RBracket])
    case Access(b, path) => Print(b) + [Identifier(path)]
    case Call1(fn, a) => [Identifier(FunctionName(fn)), LParen] + (Print(a) + [RParen])
    case Call2(fn, a, b) => [Identifier(FunctionName(fn)), LParen] + (Print(a) + ([CommaSign] + Print(b) + [RParen]))
    case Group(x) => [LParen] + Print(x) + [RParen]
  }

  /** `fields[from..]`, separated by commas; the separator before `from` is included. */
  function PrintFields(fields: seq<FieldInit>, from: nat): seq<Lexeme>
    requires from <= |fields|
    requires forall i | 0 <= i < |fields| :: Operands(fields[i].value)
    decreases fields, |fields| - from
  {
    if from == |fields| then []
    else
      Separator(from > 0)
      + ([Identifier(fields[from].name), Colon] + Print(fields[from].value) + PrintFields(fields, from + 1))
  }

  /** What is written from field `from` on, without the comma before it. */
  function FieldsText(fields: seq<FieldInit>, from: nat, comma: bool): seq<Lexeme>
    requires from < |fields|
    requires forall i | 0 <= i < |fields| :: Operands(fields[i].value)
  {
    [Identifier(fields[from].name), Colon] + Print(fields[from].value)
        + (PrintFields(fields, from + 1) + Separator(comma) + [RCurly])
  }

  // ------------------------------------------------------------------------
  // What an expression means.

  function Meaning(e: Expr): Tree
    requires Operands(e)
  {
    match e
    case Name(s) => SourceField(SplitDots(s)[0], SplitDots(s)[1..])
    case Num(v, _) => Constant(v)
    case NegNum(_, v) => Constant(v)
    case Bool(b) => Constant(BoolConst(b))
    case Now(clock) => Timestamp(if ClockNamed(clock).Some? then ClockNamed(clock).value else RealtimeClock)
    case Build(ty, fields, _) =>
      BuilderOf(if ty.Some? then ty.value else "",
                seq(|fields|, i requires 0 <= i < |fields| => Assign(fields[i].name, Meaning(fields[i].value))))
    case Prefix(op, arg) => Unary(ToNodeOperator(op), Meaning(arg))
    case Infix(op, l, r) => Binary(ToNodeOperator(op), Meaning(l), Meaning(r))
    case Raise(l, r) => Binary(OnList(SUBSCRIPT), Meaning(l.base),
        Binary(Arithmetic(POWER), Meaning(l.index), Meaning(r)))
    case Index(b, i) => Binary(OnList(SUBSCRIPT), Meaning(b), Meaning(i))
    case Access(b, path) => PostfixField(Meaning(b), SplitDots(path)[1..])
    case Call1(fn, a) => Unary(ToNodeOperator(fn), Meaning(a))
    case Call2(fn, a, b) => Binary(ToNodeOperator(fn), Meaning(a), Meaning(b))
    case Group(x) => Meaning(x)
  }

  // ------------------------------------------------------------------------
  // When an expression is well formed: how tightly its open ends bind.

  /** Tighter than every operator. */
  const TIGHTEST: nat := 17

  function Min(a: nat, b: nat): nat { if a < b then a else b }

  /** The loosest operator that can reach past the left end of `e`. */
  function LeftBinding(cfg: Config, e: Expr): nat {
    match e
    case Infix(op, l, _) => Min(Target(cfg, op), LeftBinding(cfg, l))
    case Raise(l, _) => LeftBinding(cfg, l)
    case Index(b, _) => Min(Precedence(Subscript), LeftBinding(cfg, b))
    case Access(b, _) => Min(Precedence(Subscript), LeftBinding(cfg, b))
    case _ => TIGHTEST
  }

  /** The loosest operator still open at the right end of `e`. */
  function RightBinding(e: Expr): nat {
    match e
    case Infix(op, _, r) => Min(Precedence(op), RightBinding(r))
    case Raise(_, r) => Min(Precedence(Subscript), RightBinding(r))
    case Prefix(op, arg) => Min(Precedence(op), RightBinding(arg))
    case Index(_, _) => Precedence(Subscript)
    case _ => TIGHTEST
  }

  /** Whether `e` ends in an inline builder, on which a field cannot be taken directly. */
  predicate EndsInBuilder(e: Expr) {
    match e
    case Build(_, _, _) => true
    case Infix(_, _, r) => EndsInBuilder(r)
    case Raise(_, r) => EndsInBuilder(r)
    case Prefix(_, arg) => EndsInBuilder(arg)
    case _ => false
  }

  predicate StartsWithNumber(e: Expr) {
    match e
    case Num(_, _) => true
    case Infix(_, l, _) => StartsWithNumber(l)
    case Raise(l, _) => StartsWithNumber(l)
    case Index(b, _) => StartsWithNumber(b)
    case Access(b, _) => StartsWithNumber(b)
    case _ => false
  }

  predicate PathOk(s: string) { FunctionNamed(s).None? && s != "" && !IsDotted(s) && "" !in SplitDots(s) }

  predicate PostfixPathOk(s: string) { FunctionNamed(s).None? && IsDotted(s) && "" !in SplitDots(s)[1..] }

  /** Well-formedness. `guarded` says that a prefix operator stands right before `e`,
      which is what makes parentheses around a bare operand legal. */
  predicate WellFormed(cfg: Config, e: Expr, guarded: bool)
    requires Operands(e)
  {
    match e
    case Name(s) => PathOk(s)
    case Now(clock) => ClockNamed(clock).Some?
    case Build(ty, fields, comma) =>
      && (ty.Some? ==> ty.value != "")
      && (comma ==> fields != [])
      && (forall i, j | 0 <= i < j < |fields| :: fields[i].name != fields[j].name)
      && (forall i | 0 <= i < |fields| :: '.' !in fields[i].name)
      && (forall i | 0 <= i < |fields| :: WellFormed(cfg, fields[i].value, false))
    case Prefix(op, arg) =>
      && WellFormed(cfg, arg, true)
      && LeftBinding(cfg, arg) > Precedence(op)
      && (op.UnaryMinus? ==> !StartsWithNumber(arg))
    case Infix(op, l, r) =>
      && WellFormed(cfg, l, guarded) && WellFormed(cfg, r, false)
      && RightBinding(l) >= Target(cfg, op)
      && LeftBinding(cfg, r) > Precedence(op)
    case Raise(l, r) =>
      && cfg.rightAssociativePower && WellFormed(cfg, l, guarded) && WellFormed(cfg, r, false)
      && LeftBinding(cfg, r) > Precedence(Power)
    case Index(b, i) =>
      && WellFormed(cfg, b, guarded) && WellFormed(cfg, i, false)
      && RightBinding(b) >= Precedence(Subscript)
    case Access(b, path) =>
      && WellFormed(cfg, b, guarded) && PostfixPathOk(path)
      && RightBinding(b) >= Precedence(Subscript)
      && !EndsInBuilder(b)
    case Call1(_, a) => WellFormed(cfg, a, false)
    case Call2(_, a, b) => WellFormed(cfg, a, false) && WellFormed(cfg, b, false)
    case Group(x) =>
      && WellFormed(cfg, x, false)
      && (guarded || x.Prefix? || x.Infix? || x.Raise? || x.Index? || x.Build?)
    case _ => true
  }

  predicate IsChainLink(e: Expr) { e.Infix? && IsComparison(e.op) }

  /** Some comparison in `e`, builder fields aside, has a comparison as a direct operand
      that is not in parentheses. */
  predicate HasOwnChain(e: Expr) {
    match e
    case Infix(op, l, r) =>
      HasOwnChain(l) || HasOwnChain(r) || (IsComparison(op) && (IsChainLink(l) || IsChainLink(r)))
    case Raise(l, r) => HasOwnChain(l) || HasOwnChain(r)
    case Prefix(_, arg) => HasOwnChain(arg)
    case Index(b, i) => HasOwnChain(b) || HasOwnChain(i)
    case Access(b, _) => HasOwnChain(b)
    case Call1(_, a) => HasOwnChain(a)
    case Call2(_, a, b) => HasOwnChain(a) || HasOwnChain(b)
    case Group(x) => HasOwnChain(x)
    case _ => false
  }

  /** The same inside the fields of the builders written in `e`, however deeply nested. */
  predicate HasFieldChain(e: Expr) {
    match e
    case Infix(_, l, r) => HasFieldChain(l) || HasFieldChain(r)
    case Raise(l, r) => HasFieldChain(l) || HasFieldChain(r)
    case Prefix(_, arg) => HasFieldChain(arg)
    case Index(b, i) => HasFieldChain(b) || HasFieldChain(i)
    case Access(b, _) => HasFieldChain(b)
    case Call1(_, a) => HasFieldChain(a)
    case Call2(_, a, b) => HasFieldChain(a) || HasFieldChain(b)
    case Group(x) => HasFieldChain(x)
    case Build(_, fields, _) =>
      exists i | 0 <= i < |fields| :: HasFieldChain(fields[i].value) || HasOwnChain(fields[i].value)
    case _ => false
  }

  predicate HasChain(e: Expr) { HasFieldChain(e) || HasOwnChain(e) }

  // ------------------------------------------------------------------------
  // The compiler tokens of an expression, builders already compiled.

  function Tokens(e: Expr): (ts: seq<Token<Tree>>)
    requires Operands(e)
    ensures ts != []
  {
    match e
    case Name(s) => [Path(SplitDots(s))]
    case Num(v, _) => [Literal(v)]
    case NegNum(_, v) => [Literal(v)]
    case Bool(b) => [Literal(BoolConst(b))]
    case Now(_) => [Whole(Meaning(e))]
    case Build(_, _, _) => [Whole(Meaning(e))]
    case Prefix(op, arg) => [Op(op)] + Tokens(arg)
    case Infix(op, l, r) => Tokens(l) + ([Op(op)] + Tokens(r))
    case Raise(l, r) => Tokens(l) + ([Op(Power)] + Tokens(r))
    case Index(b, i) => Tokens(b) + ([Op(LeftSquareBracket)] + (Tokens(i) + [Op(RightSquareBracket)]))
    case Access(b, path) => Tokens(b) + [Path(SplitDots(path))]
    case Call1(fn, a) => [Op(fn), Op(LeftParen)] + (Tokens(a) + [Op(RightParen)])
    case Call2(fn, a, b) => [Op(fn), Op(LeftParen)] + (Tokens(a) + ([Op(Comma)] + (Tokens(b) + [Op(RightParen)])))
    case Group(x) => [Op(LeftParen)] + (Tokens(x) + [Op(RightParen)])
  }
}
