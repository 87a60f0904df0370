/** What compound texts mean in terms of their parts, whatever these are: calls, subscripts,
    parenthesised operands, fields taken of them, and builders with any number of fields; then the
    smallest texts. As in `Signs`, nothing is read off a table of the compiler. */
module Compounds {
  import opened Wrappers
  import opened Operators
  import opened Trees
  import opened Shunting
  import opened ShuntingSteps
  import opened ShuntingProof
  import opened Tokenizer
  import opened Grammar
  import opened ScanProof
  import opened Reference
  import opened ReferenceProof
  import opened ReferenceComplete
  import opened Signs

  // ------------------------------------------------------------------------
  // Parts

  type Outcome = Result<Tree, Error>

  function Over(op: NodeOperator, a: Outcome): Outcome {
    if a.Err? then a else Ok(Unary(op, a.value))
  }

  function Both(op: NodeOperator, a: Outcome, b: Outcome): Outcome {
    if a.Err? then a else if b.Err? then b else Ok(Binary(op, a.value, b.value))
  }

  /** `e` is what `ls` spells. */
  predicate Spells(cfg: Config, ls: seq<Lexeme>, e: Expr) {
    Operands(e) && WellFormed(cfg, e, false) && Print(e) == ls
  }

  lemma {:induction false} Spelt(cfg: Config, ls: seq<Lexeme>) returns (e: Expr)
    requires Parse(cfg, ls).Some?
    ensures Parse(cfg, ls) == Some(e) && Spells(cfg, ls, e)
    ensures TreeOf(cfg, ls) == Judged(cfg, HasChain(e), Meaning(e))
  {
    e := Parse(cfg, ls).value;
    AgreesWithReference(cfg, ls);
  }

  lemma {:induction false} Means(cfg: Config, e: Expr, ls: seq<Lexeme>)
    requires Spells(cfg, ls, e)
    ensures TreeOf(cfg, ls) == Judged(cfg, HasChain(e), Meaning(e))
  {
    SourceMeans(cfg, e);
  }

  // ------------------------------------------------------------------------
  // Calls

  function OneNode(f: string): Option<NodeOperator> {
    if f == "floor" then Some(Rounding(FLOOR))
    else if f == "round" then Some(Rounding(ROUND))
    else if f == "ceil" then Some(Rounding(CEIL))
    else if f == "abs" then Some(Arithmetic(ABSOLUTE))
    else if f == "length" then Some(OnList(LENGTH))
    else None
  }

  function TwoNode(f: string): Option<NodeOperator> {
    if f == "alleq" then Some(Relational(EQ))
    else if f == "contains" then Some(Relational(CONTAINS))
    else if f == "doesnotcontain" then Some(Relational(DOES_NOT_CONTAIN))
    else None
  }

  lemma OneFunction(f: string) returns (fn: Operator)
    requires OneNode(f).Some?
    ensures IsFunctionLike(fn) && IsUnary(fn) && FunctionName(fn) == f && ToNodeOperator(fn) == OneNode(f).value
  {
    fn := FunctionNamed(f).value;
  }

  lemma TwoFunction(f: string) returns (fn: Operator)
    requires TwoNode(f).Some?
    ensures IsFunctionLike(fn) && !IsUnary(fn) && FunctionName(fn) == f && ToNodeOperator(fn) == TwoNode(f).value
  {
    fn := FunctionNamed(f).value;
  }

  /** `f(a)` */
  lemma {:induction false} CallOne(cfg: Config, f: string, a: seq<Lexeme>)
    requires OneNode(f).Some? && Parse(cfg, a).Some?
    ensures TreeOf(cfg, [Identifier(f), LParen] + (a + [RParen])) == Over(OneNode(f).value, TreeOf(cfg, a))
  {
    var fn := OneFunction(f);
    var e := Spelt(cfg, a);
    CallOneSpelt(cfg, fn, a, e);
    Means(cfg, Call1(fn, e), [Identifier(f), LParen] + (a + [RParen]));
  }

  lemma {:induction false} CallOneSpelt(cfg: Config, fn: Operator, a: seq<Lexeme>, ea: Expr)
    requires IsFunctionLike(fn) && IsUnary(fn) && Spells(cfg, a, ea)
    ensures
      var e := Call1(fn, ea);
      && Spells(cfg, [Identifier(FunctionName(fn)), LParen] + (a + [RParen]), e)
      && Meaning(e) == Unary(ToNodeOperator(fn), Meaning(ea)) && HasChain(e) == HasChain(ea)
  {
  }

  /** `f(a, b)` */
  lemma {:induction false} CallTwo(cfg: Config, f: string, a: seq<Lexeme>, b: seq<Lexeme>)
    requires TwoNode(f).Some? && Parse(cfg, a).Some? && Parse(cfg, b).Some?
    ensures TreeOf(cfg, [Identifier(f), LParen] + (a + ([CommaSign] + b + [RParen])))
         == Both(TwoNode(f).value, TreeOf(cfg, a), TreeOf(cfg, b))
  {
    var fn := TwoFunction(f);
    var ea := Spelt(cfg, a);
    var eb := Spelt(cfg, b);
    CallTwoSpelt(cfg, fn, a, ea, b, eb);
    Means(cfg, Call2(fn, ea, eb), [Identifier(f), LParen] + (a + ([CommaSign] + b + [RParen])));
  }

  lemma {:induction false} CallTwoSpelt(cfg: Config, fn: Operator, a: seq<Lexeme>, ea: Expr, b: seq<Lexeme>, eb: Expr)
    requires IsFunctionLike(fn) && !IsUnary(fn) && Spells(cfg, a, ea) && Spells(cfg, b, eb)
    ensures
      var e := Call2(fn, ea, eb);
      && Spells(cfg, [Identifier(FunctionName(fn)), LParen] + (a + ([CommaSign] + b + [RParen])), e)
      && Meaning(e) == Binary(ToNodeOperator(fn), Meaning(ea), Meaning(eb))
      && (HasChain(e) <==> HasChain(ea) || HasChain(eb))
  {
    var e := Call2(fn, ea, eb);
    assert Operands(e) && WellFormed(cfg, e, false);
    CallTwoPrints(fn, ea, eb);
  }

  lemma {:induction false} CallTwoPrints(fn: Operator, a: Expr, b: Expr)
    requires IsFunctionLike(fn) && !IsUnary(fn) && Operands(a) && Operands(b)
    ensures
      var e := Call2(fn, a, b);
      && Print(e) == [Identifier(FunctionName(fn)), LParen] + (Print(a) + ([CommaSign] + Print(b) + [RParen]))
      && Meaning(e) == Binary(ToNodeOperator(fn), Meaning(a), Meaning(b))
  {
  }

  // ------------------------------------------------------------------------
  // Subscripts, parentheses and fields

  /** `a[i]` */
  lemma {:induction false} Subscripted(cfg: Config, a: seq<string>, i: seq<Lexeme>)
    requires IsWord(a) && Parse(cfg, i).Some?
    ensures TreeOf(cfg, [Identifier(Dotted(a))] + ([LBracket] + i + [RBracket]))
         == Both(OnList(SUBSCRIPT), Ok(Named(a)), TreeOf(cfg, i))
  {
    WordMeans(a);
    var e := Spelt(cfg, i);
    SubscriptSpelt(cfg, Name(Dotted(a)), i, e);
    Means(cfg, Index(Name(Dotted(a)), e), [Identifier(Dotted(a))] + ([LBracket] + i + [RBracket]));
  }

  lemma {:induction false} SubscriptSpelt(cfg: Config, b: Expr, i: seq<Lexeme>, e: Expr)
    requires b.Name? && PathOk(b.ident) && Spells(cfg, i, e)
    ensures
      var x := Index(b, e);
      && Spells(cfg, Print(b) + ([LBracket] + i + [RBracket]), x)
      && Meaning(x) == Binary(OnList(SUBSCRIPT), Meaning(b), Meaning(e)) && HasChain(x) == HasChain(e)
  {
    assert RightBinding(b) == TIGHTEST && !HasChain(b);
  }

  /** A text in parentheses. */
  predicate Enclosed(cfg: Config, ls: seq<Lexeme>) { Parse(cfg, ls).Some? && Parse(cfg, ls).value.Group? }

  /** `(a) x (b)`: whatever is in the parentheses stays together. */
  lemma {:induction false} EnclosedJoin(cfg: Config, a: seq<Lexeme>, x: Lexeme, b: seq<Lexeme>)
    requires Enclosed(cfg, a) && SignRank(x) > 0 && Enclosed(cfg, b)
    ensures TreeOf(cfg, a + ([x] + b)) == Both(SignNode(x), TreeOf(cfg, a), TreeOf(cfg, b))
  {
    SignIsOperator(x);
    var op := InfixOf(x).value;
    var ea := Spelt(cfg, a);
    var eb := Spelt(cfg, b);
    EnclosedSpelt(cfg, op, ea, eb);
    Means(cfg, Infix(op, ea, eb), a + ([x] + b));
  }

  lemma {:induction false} EnclosedSpelt(cfg: Config, op: Operator, a: Expr, b: Expr)
    requires IsInfix(op) && a.Group? && b.Group? && Spells(cfg, Print2(a), a) && Spells(cfg, Print2(b), b)
    ensures
      var e := Infix(op, a, b);
      && Spells(cfg, Print2(a) + ([InfixLexeme(op)] + Print2(b)), e)
      && Meaning(e) == Binary(ToNodeOperator(op), Meaning(a), Meaning(b))
      && (HasChain(e) <==> HasChain(a) || HasChain(b))
  {
    TargetBelow(cfg, op);
  }

  lemma TargetBelow(cfg: Config, op: Operator)
    requires IsInfix(op)
    ensures Precedence(op) < TIGHTEST && Target(cfg, op) <= TIGHTEST
  {
  }

  function Print2(e: Expr): seq<Lexeme> { if Operands(e) then Print(e) else [] }

  /** Parentheses around a text that they may enclose do not change its tree. */
  lemma {:induction false} Parenthesised(cfg: Config, a: seq<Lexeme>)
    requires Parse(cfg, a).Some?
    ensures
      var e, text := Parse(cfg, a).value, [LParen] + a + [RParen];
      e.Infix? || e.Prefix? || e.Raise? || e.Index? || e.Build? ==>
        Enclosed(cfg, text) && TreeOf(cfg, text) == TreeOf(cfg, a)
  {
    var e := Spelt(cfg, a);
    if e.Infix? || e.Prefix? || e.Raise? || e.Index? || e.Build? {
      var g := Group(e);
      GroupSpelt(cfg, a, e);
      Means(cfg, g, [LParen] + a + [RParen]);
      ParsesPrint(cfg, g);
    }
  }

  lemma {:induction false} GroupSpelt(cfg: Config, a: seq<Lexeme>, e: Expr)
    requires Spells(cfg, a, e) && (e.Infix? || e.Prefix? || e.Raise? || e.Index? || e.Build?)
    ensures
      var g := Group(e);
      Spells(cfg, [LParen] + a + [RParen], g) && Meaning(g) == Meaning(e) && HasChain(g) == HasChain(e)
  {
  }

  /** `(a).f.g` */
  lemma {:induction false} FieldOf(cfg: Config, a: seq<Lexeme>, parts: seq<string>)
    requires Enclosed(cfg, a) && parts != [] && forall i | 0 <= i < |parts| :: IsPart(parts[i])
    ensures TreeOf(cfg, a + [Identifier("." + Dotted(parts))])
         == if TreeOf(cfg, a).Err? then TreeOf(cfg, a) else Ok(PostfixField(TreeOf(cfg, a).value, parts))
  {
    var path := "." + Dotted(parts);
    var e := Spelt(cfg, a);
    PostfixParts(parts);
    AccessSpelt(cfg, a, e, path);
    Means(cfg, Access(e, path), a + [Identifier(path)]);
  }

  lemma {:induction false} PostfixParts(parts: seq<string>)
    requires parts != [] && forall i | 0 <= i < |parts| :: IsPart(parts[i])
    ensures PostfixPathOk("." + Dotted(parts)) && SplitDots("." + Dotted(parts))[1..] == parts
  {
    var path := "." + Dotted(parts);
    forall i | 0 <= i < |parts| ensures parts[i] != "" && '.' !in parts[i] {
      assert IsPart(parts[i]);
    }
    SplitJoined(parts);
    assert path[1..] == Dotted(parts);
    assert path[0] == '.';
    NotAFunction(path);
  }

  lemma {:induction false} AccessSpelt(cfg: Config, a: seq<Lexeme>, e: Expr, path: string)
    requires Spells(cfg, a, e) && e.Group? && PostfixPathOk(path)
    ensures
      var x := Access(e, path);
      && Spells(cfg, a + [Identifier(path)], x) && HasChain(x) == HasChain(e)
      && Meaning(x) == PostfixField(Meaning(e), SplitDots(path)[1..])
  {
  }

  // ------------------------------------------------------------------------
  // Constants and clocks

  /** The smallest texts. */
  lemma {:induction false} Atoms(cfg: Config, b: bool, v: Const, w: Option<Const>)
    ensures TreeOf(cfg, [Truth(b)]) == Ok(Constant(BoolConst(b)))
    ensures TreeOf(cfg, [Number(Some(v), w)]) == Ok(Constant(v))
    ensures TreeOf(cfg, [MinusSign, Number(w, Some(v))]) == Ok(Constant(v))
  {
    Means(cfg, Bool(b), [Truth(b)]);
    Means(cfg, Num(v, w), [Number(Some(v), w)]);
    Means(cfg, NegNum(w, v), [MinusSign, Number(w, Some(v))]);
  }

  /** Whether a minus makes a constant negative depends on what stands before it. */
  lemma {:induction false} MinusNumber(cfg: Config, a: seq<string>, x: Lexeme, v: Const, w: Const)
    requires IsWord(a) && SignRank(x) > 0
    ensures TreeOf(cfg, [Identifier(Dotted(a)), MinusSign, Number(Some(v), Some(w))])
         == Ok(Binary(Arithmetic(SUBTRACT), Named(a), Constant(v)))
    ensures TreeOf(cfg, [Identifier(Dotted(a)), x, MinusSign, Number(Some(v), Some(w))])
         == Ok(Binary(SignNode(x), Named(a), Constant(w)))
  {
    SignIsOperator(x);
    WordJoin(cfg, a, Subtract, Num(v, Some(w)));
    WordJoin(cfg, a, InfixOf(x).value, NegNum(Some(v), w));
    FourLexemes(Identifier(Dotted(a)), x, MinusSign, Number(Some(v), Some(w)));
  }

  lemma FourLexemes(a: Lexeme, x: Lexeme, y: Lexeme, b: Lexeme)
    ensures [a] + ([y] + [b]) == [a, y, b] && [a] + ([x] + [y, b]) == [a, x, y, b]
  {
  }

  lemma {:induction false} WordJoin(cfg: Config, a: seq<string>, op: Operator, c: Expr)
    requires IsWord(a) && IsInfix(op) && (c.Num? || c.NegNum?)
    ensures TreeOf(cfg, [Identifier(Dotted(a))] + ([InfixLexeme(op)] + Print(c)))
         == Ok(Binary(ToNodeOperator(op), Named(a), Constant(c.value)))
  {
    WordMeans(a);
    TargetBelow(cfg, op);
    var e := Infix(op, Name(Dotted(a)), c);
    assert LeftBinding(cfg, c) == TIGHTEST && !HasChain(c) && !HasChain(e.left) && !HasChain(e);
    Means(cfg, e, [Identifier(Dotted(a))] + ([InfixLexeme(op)] + Print(c)));
  }

  /** `timestamp(CLOCK)` */
  lemma {:induction false} Clocks(cfg: Config, clock: string)
    ensures TreeOf(cfg, [Identifier("timestamp"), LParen, Identifier(clock), RParen])
         == if clock == "REALTIME_CLOCK" then Ok(Timestamp(RealtimeClock))
            else if clock == "MONOTONIC_TIME_SINCE_BOOT" then Ok(Timestamp(MonotonicSinceBoot))
            else if clock == "MONOTONIC_TIME_SINCE_BOOT_OR_RESUME" then Ok(Timestamp(MonotonicSinceBootOrResume))
            else Err(BadTimestampParameter)
  {
    var text := [Identifier("timestamp"), LParen, Identifier(clock), RParen];
    if ClockNamed(clock).Some? {
      Means(cfg, Now(clock), text);
    } else {
      assert StreamOf(text) == text + [Eof];
      assert BuilderStart(text + [Eof]).None? && TimestampStart(text + [Eof]);
      assert Tokenize(cfg, Tokenized([], []), text + [Eof]).Err?;
    }
  }

  // ------------------------------------------------------------------------
  // Builders

  datatype Part = Part(name: string, text: seq<Lexeme>)

  /** `f: text, g: text`, from the part `from` on. */
  function PartsText(parts: seq<Part>, from: nat): seq<Lexeme>
    requires from <= |parts|
    decreases |parts| - from
  {
    if from == |parts| then []
    else
      (if from > 0 then [CommaSign] else [])
          + ([Identifier(parts[from].name), Colon] + parts[from].text + PartsText(parts, from + 1))
  }

  /** Distinct names without dots, each with a text that can be read. */
  predicate AreParts(cfg: Config, parts: seq<Part>) {
    && (forall i | 0 <= i < |parts| :: '.' !in parts[i].name && Parse(cfg, parts[i].text).Some?)
    && forall i, j | 0 <= i < j < |parts| :: parts[i].name != parts[j].name
  }

  function BuilderText(ty: Option<string>, parts: seq<Part>, comma: bool): seq<Lexeme> {
    (if ty.Some? then [Identifier("new"), Identifier(ty.value)] else [])
        + [LCurly] + (PartsText(parts, 0) + (if comma then [CommaSign] else []) + [RCurly])
  }

  function Inits(cfg: Config, parts: seq<Part>): (fields: seq<FieldInit>)
    requires AreParts(cfg, parts)
  {
    seq(|parts|, i requires 0 <= i < |parts| => FieldInit(parts[i].name, Parse(cfg, parts[i].text).value))
  }

  lemma {:induction false} PartsSpelt(cfg: Config, parts: seq<Part>, from: nat)
    requires AreParts(cfg, parts) && from <= |parts|
    ensures
      var fields := Inits(cfg, parts);
      && (forall i | 0 <= i < |fields| :: Operands(fields[i].value) && WellFormed(cfg, fields[i].value, false))
      && PrintFields(fields, from) == PartsText(parts, from)
    decreases |parts| - from
  {
    var fields := Inits(cfg, parts);
    forall i | 0 <= i < |fields|
      ensures Operands(fields[i].value) && WellFormed(cfg, fields[i].value, false)
              && Print(fields[i].value) == parts[i].text {
      var e := Spelt(cfg, parts[i].text);
    }
    if from < |parts| {
      PartsSpelt(cfg, parts, from + 1);
    }
  }

  lemma {:induction false} PartOutcome(cfg: Config, parts: seq<Part>, i: nat)
    requires AreParts(cfg, parts) && i < |parts|
    ensures
      var e := Inits(cfg, parts)[i].value;
      Operands(e) && TreeOf(cfg, parts[i].text) == Judged(cfg, HasChain(e), Meaning(e))
  {
    var e := Spelt(cfg, parts[i].text);
  }

  /** The trees of the parts, each under its name. */
  function Filled(cfg: Config, parts: seq<Part>): seq<Assign>
    requires forall i | 0 <= i < |parts| :: TreeOf(cfg, parts[i].text).Ok?
  {
    seq(|parts|, i requires 0 <= i < |parts| => Assign(parts[i].name, TreeOf(cfg, parts[i].text).value))
  }

  /** `new T { f: a, g: b }`, with any number of fields, with or without a type and a last comma. */
  lemma {:induction false} BuilderMeans(cfg: Config, ty: Option<string>, parts: seq<Part>, comma: bool)
    requires AreParts(cfg, parts) && (ty.Some? ==> ty.value != "") && (comma ==> parts != [])
    ensures TreeOf(cfg, BuilderText(ty, parts, comma))
         == if forall i | 0 <= i < |parts| :: TreeOf(cfg, parts[i].text).Ok? then Ok(Builder(ty, Filled(cfg, parts)))
            else Err(ComparisonChaining)
  {
    PartsSpelt(cfg, parts, 0);
    var e := Build(ty, Inits(cfg, parts), comma);
    Means(cfg, e, BuilderText(ty, parts, comma));
    forall i | 0 <= i < |parts|
      ensures TreeOf(cfg, parts[i].text) == Judged(cfg, HasChain(e.fields[i].value), Meaning(e.fields[i].value)) {
      PartOutcome(cfg, parts, i);
    }
    BuilderJudged(cfg, ty, parts, comma);
  }

  lemma {:induction false} BuilderJudged(cfg: Config, ty: Option<string>, parts: seq<Part>, comma: bool)
    requires AreParts(cfg, parts) && (ty.Some? ==> ty.value != "")
    requires
      var e := Build(ty, Inits(cfg, parts), comma);
      Operands(e) && forall i | 0 <= i < |parts| ::
        TreeOf(cfg, parts[i].text) == Judged(cfg, HasChain(e.fields[i].value), Meaning(e.fields[i].value))
    ensures
      var e := Build(ty, Inits(cfg, parts), comma);
      if forall i | 0 <= i < |parts| :: TreeOf(cfg, parts[i].text).Ok?
      then Judged(cfg, HasChain(e), Meaning(e)) == Ok(Builder(ty, Filled(cfg, parts)))
      else Judged(cfg, HasChain(e), Meaning(e)) == Err(ComparisonChaining)
  {
    var e := Build(ty, Inits(cfg, parts), comma);
    if forall i | 0 <= i < |parts| :: TreeOf(cfg, parts[i].text).Ok? {
      forall i | 0 <= i < |parts| ensures Meaning(e.fields[i].value) == TreeOf(cfg, parts[i].text).value {
        assert TreeOf(cfg, parts[i].text).Ok?;
      }
      assert Meaning(e).assigns == Filled(cfg, parts);
    }
  }
}
