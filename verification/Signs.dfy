/** What a row of names with signs between them means: the rank of a sign, and the node it stands
    for, are read off tables of lexemes that share nothing with those of the compiler. */
module Signs {
  import opened Wrappers
  import opened Operators
  import opened Trees
  import opened Shunting
  import opened ShuntingSteps
  import opened ShuntingProof
  import opened Tokenizer
  import opened Grammar
  import opened ScanProof
  import opened Reference
  import opened ReferenceProof
  import opened Grouping

  /** The tree of a text. */
  function TreeOf(cfg: Config, ls: seq<Lexeme>): Result<Tree, Error> {
    var c :- CompileSource(cfg, ls);
    Ok(c.tree)
  }

  /** A tree that the strict mode refuses if it chains comparisons. */
  function Judged(cfg: Config, chain: bool, t: Tree): Result<Tree, Error> {
    if cfg.disallowChaining && chain then Err(ComparisonChaining) else Ok(t)
  }

  // ------------------------------------------------------------------------
  // The tables

  /** How tightly a sign between two operands binds; 0 if it is none. */
  function SignRank(x: Lexeme): nat {
    match x
    case BarBar => 1
    case AmpAmp => 2
    case Caret => 3
    case EqualEqual | NotEqual => 4
    case GreaterThan | GreaterThanOrEqual | LessThan | LessThanOrEqual => 5
    case PlusSign | MinusSign => 6
    case Star | Slash | Percent => 7
    case StarStar => 9
    case _ => 0
  }

  function SignNode(x: Lexeme): NodeOperator
    requires SignRank(x) > 0
  {
    match x
    case BarBar => Logical(OR)
    case AmpAmp => Logical(AND)
    case Caret => Logical(XOR)
    case EqualEqual => Relational(EQ)
    case NotEqual => Relational(NOT_EQ)
    case GreaterThan => Relational(GT)
    case GreaterThanOrEqual => Relational(GT_OR_EQ)
    case LessThan => Relational(LT)
    case LessThanOrEqual => Relational(LT_OR_EQ)
    case PlusSign => Arithmetic(ADD)
    case MinusSign => Arithmetic(SUBTRACT)
    case Star => Arithmetic(MULTIPLY)
    case Slash => Arithmetic(DIVIDE)
    case Percent => Arithmetic(MODULO_TRUNC)
    case StarStar => Arithmetic(POWER)
  }

  predicate Compares(x: Lexeme) { SignRank(x) == 4 || SignRank(x) == 5 }

  const FUNCTIONS := {"alleq", "contains", "doesnotcontain", "floor", "round", "ceil", "abs", "length"}

  /** `parts` with dots between them. */
  function Dotted(parts: seq<string>): string
    requires parts != []
  {
    if |parts| == 1 then parts[0] else parts[0] + "." + Dotted(parts[1..])
  }

  predicate IsPart(p: string) { p != "" && '.' !in p }

  /** The parts of a source path. */
  predicate IsWord(parts: seq<string>) {
    parts != [] && (forall i | 0 <= i < |parts| :: IsPart(parts[i])) && Dotted(parts) !in FUNCTIONS
  }

  function Named(parts: seq<string>): Tree
    requires parts != []
  {
    SourceField(parts[0], parts[1..])
  }

  // ------------------------------------------------------------------------
  // Splitting at dots undoes joining with them

  lemma {:induction false} SplitPart(p: string)
    requires '.' !in p
    ensures SplitDots(p) == [p]
  {
    if p != "" {
      SplitPart(p[1..]);
      assert [p[0]] + p[1..] == p;
    }
  }

  lemma {:induction false} SplitFirst(p: string, s: string)
    requires '.' !in p
    ensures SplitDots(p + "." + s) == [p] + SplitDots(s)
  {
    if p == "" {
      assert p + "." + s == "." + s;
    } else {
      SplitFirst(p[1..], s);
      assert (p + "." + s)[1..] == p[1..] + "." + s;
      assert [p[0]] + p[1..] == p;
    }
  }

  lemma {:induction false} SplitJoined(parts: seq<string>)
    requires parts != [] && forall i | 0 <= i < |parts| :: '.' !in parts[i]
    ensures SplitDots(Dotted(parts)) == parts
  {
    if |parts| == 1 {
      SplitPart(parts[0]);
    } else {
      SplitJoined(parts[1..]);
      SplitFirst(parts[0], Dotted(parts[1..]));
    }
  }

  lemma {:induction false} JoinSplit(s: string)
    ensures Dotted(SplitDots(s)) == s && forall i | 0 <= i < |SplitDots(s)| :: '.' !in SplitDots(s)[i]
  {
    if s != "" {
      JoinSplit(s[1..]);
      var parts := SplitDots(s[1..]);
      if s[0] == '.' {
        assert ([""] + parts)[1..] == parts;
        assert "" + "." + s[1..] == s;
      } else {
        assert ([[s[0]] + parts[0]] + parts[1..])[1..] == parts[1..];
        assert s == [s[0]] + s[1..];
      }
    }
  }

  /** The parts of a path are the pieces between its dots: what splitting gives is the one list of
      pieces without dots that joins to the path. */
  lemma {:induction false} PartsBetweenDots(s: string, parts: seq<string>)
    requires parts != []
    ensures SplitDots(s) == parts <==> Dotted(parts) == s && forall i | 0 <= i < |parts| :: '.' !in parts[i]
  {
    JoinSplit(s);
    if Dotted(parts) == s && forall i | 0 <= i < |parts| :: '.' !in parts[i] {
      SplitJoined(parts);
    }
  }

  lemma {:induction false} WordMeans(parts: seq<string>)
    requires IsWord(parts)
    ensures PathOk(Dotted(parts)) && Meaning(Name(Dotted(parts))) == Named(parts)
  {
    SplitJoined(parts);
    forall i | 0 <= i < |parts| ensures parts[i] != "" && '.' !in parts[i] {
      assert IsPart(parts[i]);
    }
    NotAFunction(Dotted(parts));
  }

  lemma NotAFunction(s: string)
    ensures FunctionNamed(s).None? <==> s !in FUNCTIONS
  {
  }

  // ------------------------------------------------------------------------
  // Rows of names and signs

  /** Whether `y`, to the right of `x`, belongs to the right operand of `x`: it binds more tightly,
      or both are powers and these group to the right. */
  predicate Within(toRight: bool, x: Lexeme, y: Lexeme) {
    SignRank(x) < SignRank(y) || (toRight && x.StarStar? && y.StarStar?)
  }

  predicate Row(ws: seq<seq<string>>, xs: seq<Lexeme>) {
    |ws| == |xs| + 1 && (forall i | 0 <= i < |ws| :: IsWord(ws[i])) && forall i | 0 <= i < |xs| :: SignRank(xs[i]) > 0
  }

  function RowText(ws: seq<seq<string>>, xs: seq<Lexeme>): seq<Lexeme>
    requires Row(ws, xs)
  {
    [Identifier(Dotted(ws[0]))] + if xs == [] then [] else [xs[0]] + RowText(ws[1..], xs[1..])
  }

  /** The sign that is applied last. */
  function Top(toRight: bool, xs: seq<Lexeme>): (k: nat)
    requires xs != []
    ensures k < |xs|
  {
    if |xs| == 1 then 0
    else
      var k := Top(toRight, xs[1..]) + 1;
      if Within(toRight, xs[0], xs[k]) then 0 else k
  }

  /** What a row means: the last sign joins what is left of it and what is right of it. */
  function Reading(toRight: bool, ws: seq<seq<string>>, xs: seq<Lexeme>): Tree
    requires Row(ws, xs)
    decreases |xs|
  {
    if xs == [] then Named(ws[0])
    else
      var k := Top(toRight, xs);
      Binary(SignNode(xs[k]), Reading(toRight, ws[..k + 1], xs[..k]), Reading(toRight, ws[k + 1..], xs[k + 1..]))
  }

  /** Two comparisons with nothing looser than a comparison between them. */
  predicate RowChain(xs: seq<Lexeme>) {
    exists i, j | 0 <= i < j < |xs| :: ChainAt(xs, i, j)
  }

  predicate ChainAt(xs: seq<Lexeme>, i: nat, j: nat)
    requires i < j < |xs|
  {
    Compares(xs[i]) && Compares(xs[j]) && forall k | i < k < j :: SignRank(xs[k]) > 3
  }

  lemma {:induction false} TopIsLast(toRight: bool, xs: seq<Lexeme>)
    requires xs != []
    ensures
      var k := Top(toRight, xs);
      && (forall j | 0 <= j < k :: !Within(toRight, xs[j], xs[k]))
      && (forall j | k < j < |xs| :: Within(toRight, xs[k], xs[j]))
  {
    if |xs| > 1 {
      var rest, k := xs[1..], Top(toRight, xs);
      TopIsLast(toRight, rest);
      var m := Top(toRight, rest) + 1;
      forall j | 0 < j < m ensures !Within(toRight, xs[j], xs[m]) {
        assert rest[j - 1] == xs[j];
      }
      forall j | m < j < |xs| ensures Within(toRight, xs[m], xs[j]) {
        assert rest[j - 1] == xs[j];
      }
      forall j | k < j < |xs| ensures Within(toRight, xs[k], xs[j]) {
        Transitive(toRight, xs, m, j);
      }
    }
  }

  lemma Transitive(toRight: bool, xs: seq<Lexeme>, m: nat, j: nat)
    requires 0 < j < |xs| && 0 < m < |xs|
    requires j < m ==> !Within(toRight, xs[j], xs[m])
    requires m < j ==> Within(toRight, xs[m], xs[j])
    ensures Within(toRight, xs[0], xs[m]) ==> Within(toRight, xs[0], xs[j])
  {
  }

  // ------------------------------------------------------------------------
  // The expression a row spells

  lemma SignIsOperator(x: Lexeme)
    requires SignRank(x) > 0
    ensures InfixOf(x).Some? && IsInfix(InfixOf(x).value)
    ensures
      var op := InfixOf(x).value;
      && InfixLexeme(op) == x && Rank(op) == SignRank(x) && ToNodeOperator(op) == SignNode(x)
      && IsComparison(op) == Compares(x) && op.Power? == x.StarStar?
  {
  }

  lemma OperatorIsSign(op: Operator)
    requires IsInfix(op)
    ensures SignRank(InfixLexeme(op)) == Rank(op) > 0 && InfixOf(InfixLexeme(op)) == Some(op)
    ensures op.Power? == InfixLexeme(op).StarStar?
  {
  }

  lemma {:induction false} RowParts(ws: seq<seq<string>>, xs: seq<Lexeme>, k: nat)
    requires Row(ws, xs) && k < |xs|
    ensures Row(ws[..k + 1], xs[..k]) && Row(ws[k + 1..], xs[k + 1..])
  {
  }

  lemma {:induction false} RowSplits(ws: seq<seq<string>>, xs: seq<Lexeme>, k: nat)
    requires Row(ws, xs) && k < |xs| && Row(ws[..k + 1], xs[..k]) && Row(ws[k + 1..], xs[k + 1..])
    ensures RowText(ws, xs) == RowText(ws[..k + 1], xs[..k]) + ([xs[k]] + RowText(ws[k + 1..], xs[k + 1..]))
  {
    if k > 0 {
      RowParts(ws, xs, 0);
      RowParts(ws[1..], xs[1..], k - 1);
      assert ws[1..][..k] == ws[..k + 1][1..] && xs[1..][..k - 1] == xs[..k][1..];
      assert ws[1..][k..] == ws[k + 1..] && xs[1..][k..] == xs[k + 1..];
      RowSplits(ws[1..], xs[1..], k - 1);
    }
  }

  function RowExpr(toRight: bool, ws: seq<seq<string>>, xs: seq<Lexeme>): Expr
    requires Row(ws, xs)
    decreases |xs|
  {
    if xs == [] then Name(Dotted(ws[0]))
    else
      var k := Top(toRight, xs);
      SignIsOperator(xs[k]);
      Infix(InfixOf(xs[k]).value, RowExpr(toRight, ws[..k + 1], xs[..k]), RowExpr(toRight, ws[k + 1..], xs[k + 1..]))
  }

  /** Only signs of the row are open at the ends of `e`. */
  predicate OpensOnly(e: Expr, xs: seq<Lexeme>) {
    forall o <- OpenLeft(e) + OpenRight(e) :: IsInfix(o) && InfixLexeme(o) in xs
  }

  predicate Spelled(toRight: bool, e: Expr, text: seq<Lexeme>, t: Tree, xs: seq<Lexeme>) {
    && Operands(e) && Print(e) == text && Meaning(e) == t && !HasFieldChain(e)
    && Placed(toRight, e, false) && Grouped(toRight, e) && OpensOnly(e, xs)
  }

  lemma {:induction false} JoinText(toRight: bool, x: Lexeme, l: Expr, r: Expr)
    requires SignRank(x) > 0 && InfixOf(x).Some? && Operands(l) && Operands(r)
    requires !HasFieldChain(l) && !HasFieldChain(r) && Placed(toRight, l, false) && Placed(toRight, r, false)
    ensures
      var e := Infix(InfixOf(x).value, l, r);
      && Operands(e) && Print(e) == Print(l) + ([x] + Print(r)) && !HasFieldChain(e) && Placed(toRight, e, false)
      && Meaning(e) == Binary(SignNode(x), Meaning(l), Meaning(r))
  {
    SignIsOperator(x);
  }

  lemma {:induction false} JoinGroups(toRight: bool, x: Lexeme, l: Expr, ls: seq<Lexeme>, r: Expr, rs: seq<Lexeme>)
    requires SignRank(x) > 0 && InfixOf(x).Some? && Grouped(toRight, l) && Grouped(toRight, r)
    requires OpensOnly(l, ls) && OpensOnly(r, rs)
    requires forall y <- ls :: !Within(toRight, y, x)
    requires forall y <- rs :: Within(toRight, x, y)
    ensures Grouped(toRight, Infix(InfixOf(x).value, l, r))
  {
    var op := InfixOf(x).value;
    forall o | o in OpenRight(l) ensures Rank(o) > Rank(op) || (Rank(o) == Rank(op) && !(toRight && op.Power?)) {
      assert o in OpenLeft(l) + OpenRight(l);
      LeftOfSign(toRight, o, x);
    }
    forall o | o in OpenLeft(r) ensures Rank(o) > Rank(op) || (toRight && op.Power? && o.Power?) {
      assert o in OpenLeft(r) + OpenRight(r);
      RightOfSign(toRight, x, o);
    }
  }

  lemma LeftOfSign(toRight: bool, o: Operator, x: Lexeme)
    requires SignRank(x) > 0 && InfixOf(x).Some? && IsInfix(o) && !Within(toRight, InfixLexeme(o), x)
    ensures
      var op := InfixOf(x).value;
      Rank(o) > Rank(op) || (Rank(o) == Rank(op) && !(toRight && op.Power?))
  {
    SignIsOperator(x);
    OperatorIsSign(o);
    var op := InfixOf(x).value;
    if Rank(o) == Rank(op) {
      SamePower(o, op);
    }
  }

  lemma RightOfSign(toRight: bool, x: Lexeme, o: Operator)
    requires SignRank(x) > 0 && InfixOf(x).Some? && IsInfix(o) && Within(toRight, x, InfixLexeme(o))
    ensures
      var op := InfixOf(x).value;
      Rank(o) > Rank(op) || (toRight && op.Power? && o.Power?)
  {
    SignIsOperator(x);
    OperatorIsSign(o);
  }

  lemma {:induction false} JoinOpens(x: Lexeme, l: Expr, ls: seq<Lexeme>, r: Expr, rs: seq<Lexeme>)
    requires SignRank(x) > 0 && InfixOf(x).Some? && OpensOnly(l, ls) && OpensOnly(r, rs)
    ensures OpensOnly(Infix(InfixOf(x).value, l, r), ls + [x] + rs)
  {
    SignIsOperator(x);
    var op := InfixOf(x).value;
    var e, all := Infix(op, l, r), ls + [x] + rs;
    assert all[|ls|] == x;
    forall o | o in OpenLeft(e) + OpenRight(e) ensures IsInfix(o) && InfixLexeme(o) in all {
      assert o == op || o in OpenLeft(l) + OpenRight(l) || o in OpenLeft(r) + OpenRight(r);
    }
  }

  lemma {:induction false} JoinSpelled(toRight: bool, x: Lexeme, l: Expr, lt: seq<Lexeme>, lm: Tree, ls: seq<Lexeme>,
                                       r: Expr, rt: seq<Lexeme>, rm: Tree, rs: seq<Lexeme>)
    requires SignRank(x) > 0 && InfixOf(x).Some?
    requires Spelled(toRight, l, lt, lm, ls) && Spelled(toRight, r, rt, rm, rs)
    requires forall y <- ls :: !Within(toRight, y, x)
    requires forall y <- rs :: Within(toRight, x, y)
    ensures Spelled(toRight, Infix(InfixOf(x).value, l, r), lt + ([x] + rt), Binary(SignNode(x), lm, rm),
                    ls + [x] + rs)
  {
    JoinText(toRight, x, l, r);
    JoinGroups(toRight, x, l, ls, r, rs);
    JoinOpens(x, l, ls, r, rs);
  }

  lemma SamePower(o: Operator, op: Operator)
    requires IsInfix(o) && IsInfix(op) && Rank(o) == Rank(op)
    ensures o.Power? == op.Power?
  {
  }

  lemma {:induction false} JoinAtTop(toRight: bool, xs: seq<Lexeme>, l: Expr, lt: seq<Lexeme>, lm: Tree,
                                     r: Expr, rt: seq<Lexeme>, rm: Tree)
    requires xs != [] && forall i | 0 <= i < |xs| :: SignRank(xs[i]) > 0
    requires
      var k := Top(toRight, xs);
      Spelled(toRight, l, lt, lm, xs[..k]) && Spelled(toRight, r, rt, rm, xs[k + 1..])
    ensures
      var x := xs[Top(toRight, xs)];
      && InfixOf(x).Some?
      && Spelled(toRight, Infix(InfixOf(x).value, l, r), lt + ([x] + rt), Binary(SignNode(x), lm, rm), xs)
  {
    var k := Top(toRight, xs);
    TopIsLast(toRight, xs);
    SignIsOperator(xs[k]);
    assert xs == xs[..k] + [xs[k]] + xs[k + 1..];
    JoinSpelled(toRight, xs[k], l, lt, lm, xs[..k], r, rt, rm, xs[k + 1..]);
  }

  lemma {:induction false} ExprUnfolds(toRight: bool, ws: seq<seq<string>>, xs: seq<Lexeme>, k: nat)
    requires Row(ws, xs) && xs != [] && k == Top(toRight, xs) && InfixOf(xs[k]).Some?
    requires Row(ws[..k + 1], xs[..k]) && Row(ws[k + 1..], xs[k + 1..])
    ensures RowExpr(toRight, ws, xs) == Infix(InfixOf(xs[k]).value, RowExpr(toRight, ws[..k + 1], xs[..k]),
                                              RowExpr(toRight, ws[k + 1..], xs[k + 1..]))
  {
  }

  lemma {:induction false} ReadingUnfolds(toRight: bool, ws: seq<seq<string>>, xs: seq<Lexeme>, k: nat)
    requires Row(ws, xs) && xs != [] && k == Top(toRight, xs)
    requires Row(ws[..k + 1], xs[..k]) && Row(ws[k + 1..], xs[k + 1..])
    ensures Reading(toRight, ws, xs) == Binary(SignNode(xs[k]), Reading(toRight, ws[..k + 1], xs[..k]),
                                               Reading(toRight, ws[k + 1..], xs[k + 1..]))
  {
  }

  lemma {:induction false} RowSpelled(toRight: bool, ws: seq<seq<string>>, xs: seq<Lexeme>)
    requires Row(ws, xs)
    ensures Spelled(toRight, RowExpr(toRight, ws, xs), RowText(ws, xs), Reading(toRight, ws, xs), xs)
    decreases |xs|
  {
    if xs == [] {
      WordMeans(ws[0]);
    } else {
      var k := Top(toRight, xs);
      RowParts(ws, xs, k);
      RowSplits(ws, xs, k);
      SignIsOperator(xs[k]);
      ExprUnfolds(toRight, ws, xs, k);
      ReadingUnfolds(toRight, ws, xs, k);
      var lw, lx, rw, rx := ws[..k + 1], xs[..k], ws[k + 1..], xs[k + 1..];
      RowSpelled(toRight, lw, lx);
      RowSpelled(toRight, rw, rx);
      JoinAtTop(toRight, xs, RowExpr(toRight, lw, lx), RowText(lw, lx), Reading(toRight, lw, lx),
          RowExpr(toRight, rw, rx), RowText(rw, rx), Reading(toRight, rw, rx));
    }
  }

  // ------------------------------------------------------------------------
  // When it chains comparisons

  predicate TopCompares(toRight: bool, xs: seq<Lexeme>) { xs != [] && Compares(xs[Top(toRight, xs)]) }

  lemma {:induction false} TopIsLoosest(toRight: bool, xs: seq<Lexeme>)
    requires xs != []
    ensures forall j | 0 <= j < |xs| :: SignRank(xs[j]) >= SignRank(xs[Top(toRight, xs)])
  {
    TopIsLast(toRight, xs);
  }

  lemma {:induction false} ChainWithin(xs: seq<Lexeme>, from: nat, to: nat)
    requires from <= to <= |xs|
    ensures RowChain(xs[from..to]) <==> exists i, j | from <= i < j < to :: ChainAt(xs, i, j)
  {
    var part := xs[from..to];
    forall i, j | from <= i < j < to ensures ChainAt(xs, i, j) <==> ChainAt(part, i - from, j - from) {
      ShiftChain(xs, from, to, i, j);
    }
    if RowChain(part) {
      var i, j :| 0 <= i < j < |part| && ChainAt(part, i, j);
      ShiftChain(xs, from, to, i + from, j + from);
    }
  }

  lemma {:induction false} ShiftChain(xs: seq<Lexeme>, from: nat, to: nat, i: nat, j: nat)
    requires from <= i < j < to <= |xs|
    ensures ChainAt(xs, i, j) <==> ChainAt(xs[from..to], i - from, j - from)
  {
    var part := xs[from..to];
    assert part[i - from] == xs[i] && part[j - from] == xs[j];
    if ChainAt(part, i - from, j - from) {
      forall k | i < k < j ensures SignRank(xs[k]) > 3 {
        assert part[k - from] == xs[k];
      }
    }
  }

  lemma {:induction false} SideCompares(toRight: bool, xs: seq<Lexeme>, from: nat, to: nat)
    requires from <= to <= |xs| && forall j | 0 <= j < |xs| :: SignRank(xs[j]) > 3
    ensures TopCompares(toRight, xs[from..to]) <==> exists i | from <= i < to :: Compares(xs[i])
  {
    var part := xs[from..to];
    if part != [] {
      TopIsLoosest(toRight, part);
      var t := Top(toRight, part);
      assert part[t] == xs[from + t];
      if i :| from <= i < to && Compares(xs[i]) {
        assert part[i - from] == xs[i];
      }
    }
  }

  /** Where the chains of `xs` are, split at `k`: left of it, right of it, or at it. */
  predicate SplitChain(toRight: bool, xs: seq<Lexeme>, k: nat)
    requires k < |xs|
  {
    || RowChain(xs[..k]) || RowChain(xs[k + 1..])
    || (Compares(xs[k]) && (TopCompares(toRight, xs[..k]) || TopCompares(toRight, xs[k + 1..])))
  }

  lemma {:induction false} ChainSides(xs: seq<Lexeme>, k: nat)
    requires k < |xs|
    ensures RowChain(xs[..k]) <==> exists i, j | 0 <= i < j < k :: ChainAt(xs, i, j)
    ensures RowChain(xs[k + 1..]) <==> exists i, j | k < i < j < |xs| :: ChainAt(xs, i, j)
  {
    assert xs[0..k] == xs[..k] && xs[k + 1..|xs|] == xs[k + 1..];
    ChainWithin(xs, 0, k);
    ChainWithin(xs, k + 1, |xs|);
  }

  lemma {:induction false} ComparingTop(toRight: bool, xs: seq<Lexeme>)
    requires xs != [] && Compares(xs[Top(toRight, xs)])
    ensures RowChain(xs) <==> SplitChain(toRight, xs, Top(toRight, xs))
  {
    var k := Top(toRight, xs);
    TopIsLoosest(toRight, xs);
    ChainSides(xs, k);
    SideCompares(toRight, xs, 0, k);
    SideCompares(toRight, xs, k + 1, |xs|);
    assert xs[0..k] == xs[..k] && xs[k + 1..|xs|] == xs[k + 1..];
    ComparisonOnTop(xs, k);
  }

  lemma {:induction false} OtherTop(toRight: bool, xs: seq<Lexeme>)
    requires xs != [] && !Compares(xs[Top(toRight, xs)])
    ensures RowChain(xs) <==> SplitChain(toRight, xs, Top(toRight, xs))
  {
    var k := Top(toRight, xs);
    TopIsLoosest(toRight, xs);
    ChainSides(xs, k);
    forall i, j | 0 <= i < j < |xs| && ChainAt(xs, i, j) ensures j < k || k < i {
    }
  }

  lemma {:induction false} ComparisonOnTop(xs: seq<Lexeme>, k: nat)
    requires k < |xs| && Compares(xs[k]) && forall j | 0 <= j < |xs| :: SignRank(xs[j]) > 3
    ensures RowChain(xs) <==> exists i | 0 <= i < |xs| :: i != k && Compares(xs[i])
  {
    forall i | 0 <= i < |xs| && i != k && Compares(xs[i]) ensures RowChain(xs) {
      assert i < k ==> ChainAt(xs, i, k);
      assert k < i ==> ChainAt(xs, k, i);
    }
  }

  lemma {:induction false} JoinChains(x: Lexeme, l: Expr, r: Expr)
    requires SignRank(x) > 0 && InfixOf(x).Some?
    ensures
      var e := Infix(InfixOf(x).value, l, r);
      && (HasOwnChain(e) <==> (HasOwnChain(l) || HasOwnChain(r) || (Compares(x) && (IsChainLink(l) || IsChainLink(r)))))
      && (IsChainLink(e) <==> Compares(x))
  {
    SignIsOperator(x);
  }

  lemma {:induction false} ChainsAgree(toRight: bool, xs: seq<Lexeme>, l: Expr, r: Expr)
    requires xs != [] && SignRank(xs[Top(toRight, xs)]) > 0 && InfixOf(xs[Top(toRight, xs)]).Some?
    requires HasOwnChain(l) == RowChain(xs[..Top(toRight, xs)])
    requires IsChainLink(l) == TopCompares(toRight, xs[..Top(toRight, xs)])
    requires HasOwnChain(r) == RowChain(xs[Top(toRight, xs) + 1..])
    requires IsChainLink(r) == TopCompares(toRight, xs[Top(toRight, xs) + 1..])
    ensures
      var e := Infix(InfixOf(xs[Top(toRight, xs)]).value, l, r);
      HasOwnChain(e) == RowChain(xs) && IsChainLink(e) == TopCompares(toRight, xs)
  {
    JoinChains(xs[Top(toRight, xs)], l, r);
    if Compares(xs[Top(toRight, xs)]) {
      ComparingTop(toRight, xs);
    } else {
      OtherTop(toRight, xs);
    }
  }

  lemma {:induction false} RowChains(toRight: bool, ws: seq<seq<string>>, xs: seq<Lexeme>)
    requires Row(ws, xs)
    ensures HasOwnChain(RowExpr(toRight, ws, xs)) == RowChain(xs)
    ensures IsChainLink(RowExpr(toRight, ws, xs)) == TopCompares(toRight, xs)
    decreases |xs|
  {
    if xs != [] {
      var k := Top(toRight, xs);
      RowParts(ws, xs, k);
      SignIsOperator(xs[k]);
      RowChains(toRight, ws[..k + 1], xs[..k]);
      RowChains(toRight, ws[k + 1..], xs[k + 1..]);
      ChainsAgree(toRight, xs, RowExpr(toRight, ws[..k + 1], xs[..k]), RowExpr(toRight, ws[k + 1..], xs[k + 1..]));
      ExprUnfolds(toRight, ws, xs, k);
    }
  }

  // ------------------------------------------------------------------------

  /** An expression and its place among texts: what it compiles to. */
  lemma {:induction false} SpelledCompiles(cfg: Config, e: Expr)
    requires Operands(e) && Placed(cfg.rightAssociativePower, e, false) && Grouped(cfg.rightAssociativePower, e)
    ensures TreeOf(cfg, Print(e)) == Judged(cfg, HasChain(e), Meaning(e))
  {
    GroupedJustWhen(cfg, e, false);
    SourceMeans(cfg, e);
  }

  /** A row of any length compiles to its reading; the strict mode rejects it just when two of its
      comparisons have nothing looser than a comparison between them. */
  lemma {:induction false} RowMeans(cfg: Config, ws: seq<seq<string>>, xs: seq<Lexeme>)
    requires Row(ws, xs)
    ensures TreeOf(cfg, RowText(ws, xs))
         == Judged(cfg, RowChain(xs), Reading(cfg.rightAssociativePower, ws, xs))
  {
    var right := cfg.rightAssociativePower;
    RowSpelled(right, ws, xs);
    RowChains(right, ws, xs);
    SpelledCompiles(cfg, RowExpr(right, ws, xs));
  }

  /** `a x b y c` */
  lemma {:induction false} TwoSigns(cfg: Config, a: seq<string>, x: Lexeme, b: seq<string>, y: Lexeme, c: seq<string>)
    requires IsWord(a) && IsWord(b) && IsWord(c) && SignRank(x) > 0 && SignRank(y) > 0
    ensures
      var text := [Identifier(Dotted(a)), x, Identifier(Dotted(b)), y, Identifier(Dotted(c))];
      TreeOf(cfg, text)
          == if cfg.disallowChaining && Compares(x) && Compares(y) then Err(ComparisonChaining)
             else if SignRank(x) < SignRank(y) || (cfg.rightAssociativePower && x.StarStar? && y.StarStar?)
             then Ok(Binary(SignNode(x), Named(a), Binary(SignNode(y), Named(b), Named(c))))
             else Ok(Binary(SignNode(y), Binary(SignNode(x), Named(a), Named(b)), Named(c)))
  {
    ThreeWords(a, x, b, y, c);
    RowMeans(cfg, [a, b, c], [x, y]);
    TwoSignsText(a, x, b, y, c);
    TwoSignsReading(cfg.rightAssociativePower, a, x, b, y, c);
    assert RowChain([x, y]) <==> ChainAt([x, y], 0, 1);
  }

  lemma {:induction false} ThreeWords(a: seq<string>, x: Lexeme, b: seq<string>, y: Lexeme, c: seq<string>)
    requires IsWord(a) && IsWord(b) && IsWord(c) && SignRank(x) > 0 && SignRank(y) > 0
    ensures Row([a, b, c], [x, y]) && Row([a, b], [x]) && Row([b, c], [y]) && Row([a], []) && Row([c], [])
  {
  }

  lemma {:induction false} TwoSignsText(a: seq<string>, x: Lexeme, b: seq<string>, y: Lexeme, c: seq<string>)
    requires IsWord(a) && IsWord(b) && IsWord(c) && SignRank(x) > 0 && SignRank(y) > 0 && Row([a, b, c], [x, y])
    ensures RowText([a, b, c], [x, y])
         == [Identifier(Dotted(a)), x, Identifier(Dotted(b)), y, Identifier(Dotted(c))]
  {
    ThreeWords(a, x, b, y, c);
    assert [a, b, c][1..] == [b, c] && [x, y][1..] == [y];
    assert [b, c][1..] == [c] && [y][1..] == [];
    assert RowText([c], []) == [Identifier(Dotted(c))];
    assert RowText([b, c], [y]) == [Identifier(Dotted(b))] + ([y] + RowText([c], []));
  }

  lemma {:induction false} TwoSignsReading(toRight: bool, a: seq<string>, x: Lexeme, b: seq<string>, y: Lexeme,
                                           c: seq<string>)
    requires IsWord(a) && IsWord(b) && IsWord(c) && SignRank(x) > 0 && SignRank(y) > 0 && Row([a, b, c], [x, y])
    ensures Reading(toRight, [a, b, c], [x, y])
         == if Within(toRight, x, y) then Binary(SignNode(x), Named(a), Binary(SignNode(y), Named(b), Named(c)))
            else Binary(SignNode(y), Binary(SignNode(x), Named(a), Named(b)), Named(c))
  {
    ThreeWords(a, x, b, y, c);
    TopOfTwo(toRight, x, y);
    OneSign(toRight, a, x, b);
    OneSign(toRight, b, y, c);
    if Within(toRight, x, y) {
      ThreeWordsAt(a, x, b, y, c, 0);
    } else {
      ThreeWordsAt(a, x, b, y, c, 1);
    }
    ReadingUnfolds(toRight, [a, b, c], [x, y], Top(toRight, [x, y]));
  }

  lemma TopOfTwo(toRight: bool, x: Lexeme, y: Lexeme)
    ensures Top(toRight, [x, y]) == if Within(toRight, x, y) then 0 else 1
  {
    assert [x, y][1..] == [y] && Top(toRight, [y]) == 0;
  }

  lemma ThreeWordsAt(a: seq<string>, x: Lexeme, b: seq<string>, y: Lexeme, c: seq<string>, k: nat)
    requires k <= 1
    ensures [a, b, c][..k + 1] == (if k == 0 then [a] else [a, b])
    ensures [a, b, c][k + 1..] == (if k == 0 then [b, c] else [c])
    ensures [x, y][..k] == (if k == 0 then [] else [x]) && [x, y][k + 1..] == (if k == 0 then [y] else [])
  {
  }

  lemma {:induction false} OneSign(toRight: bool, a: seq<string>, x: Lexeme, b: seq<string>)
    requires IsWord(a) && IsWord(b) && SignRank(x) > 0 && Row([a, b], [x])
    ensures Reading(toRight, [a, b], [x]) == Binary(SignNode(x), Named(a), Named(b))
  {
    ThreeWords(a, x, b, x, b);
    var ws, xs, none := [a, b], [x], [];
    assert Top(toRight, xs) == 0;
    assert ws[..1] == [a] && ws[1..] == [b] && xs[..0] == none && xs[1..] == none;
    ReadingUnfolds(toRight, ws, xs, 0);
    assert Reading(toRight, [a], none) == Named(a) && Reading(toRight, [b], none) == Named(b);
  }
}
