/** What prefix operators, parentheses, calls, subscripts, fields, clocks, builders and constants
    mean, by the lexemes they are written with. As in `Signs`, no table of the compiler is mentioned. */
module Texts {
  import opened Wrappers
  import opened Operators
  import opened Trees
  import opened Shunting
  import opened ShuntingSteps
  import opened ShuntingProof
  import opened Tokenizer
  import opened Grammar
  import opened ScanProof
  import opened Reference
  import opened Grouping
  import opened Signs

  // ------------------------------------------------------------------------
  // Building blocks: an expression without builders, its text and its tree

  predicate Stands(toRight: bool, e: Expr, text: seq<Lexeme>, t: Tree) {
    && Operands(e) && Print(e) == text && Meaning(e) == t && !HasFieldChain(e)
    && Placed(toRight, e, false) && Grouped(toRight, e)
  }

  /** `a` */
  lemma {:induction false} WordStands(toRight: bool, parts: seq<string>) returns (e: Expr)
    requires IsWord(parts)
    ensures Stands(toRight, e, [Identifier(Dotted(parts))], Named(parts))
    ensures e.Name? && OpenLeft(e) == OpenRight(e) == {} && Placed(toRight, e, true)
    ensures !StartsWithNumber(e) && !HasOwnChain(e) && !IsChainLink(e) && !EndsInBuilder(e)
  {
    WordMeans(parts);
    e := Name(Dotted(parts));
  }

  lemma {:induction false} InfixReads(toRight: bool, op: Operator, l: Expr, r: Expr)
    requires IsInfix(op) && Operands(l) && Operands(r) && !HasFieldChain(l) && !HasFieldChain(r)
    requires Placed(toRight, l, false) && Placed(toRight, r, false)
    ensures
      var e := Infix(op, l, r);
      && Operands(e) && Print(e) == Print(l) + ([InfixLexeme(op)] + Print(r))
      && Meaning(e) == Binary(ToNodeOperator(op), Meaning(l), Meaning(r)) && !HasFieldChain(e)
      && Placed(toRight, e, false) && (Placed(toRight, l, true) ==> Placed(toRight, e, true))
      && StartsWithNumber(e) == StartsWithNumber(l)
  {
  }

  lemma {:induction false} InfixGrouped(toRight: bool, op: Operator, l: Expr, r: Expr)
    requires Grouped(toRight, l) && Grouped(toRight, r)
    requires forall o <- OpenRight(l) :: Rank(o) > Rank(op) || (Rank(o) == Rank(op) && !(toRight && op.Power?))
    requires forall o <- OpenLeft(r) :: Rank(o) > Rank(op) || (toRight && op.Power? && o.Power?)
    ensures
      var e := Infix(op, l, r);
      && Grouped(toRight, e) && OpenLeft(e) == {op} + OpenLeft(l) && OpenRight(e) == {op} + OpenRight(r)
  {
  }

  lemma {:induction false} InfixStands(toRight: bool, x: Lexeme, l: Expr, lt: seq<Lexeme>, lm: Tree,
                                       r: Expr, rt: seq<Lexeme>, rm: Tree) returns (e: Expr)
    requires SignRank(x) > 0 && Stands(toRight, l, lt, lm) && Stands(toRight, r, rt, rm)
    requires forall o <- OpenRight(l) :: Rank(o) > SignRank(x) || (Rank(o) == SignRank(x) && !(toRight && x.StarStar?))
    requires forall o <- OpenLeft(r) :: Rank(o) > SignRank(x) || (toRight && x.StarStar? && o.Power?)
    ensures Stands(toRight, e, lt + ([x] + rt), Binary(SignNode(x), lm, rm)) && e.Infix?
    ensures Placed(toRight, l, true) ==> Placed(toRight, e, true)
    ensures forall o <- OpenRight(e) :: Rank(o) == SignRank(x) || o in OpenRight(r)
    ensures forall o <- OpenLeft(e) :: (Rank(o) == SignRank(x) && o.Power? == x.StarStar?) || o in OpenLeft(l)
    ensures HasOwnChain(e)
       <==> (HasOwnChain(l) || HasOwnChain(r) || (Compares(x) && (IsChainLink(l) || IsChainLink(r))))
    ensures (IsChainLink(e) <==> Compares(x)) && StartsWithNumber(e) == StartsWithNumber(l)
  {
    SignIsOperator(x);
    e := Infix(InfixOf(x).value, l, r);
    InfixReads(toRight, e.op, l, r);
    InfixGrouped(toRight, e.op, l, r);
    assert Rank(e.op) == SignRank(x) && e.op.Power? == x.StarStar?;
  }

  predicate IsPrefixSign(p: Lexeme) { p.MinusSign? || p.Exclamation? }

  function PrefixRank(p: Lexeme): nat { if p.MinusSign? then 6 else 8 }

  function PrefixNode(p: Lexeme): NodeOperator { if p.MinusSign? then Arithmetic(UNARY_MINUS) else Logical(NOT) }

  lemma {:induction false} PrefixReads(toRight: bool, op: Operator, a: Expr)
    requires IsPrefix(op) && Operands(a) && !HasFieldChain(a) && Placed(toRight, a, true) && !StartsWithNumber(a)
    requires Grouped(toRight, a) && forall o <- OpenLeft(a) :: Rank(o) > Rank(op)
    ensures
      var e := Prefix(op, a);
      && Operands(e) && Print(e) == [if op.Not? then Exclamation else MinusSign] + Print(a)
      && Meaning(e) == Unary(ToNodeOperator(op), Meaning(a)) && !HasFieldChain(e) && Grouped(toRight, e)
      && Placed(toRight, e, false) && Placed(toRight, e, true) && OpenLeft(e) == {}
      && OpenRight(e) == {op} + OpenRight(a)
  {
  }

  lemma {:induction false} PrefixStands(toRight: bool, p: Lexeme, a: Expr, text: seq<Lexeme>, t: Tree)
    returns (e: Expr)
    requires IsPrefixSign(p) && Stands(toRight, a, text, t) && Placed(toRight, a, true) && !StartsWithNumber(a)
    requires forall o <- OpenLeft(a) :: Rank(o) > PrefixRank(p)
    ensures Stands(toRight, e, [p] + text, Unary(PrefixNode(p), t)) && Placed(toRight, e, true)
    ensures HasOwnChain(e) == HasOwnChain(a) && !IsChainLink(e) && OpenLeft(e) == {}
    ensures forall o <- OpenRight(e) :: Rank(o) == PrefixRank(p) || o in OpenRight(a)
  {
    var op := if p.MinusSign? then UnaryMinus else Not;
    e := Prefix(op, a);
    PrefixReads(toRight, op, a);
    assert Rank(op) == PrefixRank(p) && ToNodeOperator(op) == PrefixNode(p);
  }

  /** `( e )` */
  lemma {:induction false} GroupStands(toRight: bool, e: Expr, text: seq<Lexeme>, t: Tree) returns (g: Expr)
    requires Stands(toRight, e, text, t) && (e.Infix? || e.Prefix? || e.Raise? || e.Index?)
    ensures Stands(toRight, g, [LParen] + text + [RParen], t)
    ensures HasOwnChain(g) == HasOwnChain(e) && !IsChainLink(g) && OpenLeft(g) == OpenRight(g) == {} && g.Group?
  {
    g := Group(e);
  }

  /** A text compiles to the tree of its expression. */
  lemma {:induction false} TextMeans(cfg: Config, e: Expr, text: seq<Lexeme>, t: Tree)
    requires Stands(cfg.rightAssociativePower, e, text, t)
    ensures TreeOf(cfg, text) == Judged(cfg, HasOwnChain(e), t)
  {
    SpelledCompiles(cfg, e);
  }

  // ------------------------------------------------------------------------
  // Prefix operators

  predicate Single(toRight: bool, e: Expr, text: seq<Lexeme>, t: Tree) {
    && Stands(toRight, e, text, t) && e.Name? && |text| == 1 && Placed(toRight, e, true)
  }

  /** `p a y c`, where `y` is tighter than the prefix operator. */
  lemma {:induction false} PrefixTakes(toRight: bool, p: Lexeme, a: Expr, ta: seq<Lexeme>, ma: Tree, y: Lexeme, c: Expr,
                                       tc: seq<Lexeme>, mc: Tree) returns (e: Expr)
    requires IsPrefixSign(p) && SignRank(y) > PrefixRank(p) && Single(toRight, a, ta, ma) && Single(toRight, c, tc, mc)
    ensures Stands(toRight, e, [p] + (ta + ([y] + tc)), Unary(PrefixNode(p), Binary(SignNode(y), ma, mc)))
    ensures !HasOwnChain(e) && OpenLeft(e) == {} && !IsChainLink(e)
  {
    var inner := InfixStands(toRight, y, a, ta, ma, c, tc, mc);
    e := PrefixStands(toRight, p, inner, ta + ([y] + tc), Binary(SignNode(y), ma, mc));
  }

  /** The same where `y` is not. */
  lemma {:induction false} PrefixYields(toRight: bool, p: Lexeme, a: Expr, ta: seq<Lexeme>, ma: Tree, y: Lexeme,
                                        c: Expr,
                                        tc: seq<Lexeme>, mc: Tree) returns (e: Expr)
    requires IsPrefixSign(p) && 0 < SignRank(y) <= PrefixRank(p)
    requires Single(toRight, a, ta, ma) && Single(toRight, c, tc, mc)
    ensures Stands(toRight, e, [p] + ta + ([y] + tc), Binary(SignNode(y), Unary(PrefixNode(p), ma), mc))
    ensures !HasOwnChain(e) && IsChainLink(e) == Compares(y)
    ensures forall o <- OpenLeft(e) :: Rank(o) == SignRank(y) && !o.Power?
  {
    var inner := PrefixStands(toRight, p, a, ta, ma);
    e := InfixStands(toRight, y, inner, [p] + ta, Unary(PrefixNode(p), ma), c, tc, mc);
  }

  /** `p a y c`: a prefix operator takes what binds more tightly than it does. */
  lemma {:induction false} PrefixThenSign(cfg: Config, p: Lexeme, a: seq<string>, y: Lexeme, c: seq<string>)
    requires IsPrefixSign(p) && IsWord(a) && SignRank(y) > 0 && IsWord(c)
    ensures TreeOf(cfg, [p, Identifier(Dotted(a)), y, Identifier(Dotted(c))])
         == Ok(if SignRank(y) > PrefixRank(p)
               then Unary(PrefixNode(p), Binary(SignNode(y), Named(a), Named(c)))
               else Binary(SignNode(y), Unary(PrefixNode(p), Named(a)), Named(c)))
  {
    var right := cfg.rightAssociativePower;
    var ta, tc := [Identifier(Dotted(a))], [Identifier(Dotted(c))];
    var ea := WordStands(right, a);
    var ec := WordStands(right, c);
    assert [p] + (ta + ([y] + tc)) == [p, ta[0], y, tc[0]] == [p] + ta + ([y] + tc);
    if SignRank(y) > PrefixRank(p) {
      var e := PrefixTakes(right, p, ea, ta, Named(a), y, ec, tc, Named(c));
      TextMeans(cfg, e, [p] + (ta + ([y] + tc)), Unary(PrefixNode(p), Binary(SignNode(y), Named(a), Named(c))));
    } else {
      var e := PrefixYields(right, p, ea, ta, Named(a), y, ec, tc, Named(c));
      TextMeans(cfg, e, [p] + ta + ([y] + tc), Binary(SignNode(y), Unary(PrefixNode(p), Named(a)), Named(c)));
    }
  }

  /** `a x p b y c`, where the prefix operator takes `y`. */
  lemma {:induction false} BeforeTaken(toRight: bool, a: Expr, ta: seq<Lexeme>, ma: Tree, x: Lexeme, r: Expr,
                                       rt: seq<Lexeme>, mr: Tree) returns (e: Expr)
    requires SignRank(x) > 0 && Single(toRight, a, ta, ma) && Stands(toRight, r, rt, mr)
    requires forall o <- OpenLeft(r) :: Rank(o) > SignRank(x)
    ensures Stands(toRight, e, ta + ([x] + rt), Binary(SignNode(x), ma, mr))
    ensures HasOwnChain(e) <==> HasOwnChain(r) || (Compares(x) && IsChainLink(r))
  {
    e := InfixStands(toRight, x, a, ta, ma, r, rt, mr);
  }

  /** `a x p b y c`, where `x` is at least as tight as `y`. */
  lemma {:induction false} BeforeYielding(toRight: bool, a: Expr, ta: seq<Lexeme>, ma: Tree, x: Lexeme, p: Lexeme,
                                          b: Expr, tb: seq<Lexeme>, mb: Tree, y: Lexeme, c: Expr, tc: seq<Lexeme>,
                                          mc: Tree) returns (e: Expr)
    requires IsPrefixSign(p) && 0 < SignRank(y) <= PrefixRank(p) && SignRank(y) <= SignRank(x)
    requires Single(toRight, a, ta, ma) && Single(toRight, b, tb, mb) && Single(toRight, c, tc, mc)
    ensures Stands(toRight, e, ta + ([x] + ([p] + tb)) + ([y] + tc),
                   Binary(SignNode(y), Binary(SignNode(x), ma, Unary(PrefixNode(p), mb)), mc))
    ensures HasOwnChain(e) <==> Compares(x) && Compares(y)
  {
    var prefixed := PrefixStands(toRight, p, b, tb, mb);
    var l := InfixStands(toRight, x, a, ta, ma, prefixed, [p] + tb, Unary(PrefixNode(p), mb));
    e := JoinLoose(toRight, l, ta + ([x] + ([p] + tb)), Binary(SignNode(x), ma, Unary(PrefixNode(p), mb)), y, c, tc,
        mc);
  }

  lemma {:induction false} JoinLoose(toRight: bool, l: Expr, lt: seq<Lexeme>, ml: Tree, y: Lexeme, c: Expr,
                                     tc: seq<Lexeme>, mc: Tree) returns (e: Expr)
    requires 0 < SignRank(y) < 9 && Stands(toRight, l, lt, ml) && Single(toRight, c, tc, mc)
    requires forall o <- OpenRight(l) :: Rank(o) >= SignRank(y)
    ensures Stands(toRight, e, lt + ([y] + tc), Binary(SignNode(y), ml, mc))
    ensures HasOwnChain(e) <==> HasOwnChain(l) || (Compares(y) && IsChainLink(l))
  {
    e := InfixStands(toRight, y, l, lt, ml, c, tc, mc);
  }

  /** The trees that `a x p b y c` can have. */
  function PrefixTree(a: Tree, x: Lexeme, p: Lexeme, b: Tree, y: Lexeme, c: Tree): Tree
    requires SignRank(x) > 0 && SignRank(y) > 0
  {
    if SignRank(y) > PrefixRank(p) then Binary(SignNode(x), a, Unary(PrefixNode(p), Binary(SignNode(y), b, c)))
    else if SignRank(y) > SignRank(x) then Binary(SignNode(x), a, Binary(SignNode(y), Unary(PrefixNode(p), b), c))
    else Binary(SignNode(y), Binary(SignNode(x), a, Unary(PrefixNode(p), b)), c)
  }

  lemma {:induction false} TakenSpelt(right: bool, a: Expr, ta: seq<Lexeme>, ma: Tree, x: Lexeme, p: Lexeme, b: Expr,
                                      tb: seq<Lexeme>, mb: Tree, y: Lexeme, c: Expr, tc: seq<Lexeme>, mc: Tree)
    returns (e: Expr)
    requires SignRank(x) > 0 && IsPrefixSign(p) && SignRank(y) > PrefixRank(p)
    requires Single(right, a, ta, ma) && Single(right, b, tb, mb) && Single(right, c, tc, mc)
    ensures Stands(right, e, ta + ([x] + ([p] + (tb + ([y] + tc)))), PrefixTree(ma, x, p, mb, y, mc))
    ensures HasOwnChain(e) <==> Compares(x) && Compares(y)
  {
    var r := PrefixTakes(right, p, b, tb, mb, y, c, tc, mc);
    e := BeforeTaken(right, a, ta, ma, x, r, [p] + (tb + ([y] + tc)),
        Unary(PrefixNode(p), Binary(SignNode(y), mb, mc)));
  }

  lemma {:induction false} YieldedSpelt(right: bool, a: Expr, ta: seq<Lexeme>, ma: Tree, x: Lexeme, p: Lexeme, b: Expr,
                                        tb: seq<Lexeme>, mb: Tree, y: Lexeme, c: Expr, tc: seq<Lexeme>, mc: Tree)
    returns (e: Expr)
    requires 0 < SignRank(x) < SignRank(y) <= PrefixRank(p) && IsPrefixSign(p)
    requires Single(right, a, ta, ma) && Single(right, b, tb, mb) && Single(right, c, tc, mc)
    ensures Stands(right, e, ta + ([x] + ([p] + tb + ([y] + tc))), PrefixTree(ma, x, p, mb, y, mc))
    ensures HasOwnChain(e) <==> Compares(x) && Compares(y)
  {
    var r := PrefixYields(right, p, b, tb, mb, y, c, tc, mc);
    e := BeforeTaken(right, a, ta, ma, x, r, [p] + tb + ([y] + tc), Binary(SignNode(y), Unary(PrefixNode(p), mb), mc));
  }

  /** `a x p b y c` */
  lemma {:induction false} SignPrefixSign(cfg: Config, a: seq<string>, x: Lexeme, p: Lexeme, b: seq<string>, y: Lexeme,
                                          c: seq<string>)
    requires IsWord(a) && SignRank(x) > 0 && IsPrefixSign(p) && IsWord(b) && SignRank(y) > 0 && IsWord(c)
    ensures TreeOf(cfg, [Identifier(Dotted(a)), x, p, Identifier(Dotted(b)), y, Identifier(Dotted(c))])
         == Judged(cfg, Compares(x) && Compares(y), PrefixTree(Named(a), x, p, Named(b), y, Named(c)))
  {
    var right := cfg.rightAssociativePower;
    var ta, tb, tc := [Identifier(Dotted(a))], [Identifier(Dotted(b))], [Identifier(Dotted(c))];
    var ea := WordStands(right, a);
    var eb := WordStands(right, b);
    var ec := WordStands(right, c);
    var e := SixSpelt(right, ea, ta, Named(a), x, p, eb, tb, Named(b), y, ec, tc, Named(c));
    TextMeans(cfg, e, [ta[0], x, p, tb[0], y, tc[0]], PrefixTree(Named(a), x, p, Named(b), y, Named(c)));
  }

  lemma {:induction false} SixSpelt(right: bool, a: Expr, ta: seq<Lexeme>, ma: Tree, x: Lexeme, p: Lexeme, b: Expr,
                                    tb: seq<Lexeme>, mb: Tree, y: Lexeme, c: Expr, tc: seq<Lexeme>, mc: Tree)
    returns (e: Expr)
    requires SignRank(x) > 0 && IsPrefixSign(p) && SignRank(y) > 0
    requires Single(right, a, ta, ma) && Single(right, b, tb, mb) && Single(right, c, tc, mc)
    ensures Stands(right, e, [ta[0], x, p, tb[0], y, tc[0]], PrefixTree(ma, x, p, mb, y, mc))
    ensures HasOwnChain(e) <==> Compares(x) && Compares(y)
  {
    SixLexemes(ta, x, p, tb, y, tc);
    if SignRank(y) > PrefixRank(p) {
      e := TakenSpelt(right, a, ta, ma, x, p, b, tb, mb, y, c, tc, mc);
    } else if SignRank(y) > SignRank(x) {
      e := YieldedSpelt(right, a, ta, ma, x, p, b, tb, mb, y, c, tc, mc);
    } else {
      e := BeforeYielding(right, a, ta, ma, x, p, b, tb, mb, y, c, tc, mc);
    }
  }

  lemma SixLexemes(a: seq<Lexeme>, x: Lexeme, p: Lexeme, b: seq<Lexeme>, y: Lexeme, c: seq<Lexeme>)
    requires |a| == |b| == |c| == 1
    ensures a + ([x] + ([p] + (b + ([y] + c)))) == [a[0], x, p, b[0], y, c[0]]
    ensures a + ([x] + ([p] + b + ([y] + c))) == [a[0], x, p, b[0], y, c[0]]
    ensures a + ([x] + ([p] + b)) + ([y] + c) == [a[0], x, p, b[0], y, c[0]]
  {
  }
}
