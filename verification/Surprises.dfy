/** Texts on which the compiler does what one might not expect, one for each condition of the
    general results. */
module Surprises {
  import opened Wrappers
  import opened Operators
  import opened Trees
  import opened Shunting
  import opened ShuntingSteps
  import opened ShuntingProof
  import opened Tokenizer
  import opened Grammar
  import opened ScanProof
  import opened Reference
  import opened Regularity
  import opened TokenizerProof
  import opened RegularText
  import opened ReferenceProof
  import opened ReferenceComplete
  import opened PlainReading
  import opened UsualReading
  import opened EndOfText
  import opened Acceptance

  function Source(name: string): Tree { SourceField(name, []) }

  lemma OneLetter(name: string)
    requires |name| == 1 && name[0] != '.'
    ensures SplitDots(name) == [name] && PathOk(name)
  {
    assert SplitDots("") == [""];
    assert name[1..] == "" && [name[0]] + "" == name;
  }

  /** Reading the tokens of `ls`, and finishing, compiles `ls`. */
  lemma {:induction false} CompiledFrom(cfg: Config, ls: seq<Lexeme>, toks: seq<Token<Tree>>, t: Tree)
    requires NoEof(ls) && Tokenize(cfg, Tokenized([], []), ls + [Eof]) == Ok(Tokenized(toks, []))
             && Compile(cfg, toks) == Ok(t)
    ensures CompilesTo(cfg, ls, t)
  {
    assert StreamOf(ls) == ls + [Eof];
  }

  /** `ls` compiles to `t`. */
  predicate CompilesTo(cfg: Config, ls: seq<Lexeme>, t: Tree) {
    CompileSource(cfg, ls).Ok? && CompileSource(cfg, ls).value.tree == t
  }

  lemma {:induction false} IrregularRefused(cfg: Config, ls: seq<Lexeme>)
    requires WellLexed(ls) && NoEof(ls) && !(Alternates(ls) && ArityOk(ls))
    ensures Parse(cfg, ls).None?
  {
    AcceptedJustWhen(cfg, ls);
  }

  // ------------------------------------------------------------------------
  // Steps of the tokenizer and the machine

  function After(toks: seq<Token<Tree>>): Tokenized { Tokenized(toks, []) }

  lemma {:induction false} TakePath(cfg: Config, toks: seq<Token<Tree>>, name: string, rest: seq<Lexeme>)
    requires |name| == 1 && name[0] != '.' && MayFollow(AfterOperand(false), rest)
    ensures Tokenize(cfg, After(toks), [Identifier(name)] + rest) == Tokenize(cfg, After(toks + [Path([name])]), rest)
  {
    OneLetter(name);
    ScanPath(cfg, After(toks), name);
    ScansAt(cfg, After(toks), [Identifier(name)], AfterOperand(false), false, [Path([name])], [], rest);
    assert Extend(After(toks), [Path([name])], []) == After(toks + [Path([name])]);
  }

  lemma {:induction false} TakeOperator(cfg: Config, toks: seq<Token<Tree>>, l: Lexeme, op: Operator, rest: seq<Lexeme>)
    requires OperatorOf(l) == Some(op)
    ensures Tokenize(cfg, After(toks), [l] + rest) == Tokenize(cfg, After(toks + [Op(op)]), rest)
  {
    ScanOperator(cfg, After(toks), l, op);
    ScansAt(cfg, After(toks), [l], Anything, false, [Op(op)], [], rest);
    assert Extend(After(toks), [Op(op)], []) == After(toks + [Op(op)]);
  }

  lemma {:induction false} TakeCall(cfg: Config, toks: seq<Token<Tree>>, fn: Operator, rest: seq<Lexeme>)
    requires IsFunctionLike(fn)
    ensures Tokenize(cfg, After(toks), [Identifier(FunctionName(fn)), LParen] + rest)
         == Tokenize(cfg, After(toks + [Op(fn), Op(LeftParen)]), rest)
  {
    ScanFunction(cfg, After(toks), fn);
    ScansAt(cfg, After(toks), [Identifier(FunctionName(fn)), LParen], Anything, false, [Op(fn), Op(LeftParen)], [],
        rest);
    assert Extend(After(toks), [Op(fn), Op(LeftParen)], []) == After(toks + [Op(fn), Op(LeftParen)]);
  }

  lemma {:induction false} ReadLetter(cfg: Config, prev: Option<Token<Tree>>, name: string, st: State, st1: State)
    requires name != "" && st1 == State(st.operands + [Leaf(Source(name))], st.ops)
    ensures Leads(cfg, prev, [Path([name])], st, false, st1)
  {
    assert [name][1..] == [];
    ReadSource(cfg, prev, [name], st);
  }

  /** The machine gets past `toks`, to `st`, and finishes with `t`. */
  lemma {:induction false} CompiledThrough(cfg: Config, toks: seq<Token<Tree>>, st: State, t: Tree)
    requires toks != [] && Leads(cfg, None, toks, EMPTY, false, st) && Finish(cfg, st) == Ok(t)
    ensures Compile(cfg, toks) == Ok(t)
  {
    CompileLeads(cfg, toks, false, st, false, Ok(t));
  }

  // ------------------------------------------------------------------------
  // Operands and operators need not alternate

  const JUXTAPOSED: seq<Lexeme> := [Identifier("a"), Identifier("b"), PlusSign]

  lemma {:induction false} JuxtaposedTokens(cfg: Config)
    ensures Tokenize(cfg, After([]), JUXTAPOSED + [Eof]) == Ok(After([Path(["a"]), Path(["b"]), Op(Add)]))
  {
    var t0: seq<Token<Tree>> := [];
    var t1 := t0 + [Path(["a"])];
    var t2 := t1 + [Path(["b"])];
    assert JUXTAPOSED + [Eof] == [Identifier("a")] + ([Identifier("b")] + ([PlusSign] + [Eof]));
    TakePath(cfg, t0, "a", [Identifier("b")] + ([PlusSign] + [Eof]));
    TakePath(cfg, t1, "b", [PlusSign] + [Eof]);
    TakeOperator(cfg, t2, PlusSign, Add, [Eof]);
    assert t2 + [Op(Add)] == [Path(["a"]), Path(["b"]), Op(Add)];
  }

  lemma {:induction false} JuxtaposedTree(cfg: Config)
    ensures Compile(cfg, [Path(["a"]), Path(["b"]), Op(Add)]) == Ok(Binary(Arithmetic(ADD), Source("a"), Source("b")))
  {
    var a, b := Leaf(Source("a")), Leaf(Source("b"));
    var pa: Token<Tree>, pb: Token<Tree> := Path(["a"]), Path(["b"]);
    var st1, st2 := State([a], []), State([a, b], []);
    var st3 := State(st2.operands, st2.ops + [Add]);
    ReadLetter(cfg, None, "a", EMPTY, st1);
    ReadLetter(cfg, Some(pa), "b", st1, st2);
    ReadInfixOp(cfg, Some(pb), Add, Target(cfg, Add), st2, false, st2);
    LeadsTrans(cfg, Some(pa), [pb], st1, false, st2, [Op(Add)], false, st3);
    LeadsTrans(cfg, None, [pa], EMPTY, false, st1, [pb] + [Op(Add)], false, st3);
    assert [pa] + ([pb] + [Op(Add)]) == [pa, pb, Op(Add)];
    CollapseOne(cfg, Add, a, b);
    assert st3 == State([a, b], [Add]);
    CompiledThrough(cfg, [pa, pb, Op(Add)], st3, Binary(Arithmetic(ADD), Source("a"), Source("b")));
  }

  lemma CollapseOne(cfg: Config, op: Operator, x: Operand<Tree>, y: Operand<Tree>)
    requires !IsPunctuation(op) && !IsUnary(op) && !IsComparison(op)
    ensures Finish(cfg, State([x, y], [op])) == Ok(Binary(ToNodeOperator(op), x.value, y.value))
  {
    ShrinkTwo(cfg, [], [], op, x, y);
    assert [] + [x, y] == [x, y] && [] + [op] == [op];
    assert Collapse(cfg, 1, State([x, y], [op])) == Collapse(cfg, 1, State([] + [Combined(op, x.value, y.value)], []));
  }

  /** `a b +` compiles like `a + b`, though it does not alternate and the reference parser
      refuses it. */
  lemma {:induction false} JuxtapositionCompiles(cfg: Config)
    ensures CompilesTo(cfg, JUXTAPOSED, Binary(Arithmetic(ADD), Source("a"), Source("b")))
    ensures !Alternates(JUXTAPOSED) && Parse(cfg, JUXTAPOSED).None?
  {
    JuxtaposedCompiles(cfg);
    NotAlternating();
    IrregularRefused(cfg, JUXTAPOSED);
  }

  lemma {:induction false} JuxtaposedCompiles(cfg: Config)
    ensures CompilesTo(cfg, JUXTAPOSED, Binary(Arithmetic(ADD), Source("a"), Source("b")))
  {
    var t := Binary(Arithmetic(ADD), Source("a"), Source("b"));
    JuxtaposedTokens(cfg);
    JuxtaposedTree(cfg);
    CompiledFrom(cfg, JUXTAPOSED, [Path(["a"]), Path(["b"]), Op(Add)], t);
  }

  lemma NotAlternating()
    ensures !Alternates(JUXTAPOSED)
  {
    assert JUXTAPOSED[1..] == [Identifier("b"), PlusSign];
  }

  // ------------------------------------------------------------------------
  // Arguments need not be those of the call they stand in

  function CallHead(fn: Operator): seq<Lexeme>
    requires IsFunctionLike(fn)
  {
    [Identifier(FunctionName(fn)), LParen]
  }

  /** `a, b))` */
  function ArgumentsEnd(a: string, b: string): seq<Lexeme> {
    [Identifier(a)] + ([CommaSign] + ([Identifier(b)] + ([RParen] + [RParen])))
  }

  /** `f(g(a, b))` */
  function Borrowed(f: Operator, g: Operator, a: string, b: string): seq<Lexeme>
    requires IsFunctionLike(f) && IsFunctionLike(g)
  {
    CallHead(f) + (CallHead(g) + ArgumentsEnd(a, b))
  }

  predicate IsLetter(name: string) { |name| == 1 && name[0] != '.' }

  lemma {:induction false} BorrowedEndTokens(cfg: Config, t: seq<Token<Tree>>, b: string)
    requires IsLetter(b)
    ensures Tokenize(cfg, After(t), [Identifier(b)] + ([RParen] + ([RParen] + [Eof])))
         == Ok(After(t + [Path([b])] + [Op(RightParen)] + [Op(RightParen)]))
  {
    var t1 := t + [Path([b])];
    var t2 := t1 + [Op(RightParen)];
    TakePath(cfg, t, b, [RParen] + ([RParen] + [Eof]));
    TakeOperator(cfg, t1, RParen, RightParen, [RParen] + [Eof]);
    TakeOperator(cfg, t2, RParen, RightParen, [Eof]);
  }

  lemma {:induction false} BorrowedArgumentTokens(cfg: Config, t: seq<Token<Tree>>, a: string, rest: seq<Lexeme>)
    requires IsLetter(a)
    ensures Tokenize(cfg, After(t), [Identifier(a)] + ([CommaSign] + rest))
            == Tokenize(cfg, After(t + [Path([a])] + [Op(Comma)]), rest)
  {
    TakePath(cfg, t, a, [CommaSign] + rest);
    TakeOperator(cfg, t + [Path([a])], CommaSign, Comma, rest);
  }

  lemma {:induction false} BorrowedTokens(cfg: Config, f: Operator, g: Operator, a: string, b: string)
    requires IsFunctionLike(f) && IsFunctionLike(g) && IsLetter(a) && IsLetter(b)
    ensures Tokenize(cfg, After([]), Borrowed(f, g, a, b) + [Eof]) == Ok(After(TokensOf(f, g, a, b)))
  {
    var rest := [Identifier(b)] + ([RParen] + ([RParen] + [Eof]));
    var args := [Identifier(a)] + ([CommaSign] + rest);
    BorrowedSplit(f, g, a, b);
    TakeCall(cfg, [], f, CallHead(g) + args);
    var t1 := [] + [Op(f), Op(LeftParen)];
    TakeCall(cfg, t1, g, args);
    var t2 := t1 + [Op(g), Op(LeftParen)];
    BorrowedArgumentTokens(cfg, t2, a, rest);
    BorrowedEndTokens(cfg, t2 + [Path([a])] + [Op(Comma)], b);
    TokensSplit(f, g, a, b);
  }

  lemma BorrowedSplit(f: Operator, g: Operator, a: string, b: string)
    requires IsFunctionLike(f) && IsFunctionLike(g)
    ensures Borrowed(f, g, a, b) + [Eof]
         == CallHead(f) + (CallHead(g) + ([Identifier(a)]
             + ([CommaSign] + ([Identifier(b)] + ([RParen] + ([RParen] + [Eof]))))))
  {
  }

  function TokensOf(f: Operator, g: Operator, a: string, b: string): seq<Token<Tree>> {
    [Op(f), Op(LeftParen)] + ([Op(g), Op(LeftParen)]
        + ([Path([a])] + ([Op(Comma)] + ([Path([b])] + ([Op(RightParen)] + [Op(RightParen)])))))
  }

  lemma TokensSplit(f: Operator, g: Operator, a: string, b: string)
    ensures [] + [Op(f), Op(LeftParen)] + [Op(g), Op(LeftParen)] + [Path([a])] + [Op(Comma)] + [Path([b])]
            + [Op(RightParen)] + [Op(RightParen)]
         == TokensOf(f, g, a, b)
  {
  }

  /** The inner call takes the one operand it needs, and leaves the other. */
  lemma {:induction false} InnerCloses(cfg: Config, prev: Token<Tree>, ops: seq<Operator>, g: Operator,
                                       x: Operand<Tree>, y: Operand<Tree>)
    requires IsOperandToken(prev) && IsFunctionLike(g) && IsUnary(g)
    ensures Leads(cfg, Some(prev), [Op(RightParen)], State([x] + [y], ops + [g, LeftParen]), false,
            State([x] + [Applied(g, y.value)], ops))
  {
    var st := State([x] + [y], ops + [g, LeftParen]);
    CombineOne(cfg, g, [x], y.(parenthesized := true));
    ReadCallEnd(cfg, prev, 1, st, false, [x], y, ops, g, [x] + [Applied(g, y.value)]);
  }

  /** The outer call takes both. */
  lemma {:induction false} OuterCloses(cfg: Config, f: Operator, x: Operand<Tree>, y: Operand<Tree>)
    requires IsFunctionLike(f) && !IsUnary(f)
    ensures Leads(cfg, Some(Op(RightParen)), [Op(RightParen)], State([x] + [y], [] + [f, LeftParen]), false,
            State([Combined(f, x.value, y.value)], []))
  {
    var st := State([x] + [y], [] + [f, LeftParen]);
    var marked := y.(parenthesized := true);
    CombineTwo(cfg, f, [], x, marked);
    assert [] + [x, marked] == [x] + [marked];
    assert [] + [Combined(f, x.value, marked.value)] == [Combined(f, x.value, y.value)];
    ReadCallEnd(cfg, Op(RightParen), 1, st, false, [x], y, [], f, [Combined(f, x.value, y.value)]);
  }

  /** From `b` on. */
  lemma {:induction false} BorrowedEnds(cfg: Config, f: Operator, g: Operator, x: Operand<Tree>, b: string)
    requires IsFunctionLike(f) && !IsUnary(f) && IsFunctionLike(g) && IsUnary(g) && b != ""
    ensures Leads(cfg, Some(Op(Comma)), [Path([b])] + ([Op(RightParen)] + [Op(RightParen)]),
            State([x], [] + [f, LeftParen] + [g, LeftParen]), false,
                  State([Combined(f, x.value, Unary(ToNodeOperator(g), Source(b)))], []))
  {
    var y := Leaf(Source(b));
    var below := [] + [f, LeftParen];
    var st0, st1 := State([x], below + [g, LeftParen]), State([x] + [y], below + [g, LeftParen]);
    var z := Applied(g, y.value);
    var st2, st3 := State([x] + [z], below), State([Combined(f, x.value, z.value)], []);
    var pb, close: Token<Tree> := Path([b]), Op(RightParen);
    ReadLetter(cfg, Some(Op(Comma)), b, st0, st1);
    InnerCloses(cfg, pb, below, g, x, y);
    OuterCloses(cfg, f, x, z);
    LeadsTrans(cfg, Some(pb), [close], st1, false, st2, [close], false, st3);
    LeadsTrans(cfg, Some(Op(Comma)), [pb], st0, false, st1, [close] + [close], false, st3);
  }

  /** From `a` on. */
  lemma {:induction false} BorrowedReads(cfg: Config, f: Operator, g: Operator, a: string, b: string)
    requires IsFunctionLike(f) && !IsUnary(f) && IsFunctionLike(g) && IsUnary(g) && a != "" && b != ""
    ensures Leads(cfg, Some(Op(LeftParen)),
            [Path([a])] + ([Op(Comma)] + ([Path([b])] + ([Op(RightParen)] + [Op(RightParen)]))),
                  State([], [] + [f, LeftParen] + [g, LeftParen]), false,
                  State([Combined(f, Source(a), Unary(ToNodeOperator(g), Source(b)))], []))
  {
    var x := Leaf(Source(a));
    var below := [] + [f, LeftParen];
    var st0, st1 := State([], below + [g, LeftParen]), State([x], below + [g, LeftParen]);
    var st2 := State([Combined(f, x.value, Unary(ToNodeOperator(g), Source(b)))], []);
    var pa, comma: Token<Tree> := Path([a]), Op(Comma);
    var end: seq<Token<Tree>> := [Path([b])] + ([Op(RightParen)] + [Op(RightParen)]);
    ReadLetter(cfg, Some(Op(LeftParen)), a, st0, st1);
    ReadComma(cfg, pa, 1, st1, false, st1, below, g);
    BorrowedEnds(cfg, f, g, x, b);
    LeadsTrans(cfg, Some(pa), [comma], st1, false, st1, end, false, st2);
    LeadsTrans(cfg, Some(Op(LeftParen)), [pa], st0, false, st1, [comma] + end, false, st2);
  }

  lemma {:induction false} BorrowedTree(cfg: Config, f: Operator, g: Operator, a: string, b: string)
    requires IsFunctionLike(f) && !IsUnary(f) && IsFunctionLike(g) && IsUnary(g) && a != "" && b != ""
    ensures Compile(cfg, TokensOf(f, g, a, b))
            == Ok(Binary(ToNodeOperator(f), Source(a), Unary(ToNodeOperator(g), Source(b))))
  {
    var t := Binary(ToNodeOperator(f), Source(a), Unary(ToNodeOperator(g), Source(b)));
    var st1, st2, st3 := State([], [] + [f, LeftParen]), State([], [] + [f, LeftParen] + [g, LeftParen]),
        State([Operand(t, IsComparison(f), false)], []);
    var open: seq<Token<Tree>>, inner: seq<Token<Tree>> := [Op(f), Op(LeftParen)], [Op(g), Op(LeftParen)];
    var rest: seq<Token<Tree>> := [Path([a])] + ([Op(Comma)] + ([Path([b])] + ([Op(RightParen)] + [Op(RightParen)])));
    ReadFunctionName(cfg, None, f, EMPTY);
    ReadFunctionName(cfg, Some(Op(LeftParen)), g, st1);
    BorrowedReads(cfg, f, g, a, b);
    LeadsTrans(cfg, Some(Op(LeftParen)), inner, st1, false, st2, rest, false, st3);
    LeadsTrans(cfg, None, open, EMPTY, false, st1, inner + rest, false, st3);
    CompiledThrough(cfg, TokensOf(f, g, a, b), st3, t);
  }

  lemma {:induction false} LetterGoesOn(name: string, open: seq<Slot>, rest: seq<Lexeme>)
    requires IsLetter(name)
    ensures WantsOperand([Identifier(name)] + rest) == WantsOperator(rest)
            && ArityFrom(open, [Identifier(name)] + rest) == ArityFrom(open, rest)
  {
    OneMore(Identifier(name), rest);
  }

  lemma {:induction false} BorrowedAlternates(f: Operator, g: Operator, a: string, b: string)
    requires IsFunctionLike(f) && IsFunctionLike(g) && IsLetter(a) && IsLetter(b)
    ensures Alternates(Borrowed(f, g, a, b))
  {
    var end := [RParen] + [RParen];
    assert [RParen] + [] == [RParen];
    CloseGoesOn(RParen, Plain, [], []);
    CloseGoesOn(RParen, Plain, [], [RParen]);
    LetterGoesOn(b, [], end);
    CommaGoesOn([], [Identifier(b)] + end);
    LetterGoesOn(a, [], [CommaSign] + ([Identifier(b)] + end));
    CallOpens(g, [], ArgumentsEnd(a, b));
    CallOpens(f, [], CallHead(g) + ArgumentsEnd(a, b));
  }

  lemma {:induction false} CommaNotDue(open: seq<Slot>, rest: seq<Lexeme>)
    ensures !ArityFrom(open + [Slot.Call(0)], [CommaSign] + rest)
  {
    OneMore(CommaSign, rest);
  }

  lemma {:induction false} BorrowedArity(f: Operator, g: Operator, a: string, b: string)
    requires IsFunctionLike(f) && IsFunctionLike(g) && !IsUnary(f) && IsUnary(g) && IsLetter(a) && IsLetter(b)
    ensures !ArityOk(Borrowed(f, g, a, b))
  {
    var open := [] + [Slot.Call(1)];
    var rest := [Identifier(b)] + ([RParen] + [RParen]);
    CallOpens(f, [], CallHead(g) + ArgumentsEnd(a, b));
    CallOpens(g, open, ArgumentsEnd(a, b));
    LetterGoesOn(a, open + [Slot.Call(0)], [CommaSign] + rest);
    CommaNotDue(open, rest);
  }

  /** For a function `f` of two arguments and `g` of one, `f(g(a, b))` compiles like `f(a, g(b))`:
      it alternates, but `g` has one argument too many and `f` one too few. */
  lemma {:induction false} BorrowedArgumentCompiles(cfg: Config, f: Operator, g: Operator, a: string, b: string)
    requires IsFunctionLike(f) && IsFunctionLike(g) && !IsUnary(f) && IsUnary(g) && IsLetter(a) && IsLetter(b)
    ensures
      var ls := Borrowed(f, g, a, b);
      && CompilesTo(cfg, ls, Binary(ToNodeOperator(f), Source(a), Unary(ToNodeOperator(g), Source(b))))
      && Alternates(ls) && !ArityOk(ls) && Parse(cfg, ls).None?
  {
    BorrowedCompiles(cfg, f, g, a, b);
    BorrowedWellLexed(f, g, a, b);
    BorrowedAlternates(f, g, a, b);
    BorrowedArity(f, g, a, b);
    IrregularRefused(cfg, Borrowed(f, g, a, b));
  }

  lemma {:induction false} BorrowedCompiles(cfg: Config, f: Operator, g: Operator, a: string, b: string)
    requires IsFunctionLike(f) && IsFunctionLike(g) && !IsUnary(f) && IsUnary(g) && IsLetter(a) && IsLetter(b)
    ensures CompilesTo(cfg, Borrowed(f, g, a, b),
            Binary(ToNodeOperator(f), Source(a), Unary(ToNodeOperator(g), Source(b))))
  {
    var tree := Binary(ToNodeOperator(f), Source(a), Unary(ToNodeOperator(g), Source(b)));
    BorrowedTokens(cfg, f, g, a, b);
    BorrowedTree(cfg, f, g, a, b);
    BorrowedWellLexed(f, g, a, b);
    CompiledFrom(cfg, Borrowed(f, g, a, b), TokensOf(f, g, a, b), tree);
  }

  predicate IsProper(l: Lexeme) { !l.Eof? && (l.Identifier? ==> l.name != "") }

  ghost predicate Proper(ls: seq<Lexeme>) { forall i | 0 <= i < |ls| :: IsProper(ls[i]) }

  lemma ProperJoin(a: seq<Lexeme>, b: seq<Lexeme>)
    requires Proper(a) && Proper(b)
    ensures Proper(a + b)
  {
  }

  lemma ProperText(ls: seq<Lexeme>)
    requires Proper(ls)
    ensures WellLexed(ls) && NoEof(ls)
  {
    forall i | 0 <= i < |ls| ensures !ls[i].Eof? && (ls[i].Identifier? ==> ls[i].name != "") {
      assert IsProper(ls[i]);
    }
  }

  lemma ProperHead(fn: Operator)
    requires IsFunctionLike(fn)
    ensures Proper(CallHead(fn))
  {
    assert IsProper(Identifier(FunctionName(fn))) && IsProper(LParen);
  }

  lemma BorrowedWellLexed(f: Operator, g: Operator, a: string, b: string)
    requires IsFunctionLike(f) && IsFunctionLike(g) && IsLetter(a) && IsLetter(b)
    ensures WellLexed(Borrowed(f, g, a, b)) && NoEof(Borrowed(f, g, a, b))
  {
    ProperHead(f);
    ProperHead(g);
    assert ArgumentsEnd(a, b) == [Identifier(a), CommaSign, Identifier(b), RParen, RParen];
    assert Proper(ArgumentsEnd(a, b));
    ProperJoin(CallHead(g), ArgumentsEnd(a, b));
    ProperJoin(CallHead(f), CallHead(g) + ArgumentsEnd(a, b));
    ProperText(Borrowed(f, g, a, b));
  }

  /** `contains(abs(a, b))` compiles like `contains(a, abs(b))`. */
  lemma {:induction false} ContainsBorrows(cfg: Config)
    ensures
      var ls := [Identifier("contains"), LParen, Identifier("abs"), LParen, Identifier("a"), CommaSign, Identifier("b"),
          RParen, RParen];
      && CompilesTo(cfg, ls, Binary(Relational(CONTAINS), Source("a"), Unary(Arithmetic(ABSOLUTE), Source("b"))))
      && Alternates(ls) && !ArityOk(ls) && Parse(cfg, ls).None?
  {
    BorrowedArgumentCompiles(cfg, Contains, Absolute, "a", "b");
    ContainsText();
  }

  lemma ContainsText()
    ensures [Identifier("contains"), LParen, Identifier("abs"), LParen, Identifier("a"), CommaSign, Identifier("b"),
            RParen, RParen]
         == Borrowed(Contains, Absolute, "a", "b")
  {
  }

  // ------------------------------------------------------------------------
  // Powers and subscripts

  predicate Fine(cfg: Config, e: Expr) {
    Operands(e) && WellFormed(cfg, e, false) && !HasFieldChain(e) && !HasOwnChain(e)
  }

  lemma {:induction false} TextCompiles(cfg: Config, e: Expr)
    requires Fine(cfg, e)
    ensures CompilesTo(cfg, Print(e), Meaning(e)) && Parse(cfg, Print(e)) == Some(e)
  {
    ParsesPrint(cfg, e);
    AgreesWithReference(cfg, Print(e));
  }

  function Literally(c: Const): Expr { Num(c, None) }

  lemma {:induction false} LetterMeans(cfg: Config, name: string)
    requires IsLetter(name)
    ensures
      var e := Name(name);
      && Fine(cfg, e) && Print(e) == [Identifier(name)] && Meaning(e) == Source(name)
      && LeftBinding(cfg, e) == TIGHTEST == RightBinding(e)
  {
    OneLetter(name);
    assert [name][1..] == [];
  }

  lemma {:induction false} NumberMeans(cfg: Config, c: Const)
    ensures
      var e := Literally(c);
      Fine(cfg, e) && Print(e) == [Number(Some(c), None)] && Meaning(e) == Constant(c) && RightBinding(e) == TIGHTEST
  {
  }

  lemma {:induction false} IndexMeans(cfg: Config, b: Expr, i: Expr)
    requires Fine(cfg, b) && Fine(cfg, i) && RightBinding(b) >= Precedence(Subscript)
    ensures
      var e := Index(b, i);
      && Fine(cfg, e) && Print(e) == Print(b) + ([LBracket] + Print(i) + [RBracket])
      && Meaning(e) == Binary(OnList(SUBSCRIPT), Meaning(b), Meaning(i))
  {
  }

  lemma {:induction false} RaiseMeans(cfg: Config, l: Expr, r: Expr)
    requires cfg.rightAssociativePower && l.Index? && Fine(cfg, l) && Fine(cfg, r)
             && LeftBinding(cfg, r) > Precedence(Power)
    ensures
      var e := Raise(l, r);
      && Fine(cfg, e) && Print(e) == Print(l) + ([StarStar] + Print(r))
      && Meaning(e) == Binary(OnList(SUBSCRIPT), Meaning(l.base),
            Binary(Arithmetic(POWER), Meaning(l.index), Meaning(r)))
  {
  }

  lemma {:induction false} PowerMeans(l: Expr, r: Expr)
    requires Operands(l) && Operands(r)
    ensures
      var e := Infix(Power, l, r);
      && Operands(e) && Print(e) == Print(l) + ([StarStar] + Print(r))
      && Meaning(e) == Binary(Arithmetic(POWER), Meaning(l), Meaning(r))
  {
  }

  lemma {:induction false} PowerFine(cfg: Config, l: Expr, r: Expr)
    requires Fine(cfg, l) && Fine(cfg, r) && RightBinding(l) == TIGHTEST == RightBinding(r)
             && LeftBinding(cfg, r) == TIGHTEST
    ensures
      var e := Infix(Power, l, r);
      Fine(cfg, e) && RightBinding(e) == Precedence(Power)
  {
  }

  /** `a[i]` */
  function Element(a: string, i: Const): Expr { Index(Name(a), Literally(i)) }

  lemma {:induction false} ElementMeans(cfg: Config, a: string, i: Const)
    requires IsLetter(a)
    ensures
      var e := Element(a, i);
      && Fine(cfg, e) && Print(e) == [Identifier(a), LBracket, Number(Some(i), None), RBracket]
      && Meaning(e) == Binary(OnList(SUBSCRIPT), Source(a), Constant(i))
  {
    LetterMeans(cfg, a);
    NumberMeans(cfg, i);
    IndexMeans(cfg, Name(a), Literally(i));
  }

  /** Where power groups to the right, `a[i] ** b` compiles like `a[i ** b]`, which is not what its
      plain reading means. */
  lemma {:induction false} PowerEntersSubscript(cfg: Config, a: string, i: Const, b: string)
    requires cfg.rightAssociativePower && IsLetter(a) && IsLetter(b)
    ensures
      var ls := [Identifier(a), LBracket, Number(Some(i), None), RBracket, StarStar, Identifier(b)];
      var inside := Binary(OnList(SUBSCRIPT), Source(a), Binary(Arithmetic(POWER), Constant(i), Source(b)));
      var plain := Infix(Power, Element(a, i), Name(b));
      && CompilesTo(cfg, ls, inside) && RaisesSubscript(ls)
      && Operands(plain) && Print(plain) == ls && Meaning(plain) != inside
  {
    var ls := [Identifier(a), LBracket, Number(Some(i), None), RBracket, StarStar, Identifier(b)];
    var l, r := Element(a, i), Name(b);
    ElementMeans(cfg, a, i);
    LetterMeans(cfg, a);
    LetterMeans(cfg, b);
    NumberMeans(cfg, i);
    RaiseMeans(cfg, l, r);
    PowerMeans(l, r);
    assert [Identifier(a), LBracket, Number(Some(i), None), RBracket] + ([StarStar] + [Identifier(b)]) == ls;
    assert TouchAt(ls, 3);
    TextCompiles(cfg, Raise(l, r));
  }

  /** In both modes, `c ** a[i]` compiles like `(c ** a)[i]`, which is not what its usual reading
      `c ** (a[i])` means. */
  lemma {:induction false} SubscriptTakesPower(cfg: Config, c: Const, a: string, i: Const)
    requires IsLetter(a)
    ensures
      var ls := [Number(Some(c), None), StarStar, Identifier(a), LBracket, Number(Some(i), None), RBracket];
      var outside := Binary(OnList(SUBSCRIPT), Binary(Arithmetic(POWER), Constant(c), Source(a)), Constant(i));
      var usual := Infix(Power, Literally(c), Element(a, i));
      && CompilesTo(cfg, ls, outside) && !RaisesSubscript(ls)
      && Operands(usual) && Print(usual) == ls && Meaning(usual) != outside
  {
    var ls := [Number(Some(c), None), StarStar, Identifier(a), LBracket, Number(Some(i), None), RBracket];
    var power := Infix(Power, Literally(c), Name(a));
    LetterMeans(cfg, a);
    NumberMeans(cfg, c);
    NumberMeans(cfg, i);
    PowerMeans(Literally(c), Name(a));
    PowerFine(cfg, Literally(c), Name(a));
    IndexMeans(cfg, power, Literally(i));
    ElementMeans(cfg, a, i);
    PowerMeans(Literally(c), Element(a, i));
    SubscriptText(Number(Some(c), None), Identifier(a), Number(Some(i), None));
    TextCompiles(cfg, Index(power, Literally(i)));
  }

  lemma SubscriptText(c: Lexeme, a: Lexeme, i: Lexeme)
    requires !a.RBracket? && !c.RBracket? && !i.RBracket?
    ensures
      var ls := [c, StarStar, a, LBracket, i, RBracket];
      && [c] + ([StarStar] + [a]) + ([LBracket] + [i] + [RBracket]) == ls
            == [c] + ([StarStar] + [a, LBracket, i, RBracket])
      && !RaisesSubscript(ls)
  {
  }
}
