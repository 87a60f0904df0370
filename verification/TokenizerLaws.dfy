/** What holds of the tokenizer on every input, well formed or not. */
module TokenizerLaws {
  import opened Wrappers
  import opened Trees
  import opened Shunting
  import opened Tokenizer

  // ------------------------------------------------------------------------
  // Which lexemes belong to a field of a builder.

  predicate IsDelimiter(l: Lexeme) { IsOpening(l) || IsClosing(l) }

  /** Every delimiter is closed, by its own kind and in order. */
  predicate Balanced(s: seq<Lexeme>)
    decreases |s|
  {
    || s == []
    || (!IsDelimiter(s[0]) && Balanced(s[1..]))
    || (IsOpening(s[0]) && exists k | 0 < k < |s| :: Encloses(s, k) && Balanced(s[1..k]) && Balanced(s[k + 1..]))
  }

  predicate Encloses(s: seq<Lexeme>, k: nat)
    requires 0 < k < |s|
  {
    MatchingDelimiter(s[0]) == Some(s[k])
  }

  /** The delimiters still open after `s`, innermost last. */
  function Nest(open: seq<Lexeme>, s: seq<Lexeme>): Option<seq<Lexeme>>
    decreases |s|
  {
    if s == [] then Some(open)
    else if IsOpening(s[0]) then Nest(open + [s[0]], s[1..])
    else if !IsClosing(s[0]) then Nest(open, s[1..])
    else if open == [] || MatchingDelimiter(Last(open)) != Some(s[0]) then None
    else Nest(Front(open), s[1..])
  }

  lemma {:induction false} NestAppend(open: seq<Lexeme>, a: seq<Lexeme>, b: seq<Lexeme>)
    ensures Nest(open, a + b) == if Nest(open, a).None? then None else Nest(Nest(open, a).value, b)
    decreases |a|
  {
    if a == [] {
      assert a + b == b;
    } else {
      assert (a + b)[0] == a[0] && (a + b)[1..] == a[1..] + b;
      if IsOpening(a[0]) {
        NestAppend(open + [a[0]], a[1..], b);
      } else if !IsClosing(a[0]) {
        NestAppend(open, a[1..], b);
      } else if open != [] && MatchingDelimiter(Last(open)) == Some(a[0]) {
        NestAppend(Front(open), a[1..], b);
      }
    }
  }

  lemma {:induction false} BalancedNests(open: seq<Lexeme>, s: seq<Lexeme>)
    requires Balanced(s)
    ensures Nest(open, s) == Some(open)
    decreases |s|
  {
    if s != [] {
      if !IsDelimiter(s[0]) {
        BalancedNests(open, s[1..]);
      } else {
        var k :| 0 < k < |s| && Encloses(s, k) && Balanced(s[1..k]) && Balanced(s[k + 1..]);
        var o := open + [s[0]];
        assert s[1..] == s[1..k] + s[k..];
        NestAppend(o, s[1..k], s[k..]);
        BalancedNests(o, s[1..k]);
        assert s[k..][1..] == s[k + 1..] && Front(o) == open;
        BalancedNests(open, s[k + 1..]);
      }
    }
  }

  lemma {:induction false} BalancedPair(s: seq<Lexeme>, k1: nat, k: nat)
    requires 0 < k1 < k <= |s| && IsOpening(s[0]) && Encloses(s, k1)
    requires Balanced(s[1..][..k1 - 1]) && Balanced(s[1..][k1..][..k - k1 - 1])
    ensures Balanced(s[..k])
  {
    var p := s[..k];
    assert p[1..k1] == s[1..][..k1 - 1];
    assert p[k1 + 1..] == s[1..][k1..][..k - k1 - 1];
    assert Encloses(p, k1);
  }

  /** `k` is where the innermost delimiter of `open` is closed. */
  predicate ClosesAt(open: seq<Lexeme>, s: seq<Lexeme>, k: nat)
    requires open != []
  {
    && k < |s| && Balanced(s[..k]) && MatchingDelimiter(Last(open)) == Some(s[k])
    && Nest(Front(open), s[k + 1..]) == Nest(open, s)
  }

  lemma {:induction false} ClosesAfterPair(open: seq<Lexeme>, s: seq<Lexeme>, k1: nat, k2: nat)
    requires open != [] && s != [] && IsOpening(s[0]) && ClosesAt(open + [s[0]], s[1..], k1)
             && ClosesAt(open, s[1..][k1 + 1..], k2)
    ensures ClosesAt(open, s, k1 + 2 + k2)
  {
    var t := s[1..];
    var u, k := t[k1 + 1..], k1 + 2 + k2;
    assert Front(open + [s[0]]) == open;
    BalancedPair(s, k1 + 1, k);
    assert s[k + 1..] == u[k2 + 1..];
  }

  lemma {:induction false} ClosesAfterOther(open: seq<Lexeme>, s: seq<Lexeme>, k: nat)
    requires open != [] && s != [] && !IsDelimiter(s[0]) && ClosesAt(open, s[1..], k)
    ensures ClosesAt(open, s, k + 1)
  {
    assert s[..k + 1][1..] == s[1..][..k];
    assert s[k + 2..] == s[1..][k + 1..];
  }

  /** Where the innermost delimiter of `open` is closed. */
  lemma {:induction false} FindClose(open: seq<Lexeme>, s: seq<Lexeme>) returns (k: nat)
    requires open != [] && Nest(open, s).Some? && |Nest(open, s).value| < |open|
    ensures ClosesAt(open, s, k)
    decreases |s|
  {
    if IsOpening(s[0]) {
      var k1 := FindClose(open + [s[0]], s[1..]);
      assert Front(open + [s[0]]) == open;
      var k2 := FindClose(open, s[1..][k1 + 1..]);
      ClosesAfterPair(open, s, k1, k2);
      k := k1 + 2 + k2;
    } else if !IsClosing(s[0]) {
      var k1 := FindClose(open, s[1..]);
      ClosesAfterOther(open, s, k1);
      k := k1 + 1;
    } else {
      k := 0;
    }
  }

  lemma {:induction false} WrappedBalanced(s: seq<Lexeme>, k: nat)
    requires 0 < k < |s| && IsOpening(s[0]) && MatchingDelimiter(s[0]) == Some(s[k])
    requires Balanced(s[1..][..k - 1]) && Balanced(s[k + 1..])
    ensures Balanced(s)
  {
    assert s[1..k] == s[1..][..k - 1];
    assert Encloses(s, k);
  }

  lemma {:induction false} NestHeadOnly(s: seq<Lexeme>)
    requires s != [] && Nest([], s) == Some([])
    ensures IsOpening(s[0]) || !IsClosing(s[0])
    ensures IsOpening(s[0]) ==> Nest([s[0]], s[1..]) == Some([])
    ensures !IsOpening(s[0]) ==> Nest([], s[1..]) == Some([])
  {
    assert [] + [s[0]] == [s[0]];
  }

  lemma {:induction false} NestsBalanced(s: seq<Lexeme>)
    requires Nest([], s) == Some([])
    ensures Balanced(s)
    decreases |s|
  {
    if s != [] {
      NestHeadOnly(s);
      if !IsDelimiter(s[0]) {
        NestsBalanced(s[1..]);
      } else {
        var k1 := FindClose([s[0]], s[1..]);
        assert s[1..][k1 + 1..] == s[k1 + 2..];
        assert Front([s[0]]) == [];
        NestsBalanced(s[k1 + 2..]);
        WrappedBalanced(s, k1 + 1);
      }
    }
  }

  lemma BalancedIsNest(s: seq<Lexeme>)
    ensures Balanced(s) <==> Nest([], s) == Some([])
  {
    if Balanced(s) {
      BalancedNests([], s);
    }
    if Nest([], s) == Some([]) {
      NestsBalanced(s);
    }
  }

  predicate EndsField(l: Lexeme) { l.CommaSign? || l.RCurly? }

  /** Nothing before position `n` ends or breaks a field, with `open` open at the start. */
  predicate Inside(open: seq<Lexeme>, rest: seq<Lexeme>, n: nat)
    requires n <= |rest|
  {
    forall j | 0 <= j < n :: Continues(open, rest, j)
  }

  predicate Continues(open: seq<Lexeme>, rest: seq<Lexeme>, j: nat)
    requires j < |rest|
  {
    !rest[j].Eof? && (Nest(open, rest[..j]) == Some([]) ==> !EndsField(rest[j]) && !rest[j].Colon?)
  }

  predicate Collects(open: seq<Lexeme>, rest: seq<Lexeme>, n: nat) {
    n < |rest| && EndsField(rest[n]) && Nest(open, rest[..n]) == Some([]) && Inside(open, rest, n)
  }

  lemma NestHead(open: seq<Lexeme>, rest: seq<Lexeme>, j: nat)
    requires 0 < j <= |rest|
    ensures Nest(open, rest[..j])
         == if IsOpening(rest[0]) then Nest(open + [rest[0]], rest[1..][..j - 1])
            else if !IsClosing(rest[0]) then Nest(open, rest[1..][..j - 1])
            else if open == [] || MatchingDelimiter(Last(open)) != Some(rest[0]) then None
            else Nest(Front(open), rest[1..][..j - 1])
  {
    assert rest[..j][1..] == rest[1..][..j - 1];
  }

  lemma {:induction false} CollectsStep(open: seq<Lexeme>, rest: seq<Lexeme>, n: nat)
    requires 0 < n < |rest| && Continues(open, rest, 0) && OpenAfter(open, rest[0]).Some?
    ensures Collects(open, rest, n) <==> Collects(OpenAfter(open, rest[0]).value, rest[1..], n - 1)
  {
    var o, t := OpenAfter(open, rest[0]).value, rest[1..];
    forall j | 0 < j <= n ensures Nest(open, rest[..j]) == Nest(o, t[..j - 1]) {
      NestHead(open, rest, j);
    }
    assert forall j | 0 < j <= n :: rest[j] == t[j - 1];
    if Inside(open, rest, n) {
      forall j | 0 <= j < n - 1 ensures Continues(o, t, j) {
        assert Continues(open, rest, j + 1);
      }
    }
    if Inside(o, t, n - 1) {
      forall j | 0 <= j < n ensures Continues(open, rest, j) {
        assert j > 0 ==> Continues(o, t, j - 1);
      }
    }
  }

  lemma {:induction false} CollectIs(open: seq<Lexeme>, rest: seq<Lexeme>, n: nat)
    ensures Collect(rest, open) == Ok(n) <==> Collects(open, rest, n)
    decreases |rest|
  {
    if n < |rest| {
      assert rest[..0] == [];
      if n == 0 {
        assert Inside(open, rest, 0);
      } else if Continues(open, rest, 0) && OpenAfter(open, rest[0]).Some? {
        CollectsStep(open, rest, n);
        CollectIs(OpenAfter(open, rest[0]).value, rest[1..], n - 1);
      } else {
        if Collects(open, rest, n) {
          assert Continues(open, rest, 0);
          NestHead(open, rest, n);
        }
      }
    }
  }

  /** Position `j` neither ends nor breaks a field: outside all delimiters it is no separator. */
  predicate Within(rest: seq<Lexeme>, j: nat)
    requires j < |rest|
  {
    !rest[j].Eof? && (Balanced(rest[..j]) ==> !EndsField(rest[j]) && !rest[j].Colon?)
  }

  /** A field takes exactly the lexemes up to the first comma or closing brace that stands outside
      all delimiters; they are balanced and hold no colon outside all delimiters. */
  lemma {:induction false} CollectsBalanced(rest: seq<Lexeme>, n: nat)
    ensures Collect(rest, []) == Ok(n) <==>
            n < |rest| && EndsField(rest[n]) && Balanced(rest[..n]) && forall j | 0 <= j < n :: Within(rest, j)
  {
    CollectIs([], rest, n);
    if n < |rest| {
      BalancedIsNest(rest[..n]);
      forall j | 0 <= j < n ensures Within(rest, j) <==> Continues([], rest, j) {
        BalancedIsNest(rest[..j]);
      }
    }
  }

  // ------------------------------------------------------------------------
  // Strict comparisons restrict the whole compiler, builders included.

  lemma {:induction false} TokenizeRestricts(cfg: Config, acc: Tokenized, rest: seq<Lexeme>)
    ensures Restricts(Tokenize(cfg, acc, rest), Tokenize(Loose(cfg), acc, rest))
    decreases |rest|, 1
  {
    if At(rest, 0).Eof? {
    } else if BuilderStart(rest).Some? {
      var start := BuilderStart(rest).value;
      BuilderRestricts(cfg, acc, start.0, rest[start.1..]);
    } else if TimestampStart(rest) {
      var clock := ParseTimestamp(rest[1..]);
      if clock.Ok? {
        TokenizeRestricts(cfg, Snoc(acc, Whole(Timestamp(clock.value))), rest[4..]);
      }
    } else {
      var t: Result<(Token<Tree>, nat), Error> := SimpleToken(LastIsOperator(acc.tokens), rest);
      if t.Ok? {
        TokenizeRestricts(cfg, Snoc(acc, t.value.0), rest[t.value.1..]);
      }
    }
  }

  lemma {:induction false} BuilderRestricts(cfg: Config, acc: Tokenized, ty: string, rest: seq<Lexeme>)
    ensures Restricts(TokenizeBuilder(cfg, acc, ty, rest), TokenizeBuilder(Loose(cfg), acc, ty, rest))
    decreases |rest|, 2
  {
    FieldsRestrict(cfg, ty, Built([], acc.log), rest);
    var b := ParseBuilder(cfg, ty, Built([], acc.log), rest);
    if b.Ok? && !DirectFieldAccess(At(b.value.rest, 0)) {
      TokenizeRestricts(cfg, Tokenized(acc.tokens + [Whole(b.value.tree)], b.value.log), b.value.rest);
    }
  }

  lemma {:induction false} FieldsRestrict(cfg: Config, ty: string, acc: Built, rest: seq<Lexeme>)
    ensures Restricts(ParseBuilder(cfg, ty, acc, rest), ParseBuilder(Loose(cfg), ty, acc, rest))
    decreases |rest|, 0
  {
    if !At(rest, 0).Eof? && !rest[0].RCurly? {
      var name := FieldName(acc.assigns, rest);
      if name.Ok? {
        BodyRestricts(cfg, ty, acc, name.value, rest[2..]);
      }
    }
  }

  lemma {:induction false} BodyRestricts(cfg: Config, ty: string, acc: Built, name: string, rest: seq<Lexeme>)
    ensures Restricts(ParseFieldBody(cfg, ty, acc, name, rest), ParseFieldBody(Loose(cfg), ty, acc, name, rest))
    decreases |rest|, 3
  {
    var n := Collect(rest, []);
    if n.Ok? && n.value != 0 {
      FieldRestricts(cfg, acc.log, rest[..n.value]);
      var field := CompileField(cfg, acc.log, rest[..n.value]);
      if field.Ok? {
        NextRestricts(cfg, ty, Built(acc.assigns + [Assign(name, field.value.0)], field.value.1), rest[n.value..]);
      }
    }
  }

  lemma {:induction false} NextRestricts(cfg: Config, ty: string, acc: Built, rest: seq<Lexeme>)
    requires rest != []
    ensures Restricts(NextField(cfg, ty, acc, rest), NextField(Loose(cfg), ty, acc, rest))
    decreases |rest|, 0
  {
    if !Closes(rest) {
      FieldsRestrict(cfg, ty, acc, AfterSeparator(rest));
    }
  }

  lemma {:induction false} FieldRestricts(cfg: Config, log: seq<Tree>, source: seq<Lexeme>)
    ensures Restricts(CompileField(cfg, log, source), CompileField(Loose(cfg), log, source))
    decreases |source| + 1, 2
  {
    TokenizeRestricts(cfg, Tokenized([], log), StreamOf(source));
    var toks := Tokenize(cfg, Tokenized([], log), StreamOf(source));
    if toks.Ok? {
      CompileRestricts(cfg, toks.value.tokens);
    }
  }

  /** For every text: the strict mode gives the tree and the log of the permissive mode, or
      rejects a chain. */
  lemma {:induction false} SourceRestricts(cfg: Config, source: seq<Lexeme>)
    ensures Restricts(CompileSource(cfg, source), CompileSource(Loose(cfg), source))
  {
    FieldRestricts(cfg, [], source);
  }
}
