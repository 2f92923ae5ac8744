/** What a token is does not depend on the spacing after it. */
module Respacing {
  import opened Tokens
  import opened Literals
  import opened Lexing

  /** Nothing, or bytes that start with a space. */
  predicate Sep(tail: string) { tail == [] || IsSpace(tail[0]) }

  /** `s` cut after `n` bytes, with something else behind. */
  function Cut(s: string, n: nat, tail: string): string
    requires n <= |s|
  {
    s[..n] + tail
  }

  lemma CutFrom(s: string, n: nat, tail: string, a: nat)
    requires a <= n <= |s|
    ensures Cut(s, n, tail)[a..] == Cut(s[a..], n - a, tail)
    ensures forall i :: 0 <= i < n ==> At(Cut(s, n, tail), i) == At(s, i)
    ensures At(Cut(s, n, tail), n) == At(tail, 0)
  {
    var c := Cut(s, n, tail);
    assert c[a..] == s[a..][..n - a] + tail;
  }

  lemma SepNotIn(tail: string, cls: CharClass)
    requires Sep(tail)
    ensures !Has(cls, At(tail, 0)) && !IsQuote(At(tail, 0))
    ensures At(tail, 0) !in {'.', '+', '-', 'e', 'E', 'p', 'P', 'x', 'X', 'u', 'U', 'l', 'L', 'f', 'F', '/', '*', '=',
      '<', '>', '&', '|', '#'}
  {
  }

  // ----- numbers -----

  lemma {:induction false} SpanLocal(cls: CharClass, s: string, k: nat, tail: string)
    requires Span(cls, s) <= k <= |s| && Sep(tail)
    ensures Span(cls, Cut(s, k, tail)) == Span(cls, s)
    decreases |s|
  {
    hide Has, IsSpace;
    SepNotIn(tail, cls);
    if k == 0 {
      assert Cut(s, k, tail) == tail;
    } else {
      CutFrom(s, k, tail, 1);
      if Has(cls, s[0]) { SpanLocal(cls, s[1..], k - 1, tail); }
    }
  }

  lemma FractionLocal(cls: CharClass, s: string, k: nat, tail: string)
    requires FractionLen(cls, s) <= k <= |s| && Sep(tail)
    ensures FractionLen(cls, Cut(s, k, tail)) == FractionLen(cls, s)
  {
    hide Has, IsSpace, Span;
    SepNotIn(tail, cls);
    if k == 0 {
      assert Cut(s, k, tail) == tail;
    } else {
      CutFrom(s, k, tail, 1);
      if s[0] == '.' { SpanLocal(cls, s[1..], k - 1, tail); }
    }
  }

  lemma SignLocal(s: string, k: nat, tail: string)
    requires 1 <= k <= |s| && Sep(tail)
    ensures k >= 2 ==> SignLen(Cut(s, k, tail), 1) == SignLen(s, 1)
    ensures k == 1 ==> SignLen(Cut(s, k, tail), 1) == 0
  {
    SepNotIn(tail, Word);
    CutFrom(s, k, tail, 1);
  }

  lemma ExponentLocal(s: string, k: nat, tail: string)
    requires ExponentLen(s) <= k <= |s| && Sep(tail)
    ensures ExponentLen(Cut(s, k, tail)) == ExponentLen(s)
  {
    hide Cut, IsSpace, Span, SignLen;
    SepNotIn(tail, Decimals);
    CutFrom(s, k, tail, 0);
    if k > 0 && At(s, 0) in {'e', 'E'} {
      SignLocal(s, k, tail);
      SignBound(s);
      SignBound(Cut(s, k, tail));
      var d := 1 + SignLen(s, 1);
      if IsDigit(At(s, d)) {
        SpanLocal(Decimals, s[d..], k - d, tail);
        CutFrom(s, k, tail, d);
        SpanStarts(s[d..]);
      }
    }
  }

  lemma SignBound(s: string)
    ensures SignLen(s, 1) <= 1 && (SignLen(s, 1) == 1 ==> |s| >= 2)
  {
  }

  lemma SpanStarts(s: string)
    ensures s != [] && IsDigit(s[0]) ==> Span(Decimals, s) >= 1
  {
  }

  lemma BinaryExponentLocal(s: string, k: nat, tail: string)
    requires BinaryExponentLen(s) <= k <= |s| && Sep(tail)
    ensures BinaryExponentLen(Cut(s, k, tail)) == BinaryExponentLen(s)
  {
    hide Cut, IsSpace, Span, SignLen;
    SepNotIn(tail, Decimals);
    CutFrom(s, k, tail, 0);
    if k > 0 && At(s, 0) in {'p', 'P'} {
      SignLocal(s, k, tail);
      SignBound(s);
      var d := 1 + SignLen(s, 1);
      SpanLocal(Decimals, s[d..], k - d, tail);
      CutFrom(s, k, tail, d);
    }
  }

  lemma {:induction false} SuffixLocal(s: string, isFloat: bool, k: nat, tail: string)
    requires SuffixLen(s, isFloat) <= k <= |s| && Sep(tail)
    ensures SuffixLen(Cut(s, k, tail), isFloat) == SuffixLen(s, isFloat)
    decreases |s|
  {
    hide Cut, IsSpace;
    SepNotIn(tail, Decimals);
    CutFrom(s, k, tail, 0);
    if k > 0 && SuffixLen(s, isFloat) > 0 {
      CutFrom(s, k, tail, 1);
      if At(s, 0) in {'l', 'L'} && At(s, 1) == s[0] {
        CutFrom(s, k, tail, 2);
        SuffixLocal(s[2..], isFloat, k - 2, tail);
      } else {
        SuffixLocal(s[1..], isFloat, k - 1, tail);
      }
    }
  }

  lemma WholeLocal(s: string, k: nat, tail: string)
    requires s != [] && IsDigit(s[0]) && 1 <= k && WholeLen(s) <= k <= |s| && Sep(tail)
    ensures IsHex(Cut(s, k, tail)) == IsHex(s) && WholeLen(Cut(s, k, tail)) == WholeLen(s)
  {
    hide Cut, IsSpace, Span;
    SepNotIn(tail, Word);
    CutFrom(s, k, tail, 1);
    if IsHex(s) {
      CutFrom(s, k, tail, 2);
      SpanLocal(Hexadecimals, s[2..], k - 2, tail);
    } else {
      SpanLocal(Decimals, s, k, tail);
    }
  }

  lemma NumberExponentLocal(hex: bool, s: string, k: nat, tail: string)
    requires NumberExponent(hex, s) <= k <= |s| && Sep(tail)
    ensures NumberExponent(hex, Cut(s, k, tail)) == NumberExponent(hex, s)
  {
    if hex { BinaryExponentLocal(s, k, tail); } else { ExponentLocal(s, k, tail); }
  }

  lemma NumberLocal(s: string, tail: string)
    requires s != [] && IsDigit(s[0]) && Sep(tail)
    ensures var n := LexNumber(s).len; IsDigit(Cut(s, n, tail)[0]) && LexNumber(Cut(s, n, tail)) == LexNumber(s)
  {
    hide Cut, IsSpace, Span, WholeLen, IsHex, FractionLen, NumberExponent, SuffixLen, IsDigit;
    var n := LexNumber(s).len;
    var x := Cut(s, n, tail);
    var cls := if IsHex(s) then Hexadecimals else Decimals;
    var a := WholeLen(s);
    var b := FractionLen(cls, s[a..]);
    var c := NumberExponent(IsHex(s), s[a + b..]);
    CutFrom(s, n, tail, 0);
    WholeLocal(s, n, tail);
    CutFrom(s, n, tail, a);
    FractionLocal(cls, s[a..], n - a, tail);
    CutFrom(s, n, tail, a + b);
    NumberExponentLocal(IsHex(s), s[a + b..], n - a - b, tail);
    CutFrom(s, n, tail, a + b + c);
    SuffixLocal(s[a + b + c..], b > 0 || c > 0, n - a - b - c, tail);
    CutPrefix(s, n, tail);
  }

  lemma CutPrefix(s: string, n: nat, tail: string)
    requires n <= |s|
    ensures |Cut(s, n, tail)| == n + |tail| && Cut(s, n, tail)[..n] == s[..n]
    ensures forall i :: 0 <= i < n ==> Cut(s, n, tail)[i] == s[i]
  {
  }

  // ----- words, literals and punctuators -----

  /** Nothing after the closing quote matters. */
  lemma {:induction false} QuotedLocal(s: string, q: char, k: nat, tail: string)
    requires QuoteCloses(s, q) && QuotedLen(s, q) <= k <= |s|
    ensures QuoteCloses(Cut(s, k, tail), q) && QuotedLen(Cut(s, k, tail), q) == QuotedLen(s, q)
    decreases |s|
  {
    CutPrefix(s, k, tail);
    if s[0] != q {
      if s[0] == '\\' && |s| > 1 {
        CutFrom(s, k, tail, 2);
        QuotedLocal(s[2..], q, k - 2, tail);
      } else {
        CutFrom(s, k, tail, 1);
        QuotedLocal(s[1..], q, k - 1, tail);
      }
    }
  }

  lemma LexQuotedLocal(s: string, i: nat, tail: string)
    requires i < |s| && IsQuote(s[i]) && LexQuoted(s, i).tok != OtherTok
    ensures var n := LexQuoted(s, i).len;
            i < n && Cut(s, n, tail)[i] == s[i] && LexQuoted(Cut(s, n, tail), i) == LexQuoted(s, i)
  {
    hide Cut, QuotedLen, QuoteCloses;
    var n := LexQuoted(s, i).len;
    CutPrefix(s, n, tail);
    CutFrom(s, n, tail, i + 1);
    QuotedLocal(s[i + 1..], s[i], n - i - 1, tail);
  }

  lemma WordLocal(s: string, tail: string)
    requires s != [] && IsWord(s[0]) && LexWord(s).tok != OtherTok && Sep(tail)
    ensures var n := LexWord(s).len; Cut(s, n, tail)[0] == s[0] && LexWord(Cut(s, n, tail)) == LexWord(s)
  {
    hide Cut, IsSpace, KeywordOf, LexQuoted, IsPrefix, IsWord;
    var n, w := LexWord(s).len, Span(Word, s);
    SpanWord(s);
    CutPrefix(s, n, tail);
    SepNotIn(tail, Word);
    CutFrom(s, n, tail, n);
    if w < |s| && IsQuote(s[w]) && IsPrefix(s[..w], s[w]) {
      LexQuotedLocal(s, w, tail);
      assert Cut(s, n, tail)[..w] == s[..w];
    }
    SpanLocal(Word, s, n, tail);
    if n == w && tail != [] { assert At(tail, 0) == Cut(s, n, tail)[n]; }
  }

  lemma SpanWord(s: string)
    ensures s != [] && IsWord(s[0]) ==> Span(Word, s) >= 1
  {
  }

  lemma PunctStarts(s: string, q: Punct)
    requires At(s, 0) == PunctText(q)[0]
    ensures PunctAt(s).Some?
  {
  }

  lemma LongPunct(s: string, q: Punct)
    requires |PunctText(q)| >= 2 && At(s, 0) == PunctText(q)[0] && At(s, 1) == PunctText(q)[1]
    requires |PunctText(q)| == 3 ==> At(s, 2) == PunctText(q)[2]
    ensures PunctAt(s).Some? && |PunctText(PunctAt(s).value)| >= |PunctText(q)|
  {
    match q
    case Ellipsis =>
    case ShlEq =>
    case ShrEq =>
    case _ =>
  }

  /** The longest punctuator is found: every other one the bytes start with is no longer. */
  lemma MaximalMunch(s: string, q: Punct)
    requires PunctText(q) <= s
    ensures PunctAt(s).Some? && |PunctText(q)| <= |PunctText(PunctAt(s).value)|
  {
    hide PunctAt, PunctText;
    PunctStarts(s, q);
    if |PunctText(q)| >= 2 { LongPunct(s, q); }
  }

  lemma PunctLocal(s: string, tail: string)
    requires PunctAt(s).Some? && Sep(tail)
    ensures var n := |PunctText(PunctAt(s).value)|; n <= |s| && PunctAt(Cut(s, n, tail)) == PunctAt(s)
  {
    hide Cut, IsSpace;
    var p := PunctAt(s).value;
    PunctFits(s, p);
    var n := |PunctText(p)|;
    CutFrom(s, n, tail, 0);
    SepNotIn(tail, Word);
  }

  // ----- tokens -----

  /** The bytes of a token. */
  function Spelling(t: Token): string {
    match t
    case Name(s) => s
    case IntTok(s) => s
    case FloatTok(s) => s
    case CharTok(s) => s
    case StrTok(s) => s
    case Kw(k) => KeywordText(k)
    case Sym(p) => PunctText(p)
    case _ => ""
  }

  lemma {:induction false} SearchFinds(table: seq<Keyword>, word: string, i: nat)
    requires i <= |table|
    ensures SearchFrom(table, word, i).Some? ==> KeywordText(SearchFrom(table, word, i).value) == word
    decreases |table| - i
  {
    hide KeywordText;
    if i < |table| && KeywordText(table[i]) != word { SearchFinds(table, word, i + 1); }
  }

  /** A token is spelled by the bytes it was made of. */
  lemma TokenSpelled(s: string)
    requires s != [] && LexToken(s).tok != OtherTok
    ensures Spelling(LexToken(s).tok) == s[..LexToken(s).len]
    ensures LexToken(s).tok != Eof
  {
    hide KeywordText, PunctText, Span, PunctAt, QuotedLen, QuoteCloses, WholeLen, FractionLen, NumberExponent,
      SuffixLen;
    if IsAlpha(s[0]) || s[0] == '_' {
      WordSpelled(s);
    } else if !IsDigit(s[0]) && !IsQuote(s[0]) {
      PunctFits(s, PunctAt(s).value);
    }
  }

  lemma WordSpelled(s: string)
    requires s != [] && IsWord(s[0]) && LexWord(s).tok != OtherTok
    ensures Spelling(LexWord(s).tok) == s[..LexWord(s).len] && LexWord(s).tok != Eof
  {
    hide KeywordText, PunctText, Span, IsWord, QuotedLen, QuoteCloses, SearchFrom;
    SearchFinds(KEYWORDS, s[..Span(Word, s)], 0);
  }

  /** The token at the start of the bytes stays the same when spaces follow it instead. */
  lemma TokenLocal(s: string, tail: string)
    requires s != [] && LexToken(s).tok != OtherTok && Sep(tail)
    ensures var n := LexToken(s).len; n > 0 && Cut(s, n, tail) != [] && LexToken(Cut(s, n, tail)) == LexToken(s)
  {
    hide Cut, IsSpace, LexWord, LexNumber, LexQuoted, PunctAt, PunctText;
    var n := LexToken(s).len;
    CutPrefix(s, n, tail);
    if IsAlpha(s[0]) || s[0] == '_' { WordLocal(s, tail); }
    else if IsDigit(s[0]) { NumberLocal(s, tail); }
    else if IsQuote(s[0]) { LexQuotedLocal(s, 0, tail); }
    else { PunctLocal(s, tail); }
  }

  lemma PieceLocal(s: string, tail: string)
    requires s != [] && LexToken(s).tok != OtherTok && PieceLen(s) == 0 && Sep(tail)
    ensures PieceLen(Cut(s, LexToken(s).len, tail)) == 0
  {
    hide Cut, IsSpace, LexWord, LexNumber, LexQuoted, LineLen, BlockLen;
    var n := LexToken(s).len;
    CutPrefix(s, n, tail);
    CutFrom(s, n, tail, n);
    SepNotIn(tail, Word);
    if s[0] == '/' {
      assert n == 1 || s[1] == '=';
    }
  }

  // ----- whole texts -----

  /** The spellings with a single space between neighbours. */
  function Join(ts: seq<Token>): string
    decreases |ts|, 0
  {
    if ts == [] then "" else Spelling(ts[0]) + Spaced(ts[1..])
  }

  function Spaced(ts: seq<Token>): string
    decreases |ts|, 1
  {
    if ts == [] then "" else " " + Join(ts)
  }

  /** A token that its own spelling lexes to. */
  predicate Lone(t: Token) { LexAll(Spelling(t)) == Scan([t], true) }

  lemma FirstToken(s: string)
    requires LexAll(s).ok
    ensures var rest := s[TriviaLen(s)..];
            if rest == [] then LexAll(s).tokens == [] else
              LexToken(rest).tok != OtherTok && LexAll(rest[LexToken(rest).len..]).ok
              && LexAll(s).tokens == [LexToken(rest).tok] + LexAll(rest[LexToken(rest).len..]).tokens
  {
    hide LexToken, PieceLen;
  }

  lemma LoneIsToken(t: Token)
    requires Lone(t)
    ensures Spelling(t) != [] && t != OtherTok && PieceLen(Spelling(t)) == 0
    ensures LexToken(Spelling(t)) == Lexed(t, |Spelling(t)|)
  {
    hide LexToken, PieceLen, Spelling, LexAll, TriviaOk;
    var s := Spelling(t);
    var rest := s[TriviaLen(s)..];
    FirstToken(s);
    assert LexAll(s).tokens[0] == t;
    TokenSpelled(rest);
    assert |s| == LexToken(rest).len <= |rest|;
    assert rest == s;
  }

  lemma SingleToken(x: string, t: Token)
    requires x != [] && PieceLen(x) == 0 && LexToken(x) == Lexed(t, |x|) && t != OtherTok
    ensures LexAll(x) == Scan([t], true)
  {
    hide LexToken, PieceLen, LexAll;
    LexStep(x);
    assert x[|x|..] == [];
    EmptyLexes();
    assert [t] + [] == [t];
  }

  lemma LexStep(x: string)
    requires x != [] && PieceLen(x) == 0 && LexToken(x).tok != OtherTok
    ensures var r := LexToken(x);
            LexAll(x) == Scan([r.tok] + LexAll(x[r.len..]).tokens, LexAll(x[r.len..]).ok)
  {
    hide LexToken, PieceLen, Unclosed;
    var n := TriviaLen(x);
    assert n == 0 && x[n..] == x && TriviaOk(x);
  }

  lemma TokenIsLone(s: string)
    requires s != [] && LexToken(s).tok != OtherTok && PieceLen(s) == 0
    ensures Lone(LexToken(s).tok)
  {
    hide LexToken, PieceLen, Spelling, LexAll;
    var r := LexToken(s);
    TokenSpelled(s);
    TokenLocal(s, []);
    PieceLocal(s, []);
    assert Cut(s, r.len, []) == Spelling(r.tok);
    SingleToken(Spelling(r.tok), r.tok);
  }

  lemma EmptyLexes()
    ensures LexAll([]) == Scan([], true)
  {
  }

  /** Every token of a text is spelled by bytes that lex to it alone. */
  lemma {:induction false} TokensAreLone(s: string)
    requires LexAll(s).ok
    ensures forall t :: t in LexAll(s).tokens ==> Lone(t)
    decreases |s|
  {
    hide LexToken, PieceLen, Spelling, Lone;
    var rest := s[TriviaLen(s)..];
    if rest != [] {
      var r := LexToken(rest);
      SkipsAll(s);
      TokenIsLone(rest);
      TokensAreLone(rest[r.len..]);
    }
  }

  /** What is skipped is followed by something that is not skipped. */
  lemma {:induction false} SkipsAll(s: string)
    ensures PieceLen(s[TriviaLen(s)..]) == 0
    decreases |s|
  {
    hide PieceLen;
    var k := PieceLen(s);
    if k > 0 {
      SkipsAll(s[k..]);
      assert s[TriviaLen(s)..] == s[k..][TriviaLen(s[k..])..];
    } else {
      assert s[0..] == s;
    }
  }

  lemma SpaceSkipped(s: string)
    ensures LexAll(" " + s) == LexAll(s)
  {
    hide PieceLen;
    var x := " " + s;
    assert x[1..] == s;
    assert PieceLen(x) == 1 && !Unclosed(x) by { SpaceIsPiece(s); }
    assert x[TriviaLen(x)..] == s[TriviaLen(s)..];
  }

  lemma SpaceIsPiece(s: string)
    ensures PieceLen(" " + s) == 1 && !Unclosed(" " + s)
  {
  }

  lemma {:induction false} JoinLexes(ts: seq<Token>)
    requires forall t :: t in ts ==> Lone(t)
    ensures LexAll(Join(ts)) == Scan(ts, true)
    decreases |ts|
  {
    hide LexToken, PieceLen, Spelling, Lone, IsSpace, LexAll;
    if ts == [] {
      EmptyLexes();
    } else {
      var more := ts[1..];
      var tail := Spaced(more);
      assert Lone(ts[0]);
      JoinLexes(more);
      SpacedSep(more);
      if more != [] { SpaceSkipped(Join(more)); }
      FirstLexes(ts[0], tail);
      assert [ts[0]] + more == ts;
    }
  }

  lemma SpacedSep(ts: seq<Token>)
    ensures Sep(Spaced(ts))
  {
  }

  lemma FirstLexes(t: Token, tail: string)
    requires Lone(t) && Sep(tail)
    ensures LexAll(Spelling(t) + tail) == Scan([t] + LexAll(tail).tokens, LexAll(tail).ok)
  {
    hide LexToken, PieceLen, Spelling, Lone, IsSpace, LexAll;
    LoneIsToken(t);
    var s := Spelling(t);
    var x := s + tail;
    TokenLocal(s, tail);
    PieceLocal(s, tail);
    assert Cut(s, |s|, tail) == x;
    LexStep(x);
    assert x[|s|..] == tail;
  }

  /** A list of tokens printed with single spaces lexes back to itself exactly when each token does so alone. */
  lemma PrintedTokens(ts: seq<Token>)
    ensures LexAll(Join(ts)) == Scan(ts, true) <==> forall t :: t in ts ==> Lone(t)
  {
    hide LexAll, Lone;
    if LexAll(Join(ts)) == Scan(ts, true) { TokensAreLone(Join(ts)); }
    if forall t :: t in ts ==> Lone(t) { JoinLexes(ts); }
  }

  /** Re-spacing a text that lexes does not change its tokens. */
  lemma RespacingKeepsTokens(s: string)
    requires LexAll(s).ok
    ensures LexAll(Join(LexAll(s).tokens)) == LexAll(s)
  {
    hide LexAll, Lone;
    TokensAreLone(s);
    JoinLexes(LexAll(s).tokens);
  }
}
