/** The lexer as it runs: a cursor with line bookkeeping. */
module LexerRun {
  import opened Options
  import opened Tokens
  import opened Literals
  import opened Lexing

  /** A token with its place: where its bytes start, how many they are, and its line. */
  datatype Lexeme = Lexeme(tok: Token, start: nat, len: nat, line: int, col: int)

  function Newlines(s: string): nat {
    if s == [] then 0 else (if s[|s| - 1] == '\n' then 1 else 0) + Newlines(s[..|s| - 1])
  }

  lemma {:induction false} NewlinesAppend(a: string, b: string)
    ensures Newlines(a + b) == Newlines(a) + Newlines(b)
    decreases |b|
  {
    if b == [] {
      assert a + b == a;
    } else {
      var c := b[..|b| - 1];
      assert (a + b)[..|a + b| - 1] == a + c;
      NewlinesAppend(a, c);
    }
  }

  /** One byte more. */
  lemma NewlinesNext(s: string, i: nat)
    requires i < |s|
    ensures Newlines(s[..i + 1]) == Newlines(s[..i]) + if s[i] == '\n' then 1 else 0
  {
    assert s[..i + 1][..i] == s[..i];
  }

  // ----- tokens stay on one line -----

  /** The first `n` bytes hold no line end. */
  predicate OneLine(s: string, n: nat) { forall i :: 0 <= i < n && i < |s| ==> s[i] != '\n' }

  lemma {:induction false} NoLineEnd(s: string)
    requires OneLine(s, |s|)
    ensures Newlines(s) == 0
  {
    if s != [] { NoLineEnd(s[..|s| - 1]); }
  }

  /** What holds of both parts. */
  lemma OneLineAfter(s: string, a: nat, n: nat)
    requires a <= |s| && OneLine(s, a) && OneLine(s[a..], n)
    ensures OneLine(s, a + n)
  {
    forall i | 0 <= i < a + n && i < |s| ensures s[i] != '\n' {
      if i >= a { assert s[i] == s[a..][i - a]; }
    }
  }

  lemma {:induction false} SpanOneLine(cls: CharClass, s: string)
    ensures OneLine(s, Span(cls, s))
  {
    if Span(cls, s) > 0 {
      SpanOneLine(cls, s[1..]);
      OneLineAfter(s, 1, Span(cls, s[1..]));
    }
  }

  lemma {:induction false} SuffixOneLine(s: string, isFloat: bool)
    ensures OneLine(s, SuffixLen(s, isFloat))
    decreases |s|
  {
    var n := SuffixLen(s, isFloat);
    if n > 0 {
      var k := if At(s, 0) in {'l', 'L'} && At(s, 1) == s[0] then 2 else 1;
      SuffixOneLine(s[k..], isFloat);
      OneLineAfter(s, k, SuffixLen(s[k..], isFloat));
    }
  }

  lemma FractionOneLine(cls: CharClass, s: string)
    ensures OneLine(s, FractionLen(cls, s))
  {
    hide Span;
    if At(s, 0) == '.' {
      SpanOneLine(cls, s[1..]);
      OneLineAfter(s, 1, Span(cls, s[1..]));
    }
  }

  lemma ExponentOneLine(hex: bool, s: string)
    ensures OneLine(s, NumberExponent(hex, s))
  {
    hide Span;
    var k := 1 + SignLen(s, 1);
    if NumberExponent(hex, s) > 0 {
      SpanOneLine(Decimals, s[k..]);
      OneLineAfter(s, k, Span(Decimals, s[k..]));
    }
  }

  lemma WholeOneLine(s: string)
    ensures OneLine(s, WholeLen(s))
  {
    hide Span;
    if IsHex(s) {
      SpanOneLine(Hexadecimals, s[2..]);
      OneLineAfter(s, 2, Span(Hexadecimals, s[2..]));
    } else {
      SpanOneLine(Decimals, s);
    }
  }

  lemma NumberOneLine(s: string)
    requires s != [] && IsDigit(s[0])
    ensures OneLine(s, LexNumber(s).len)
  {
    hide WholeLen, FractionLen, NumberExponent, SuffixLen, OneLine, IsHex;
    var cls := if IsHex(s) then Hexadecimals else Decimals;
    var a := WholeLen(s);
    var b := FractionLen(cls, s[a..]);
    var c := NumberExponent(IsHex(s), s[a + b..]);
    WholeOneLine(s);
    FractionOneLine(cls, s[a..]);
    OneLineAfter(s, a, b);
    ExponentOneLine(IsHex(s), s[a + b..]);
    OneLineAfter(s, a + b, c);
    SuffixOneLine(s[a + b + c..], b > 0 || c > 0);
    OneLineAfter(s, a + b + c, SuffixLen(s[a + b + c..], b > 0 || c > 0));
  }

  /** A backslash with a line end behind it. */
  predicate HasSplice(s: string) { exists i :: 0 < i < |s| && s[i] == '\n' && s[i - 1] == '\\' }

  /** A string or character literal with a backslash-newline in it. */
  predicate Spliced(t: Token) { (t.StrTok? && HasSplice(t.text)) || (t.CharTok? && HasSplice(t.text)) }

  /** In a closed literal a line end stands behind a backslash only. */
  lemma {:induction false} QuotedLineEnds(s: string, q: char, i: nat)
    requires QuoteCloses(s, q) && IsQuote(q) && i < QuotedLen(s, q) && s[i] == '\n'
    ensures i > 0 && s[i - 1] == '\\'
    decreases |s|
  {
    if s[0] == '\\' && |s| > 1 {
      if i >= 2 { QuotedLineEnds(s[2..], q, i - 2); }
    } else if i >= 1 {
      QuotedLineEnds(s[1..], q, i - 1);
    }
  }

  lemma QuotedOneLine(s: string, i: nat)
    requires i < |s| && IsQuote(s[i]) && OneLine(s, i)
    requires LexQuoted(s, i).tok != OtherTok && !Spliced(LexQuoted(s, i).tok)
    ensures OneLine(s, LexQuoted(s, i).len)
  {
    hide QuotedLen, QuoteCloses, HasSplice;
    var n := LexQuoted(s, i).len;
    forall j | 0 <= j < n && j < |s| ensures s[j] != '\n' {
      if j > i && s[j] == '\n' { QuotedSplice(s, i, j); }
    }
  }

  lemma QuotedSplice(s: string, i: nat, j: nat)
    requires i < |s| && IsQuote(s[i]) && LexQuoted(s, i).tok != OtherTok
    requires i < j < LexQuoted(s, i).len && s[j] == '\n'
    ensures HasSplice(s[..LexQuoted(s, i).len])
  {
    hide QuotedLen, QuoteCloses;
    var t := s[..LexQuoted(s, i).len];
    QuotedLineEnds(s[i + 1..], s[i], j - i - 1);
    assert t[j] == '\n' && t[j - 1] == '\\';
  }

  lemma WordOneLine(s: string)
    requires s != [] && IsWord(s[0]) && LexWord(s).tok != OtherTok && !Spliced(LexWord(s).tok)
    ensures OneLine(s, LexWord(s).len)
  {
    hide Span, LexQuoted, KeywordOf, OneLine, IsPrefix, IsWord, Spliced;
    SpanOneLine(Word, s);
    var n := Span(Word, s);
    if n < |s| && IsQuote(s[n]) && IsPrefix(s[..n], s[n]) { QuotedOneLine(s, n); }
  }

  lemma PunctOneLine(p: Punct)
    ensures OneLine(PunctText(p), |PunctText(p)|)
  {
  }

  /** A token holds no line end unless it is a literal with a backslash-newline. */
  lemma TokenOneLine(s: string)
    requires s != [] && LexToken(s).tok != OtherTok && !Spliced(LexToken(s).tok)
    ensures Newlines(s[..LexToken(s).len]) == 0
  {
    hide LexWord, LexNumber, LexQuoted, PunctAt, PunctText, Newlines, Spliced;
    var n := LexToken(s).len;
    if IsAlpha(s[0]) || s[0] == '_' { WordOneLine(s); }
    else if IsDigit(s[0]) { NumberOneLine(s); }
    else if IsQuote(s[0]) { QuotedOneLine(s, 0); }
    else {
      PunctFits(s, PunctAt(s).value);
      PunctOneLine(PunctAt(s).value);
      assert s[..n] == PunctText(PunctAt(s).value);
    }
    NoLineEnd(s[..n]);
  }

  lemma From(s: string, i: nat)
    ensures i < |s| ==> s[i..][0] == s[i] && s[i..][1..] == s[i + 1..]
    ensures i + 1 < |s| ==> s[i..][1] == s[i + 1] && s[i..][2..] == s[i + 2..]
    ensures i + 2 < |s| ==> s[i..][2] == s[i + 2] && s[i..][3..] == s[i + 3..]
    ensures i <= |s| ==> (s[i..] == [] <==> i == |s|)
  {
  }

  lemma TriviaStep(s: string, i: nat)
    requires i <= |s|
    ensures var k := PieceLen(s[i..]);
            TriviaLen(s[i..]) == (if k == 0 then 0 else k + TriviaLen(s[i + k..]))
            && TriviaOk(s[i..]) == (k == 0 || (!Unclosed(s[i..]) && TriviaOk(s[i + k..])))
  {
    hide PieceLen, Unclosed;
    var k := PieceLen(s[i..]);
    assert s[i..][k..] == s[i + k..];
  }

  lemma QuotedStep(s: string, i: nat, q: char)
    requires i <= |s| && IsQuote(q)
    ensures
      if i == |s| || s[i] == '\n' then QuotedLen(s[i..], q) == 0 && !QuoteCloses(s[i..], q)
      else if s[i] == q then QuotedLen(s[i..], q) == 1 && QuoteCloses(s[i..], q)
      else
        var k := if s[i] == '\\' && i + 1 < |s| then 2 else 1;
        QuotedLen(s[i..], q) == k + QuotedLen(s[i + k..], q) && QuoteCloses(s[i..], q) == QuoteCloses(s[i + k..], q)
  {
    From(s, i);
  }

  lemma BlockStep(s: string, i: nat)
    requires i <= |s|
    ensures i == |s| ==> BlockLen(s[i..]) == 0 && !BlockCloses(s[i..])
    ensures i < |s| && s[i] == '*' && At(s, i + 1) == '/' ==> BlockLen(s[i..]) == 2 && BlockCloses(s[i..])
    ensures i < |s| && !(s[i] == '*' && At(s, i + 1) == '/') ==>
      BlockLen(s[i..]) == 1 + BlockLen(s[i + 1..]) && BlockCloses(s[i..]) == BlockCloses(s[i + 1..])
  {
    From(s, i);
  }

  lemma SuffixStep(s: string, i: nat, isFloat: bool)
    requires i <= |s|
    ensures var c := At(s, i);
            SuffixLen(s[i..], isFloat) ==
            (if c in {'u', 'U'} || (isFloat && c in {'f', 'F'}) then 1 + SuffixLen(s[i + 1..], isFloat)
             else if c in {'l', 'L'} then
               if At(s, i + 1) == c then 2 + SuffixLen(s[i + 2..], isFloat) else 1 + SuffixLen(s[i + 1..], isFloat)
             else 0)
  {
    From(s, i);
  }

  lemma NumberParts(s: string, a: nat, b: nat, c: nat)
    requires s != [] && IsDigit(s[0]) && a == WholeLen(s)
    requires b == FractionLen(if IsHex(s) then Hexadecimals else Decimals, s[a..])
      && c == NumberExponent(IsHex(s), s[a + b..])
    ensures var n := a + b + c + SuffixLen(s[a + b + c..], b > 0 || c > 0);
            n <= |s| && LexNumber(s) == Lexed(if b > 0 || c > 0 then FloatTok(s[..n]) else IntTok(s[..n]), n)
  {
    hide Span, FractionLen, NumberExponent, SuffixLen, IsHex, WholeLen, IsDigit;
  }

  /** A comment that is never closed lasts to the end. */
  lemma {:induction false} BadTriviaEnds(s: string)
    ensures !TriviaOk(s) ==> TriviaLen(s) == |s|
    decreases |s|
  {
    hide PieceLen, Unclosed;
    var k := PieceLen(s);
    if k > 0 {
      if Unclosed(s) {
        UnclosedLen(s);
        assert s[k..] == [];
      } else {
        BadTriviaEnds(s[k..]);
      }
    }
  }

  lemma {:induction false} BlockToEnd(s: string)
    ensures !BlockCloses(s) ==> BlockLen(s) == |s|
  {
    if s != [] { BlockToEnd(s[1..]); }
  }

  lemma UnclosedLen(s: string)
    ensures Unclosed(s) ==> PieceLen(s) == |s| >= 2
  {
    hide BlockLen, BlockCloses;
    if |s| >= 2 { BlockToEnd(s[2..]); }
  }

  class Lexer {
    const src: string
    var cur: nat
    var lineStart: nat
    var line: nat
    var hadError: bool
    /** Line ends inside the tokens passed, which `line` does not count. */
    ghost var hidden: nat

    /** The cursor is within the text, and `line` counts the line ends passed outside tokens. */
    ghost predicate Valid()
      reads this
    {
      cur <= |src| && line + hidden == 1 + Newlines(src[..cur])
    }

    constructor (text: string)
      ensures Valid() && src == text && cur == 0 && line == 1 && hidden == 0 && !hadError
    {
      src, cur, lineStart, line, hadError, hidden := text, 0, 0, 1, false, 0;
    }

    function Peek(k: nat): (c: char)
      reads this
    {
      At(src, cur + k)
    }

    /** The bytes ahead. */
    ghost function Ahead(): string
      requires cur <= |src|
      reads this
    {
      src[cur..]
    }

    method NewLine()
      modifies this`line, this`lineStart
      ensures line == old(line) + 1
    {
      line := line + 1;
      lineStart := cur;
    }

    method SkipTrivia()
      requires Valid()
      modifies this`cur, this`line, this`lineStart, this`hadError
      ensures Valid() && cur == old(cur) + TriviaLen(old(Ahead()))
      ensures hadError == (old(hadError) || !TriviaOk(old(Ahead())))
    {
      hide PieceLen, Unclosed, TriviaLen, TriviaOk, Newlines;
      ghost var start := Ahead();
      while true
        invariant Valid() && cur >= old(cur)
        invariant cur + TriviaLen(Ahead()) == old(cur) + TriviaLen(start)
        invariant (hadError || !TriviaOk(Ahead())) == (old(hadError) || !TriviaOk(start))
        decreases |src| - cur
      {
        TriviaStep(src, cur);
        UnclosedLen(src[cur..]);
        var more := SkipPiece();
        if !more { break; }
      }
    }

    /** One turn of the skipping loop. */
    method SkipPiece() returns (more: bool)
      requires Valid()
      modifies this`cur, this`line, this`lineStart, this`hadError
      ensures Valid() && cur == old(cur) + PieceLen(old(Ahead())) && more == (PieceLen(old(Ahead())) > 0)
      ensures hadError == (old(hadError) || Unclosed(old(Ahead())))
    {
      hide BlockLen, LineLen, BlockCloses, Newlines;
      From(src, cur);
      var c := Peek(0);
      more := true;
      if cur < |src| && IsSpace(c) {
        NewlinesNext(src, cur);
        cur := cur + 1;
        if c == '\n' { NewLine(); }
      } else if c == '\\' && (Peek(1) == '\n' || (Peek(1) == '\r' && Peek(2) == '\n')) {
        NewlinesNext(src, cur);
        cur := cur + 1;
        NewlinesNext(src, cur);
        if Peek(0) == '\r' {
          cur := cur + 1;
          NewlinesNext(src, cur);
        }
        cur := cur + 1;
        NewLine();
      } else if c == '/' && Peek(1) == '/' {
        SkipTwo();
        SkipLine();
      } else if c == '/' && Peek(1) == '*' {
        SkipTwo();
        SkipBlock();
      } else {
        more := false;
      }
    }

    /** Passes the two bytes that open a comment. */
    method SkipTwo()
      requires Valid() && cur + 1 < |src| && src[cur] != '\n' && src[cur + 1] != '\n'
      modifies this`cur
      ensures Valid() && cur == old(cur) + 2
    {
      NewlinesNext(src, cur);
      NewlinesNext(src, cur + 1);
      cur := cur + 2;
    }

    method SkipLine()
      requires Valid()
      modifies this`cur
      ensures Valid() && cur == old(cur) + LineLen(old(Ahead()))
    {
      ghost var start := Ahead();
      while cur < |src| && src[cur] != '\n'
        invariant Valid() && cur >= old(cur) && cur + LineLen(Ahead()) == old(cur) + LineLen(start)
      {
        From(src, cur);
        NewlinesNext(src, cur);
        cur := cur + 1;
      }
    }

    method SkipBlock()
      requires Valid()
      modifies this`cur, this`line, this`lineStart, this`hadError
      ensures Valid() && cur == old(cur) + BlockLen(old(Ahead()))
      ensures hadError == (old(hadError) || !BlockCloses(old(Ahead())))
    {
      hide BlockLen, BlockCloses, Newlines;
      ghost var start := Ahead();
      while cur < |src|
        invariant Valid() && cur >= old(cur) && hadError == old(hadError)
        invariant cur + BlockLen(Ahead()) == old(cur) + BlockLen(start)
        invariant BlockCloses(Ahead()) == BlockCloses(start)
      {
        BlockStep(src, cur);
        if src[cur] == '*' && Peek(1) == '/' {
          SkipTwo();
          return;
        }
        NewlinesNext(src, cur);
        if src[cur] == '\n' { NewLine(); }
        cur := cur + 1;
      }
      BlockStep(src, cur);
      hadError := true;
    }

    /** Moves past the bytes of a class. */
    method SkipRun(cls: CharClass)
      requires cur <= |src|
      modifies this`cur
      ensures old(cur) <= cur <= |src| && cur == old(cur) + Span(cls, old(Ahead()))
    {
      hide Has;
      ghost var start := Ahead();
      while cur < |src| && Has(cls, src[cur])
        invariant old(cur) <= cur <= |src| && cur + Span(cls, Ahead()) == old(cur) + Span(cls, start)
      {
        From(src, cur);
        cur := cur + 1;
      }
      From(src, cur);
    }

    /** The bytes from `start` to the cursor. */
    function Text(start: nat): string
      requires start <= cur <= |src|
      reads this
    {
      src[start..cur]
    }

    method NextToken() returns (t: Lexeme)
      requires Valid()
      modifies this
      ensures Valid()
      ensures old(hadError) ==> t.tok == Eof && cur == old(cur) && hadError
      ensures !old(hadError) ==>
        t.start == old(cur) + TriviaLen(old(Ahead())) && t.line + old(hidden) == 1 + Newlines(src[..t.start])
      ensures !old(hadError) && t.start == |src| ==>
        t.tok == Eof && cur == |src| && hidden == old(hidden) && hadError == !TriviaOk(old(Ahead()))
      ensures !old(hadError) && t.start < |src| ==>
        var r := LexToken(src[t.start..]);
        t.tok == r.tok && t.len == r.len && cur == t.start + t.len
        && hidden == old(hidden) + Newlines(src[t.start..cur])
        && hadError == (!TriviaOk(old(Ahead())) || r.tok == OtherTok)
      ensures !old(hadError) && t.start < |src| && t.tok != OtherTok && !Spliced(t.tok) ==> hidden == old(hidden)
    {
      hide LexToken, TriviaLen, TriviaOk, Newlines, Spliced;
      if hadError { return MakeToken(Eof, cur); }
      SkipTrivia();
      var start := cur;
      if cur == |src| { return MakeToken(Eof, start); }
      From(src, start);
      var tok := Dispatch();
      t := MakeToken(tok, start);
      assert src[..cur] == src[..start] + src[start..cur];
      NewlinesAppend(src[..start], src[start..cur]);
      hidden := hidden + Newlines(src[start..cur]);
      if tok != OtherTok && !Spliced(tok) {
        TokenOneLine(src[start..]);
        assert src[start..][..cur - start] == src[start..cur];
      }
    }

    function MakeToken(tok: Token, start: nat): Lexeme
      requires start <= cur
      reads this
    {
      Lexeme(tok, start, cur - start, line, start - lineStart + 1)
    }

    /** Chooses the kind of token by its first byte. */
    method Dispatch() returns (tok: Token)
      requires cur < |src|
      modifies this`cur, this`hadError
      ensures var r := LexToken(old(Ahead()));
              tok == r.tok && cur == old(cur) + r.len && hadError == (old(hadError) || tok == OtherTok)
    {
      hide LexWord, LexNumber, LexQuoted, LexPunct;
      var c := src[cur];
      From(src, cur);
      if IsAlpha(c) || c == '_' { tok := Identifier(); }
      else if IsDigit(c) { tok := Number(); }
      else if IsQuote(c) {
        cur := cur + 1;
        tok := Quoted(cur - 1, c);
      }
      else { tok := Punctuator(); }
    }

    method Identifier() returns (tok: Token)
      requires cur < |src| && IsWord(src[cur])
      modifies this`cur, this`hadError
      ensures var r := LexWord(old(Ahead()));
              tok == r.tok && cur == old(cur) + r.len && hadError == (old(hadError) || tok == OtherTok)
    {
      hide IsWord, KeywordOf, LexQuoted, Span;
      var start := cur;
      ghost var s := Ahead();
      SkipRun(Word);
      var word := src[start..cur];
      assert word == s[..Span(Word, s)];
      var q := Peek(0);
      if IsQuote(q) && IsPrefix(word, q) {
        assert s[cur - start] == q;
        cur := cur + 1;
        tok := Quoted(start, q);
      } else {
        assert cur - start < |s| ==> s[cur - start] == q;
        var kw := LookupKeyword(word);
        tok := match kw case Some(k) => Kw(k) case None => Name(word);
      }
    }

    /** Walks the keyword table. */
    method LookupKeyword(word: string) returns (r: Option<Keyword>)
      ensures r == KeywordOf(word)
    {
      hide KeywordText;
      for i := 0 to |KEYWORDS|
        invariant SearchFrom(KEYWORDS, word, i) == KeywordOf(word)
      {
        if KeywordText(KEYWORDS[i]) == word { return Some(KEYWORDS[i]); }
      }
      r := None;
    }

    /** The rest of a literal whose opening quote was just passed. */
    method Quoted(start: nat, q: char) returns (tok: Token)
      requires start < cur <= |src| && IsQuote(q) && src[cur - 1] == q
      modifies this`cur, this`hadError
      ensures var r := LexQuoted(src[start..], old(cur) - 1 - start);
              tok == r.tok && cur == start + r.len && hadError == (old(hadError) || tok == OtherTok)
    {
      hide QuotedLen, QuoteCloses;
      ghost var s := Ahead();
      assert src[start..][old(cur) - 1 - start + 1..] == s;
      while cur < |src|
        invariant old(cur) <= cur <= |src| && hadError == old(hadError)
        invariant cur + QuotedLen(Ahead(), q) == old(cur) + QuotedLen(s, q)
        invariant QuoteCloses(Ahead(), q) == QuoteCloses(s, q)
      {
        QuotedStep(src, cur, q);
        var c := src[cur];
        if c == q {
          cur := cur + 1;
          assert src[start..][..cur - start] == Text(start);
          return if q == '"' then StrTok(Text(start)) else CharTok(Text(start));
        }
        if c == '\n' { break; }
        if c == '\\' && cur + 1 < |src| { cur := cur + 1; }
        cur := cur + 1;
      }
      QuotedStep(src, cur, q);
      hadError := true;
      tok := OtherTok;
    }

    method Number() returns (tok: Token)
      requires cur < |src| && IsDigit(src[cur])
      modifies this`cur
      ensures var r := LexNumber(old(Ahead())); tok == r.tok && tok != OtherTok && cur == old(cur) + r.len
    {
      hide Span, FractionLen, NumberExponent, SuffixLen, IsHex, WholeLen, LexNumber, IsDigit;
      var start := cur;
      ghost var s := Ahead();
      var hex := Whole();
      ghost var a := cur - start;
      assert src[cur..] == s[a..];
      var point := Fraction(if hex then Hexadecimals else Decimals);
      ghost var b := cur - start - a;
      assert src[cur..] == s[a + b..];
      var exponent := AnyExponent(hex);
      ghost var c := cur - start - a - b;
      assert src[cur..] == s[a + b + c..];
      Suffixes(point || exponent);
      NumberParts(s, a, b, c);
      assert Text(start) == s[..cur - start];
      tok := if point || exponent then FloatTok(Text(start)) else IntTok(Text(start));
    }

    method AnyExponent(hex: bool) returns (found: bool)
      requires cur <= |src|
      modifies this`cur
      ensures cur == old(cur) + NumberExponent(hex, old(Ahead())) && found == (NumberExponent(hex, old(Ahead())) > 0)
    {
      hide ExponentLen, BinaryExponentLen;
      if hex { found := BinaryExponent(); } else { found := Exponent(); }
    }

    method Whole() returns (hex: bool)
      requires cur < |src|
      modifies this`cur
      ensures hex == IsHex(old(Ahead())) && cur == old(cur) + WholeLen(old(Ahead()))
    {
      hide Span;
      From(src, cur);
      hex := src[cur] == '0' && (Peek(1) == 'x' || Peek(1) == 'X');
      if hex {
        cur := cur + 2;
        SkipRun(Hexadecimals);
      } else {
        SkipRun(Decimals);
      }
    }

    method Fraction(cls: CharClass) returns (found: bool)
      requires cur <= |src|
      modifies this`cur
      ensures cur == old(cur) + FractionLen(cls, old(Ahead())) && found == (FractionLen(cls, old(Ahead())) > 0)
    {
      hide Span;
      From(src, cur);
      found := Peek(0) == '.';
      if found {
        cur := cur + 1;
        SkipRun(cls);
      }
    }

    /** Backs up when no digit follows the mark. */
    method Exponent() returns (found: bool)
      requires cur <= |src|
      modifies this`cur
      ensures cur == old(cur) + ExponentLen(old(Ahead())) && found == (ExponentLen(old(Ahead())) > 0)
    {
      hide Span;
      From(src, cur);
      found := false;
      if Peek(0) == 'e' || Peek(0) == 'E' {
        var save := cur;
        cur := cur + 1;
        if Peek(0) == '+' || Peek(0) == '-' { cur := cur + 1; }
        if IsDigit(Peek(0)) {
          found := true;
          SkipRun(Decimals);
        } else {
          cur := save;
        }
      }
    }

    method BinaryExponent() returns (found: bool)
      requires cur <= |src|
      modifies this`cur
      ensures cur == old(cur) + BinaryExponentLen(old(Ahead())) && found == (BinaryExponentLen(old(Ahead())) > 0)
    {
      hide Span;
      From(src, cur);
      found := Peek(0) == 'p' || Peek(0) == 'P';
      if found {
        cur := cur + 1;
        if Peek(0) == '+' || Peek(0) == '-' { cur := cur + 1; }
        SkipRun(Decimals);
      }
    }

    method Suffixes(isFloat: bool)
      requires cur <= |src|
      modifies this`cur
      ensures cur == old(cur) + SuffixLen(old(Ahead()), isFloat) <= |src|
    {
      hide SuffixLen;
      ghost var s := Ahead();
      while true
        invariant old(cur) <= cur <= |src| && cur + SuffixLen(Ahead(), isFloat) == old(cur) + SuffixLen(s, isFloat)
        decreases |src| - cur
      {
        SuffixStep(src, cur, isFloat);
        var c := Peek(0);
        if c == 'u' || c == 'U' {
          cur := cur + 1;
        } else if c == 'l' || c == 'L' {
          cur := cur + 1;
          if Peek(0) == c { cur := cur + 1; }
        } else if (c == 'f' || c == 'F') && isFloat {
          cur := cur + 1;
        } else {
          break;
        }
      }
    }

    method Punctuator() returns (tok: Token)
      requires cur < |src|
      modifies this`cur, this`hadError
      ensures var r := LexPunct(old(Ahead()));
              tok == r.tok && cur == old(cur) + r.len && hadError == (old(hadError) || tok == OtherTok)
    {
      From(src, cur);
      var p := PunctAt(src[cur..]);
      if p.None? {
        cur := cur + 1;
        hadError := true;
        return OtherTok;
      }
      PunctFits(src[cur..], p.value);
      cur := cur + |PunctText(p.value)|;
      tok := Sym(p.value);
    }

    /**
     What the parser is fed: tokens until the end of the text or the first error. A token's line is one
     plus the line ends before it as long as no literal before it holds a backslash-newline.
     */
    method Tokens() returns (ts: seq<Token>, places: seq<Lexeme>)
      requires Valid() && cur == 0 && hidden == 0 && !hadError
      modifies this
      ensures Valid() && LexAll(src) == Scan(ts, !hadError)
      ensures Placed(src, ts, places)
    {
      hide LexToken, TriviaLen, TriviaOk, LexAll, Newlines, Spliced, Placed, NoneSpliced;
      ts, places := [], [];
      assert src[0..] == src;
      NothingPlaced(src);
      while true
        invariant Valid() && !hadError && Placed(src, ts, places) && (NoneSpliced(ts) ==> hidden == 0)
        invariant LexAll(src) == Scan(ts + LexAll(Ahead()).tokens, LexAll(Ahead()).ok)
        decreases |src| - cur
      {
        ghost var s := Ahead();
        ghost var before := ts;
        var t := NextToken();
        LexOnce(s);
        BadTriviaEnds(s);
        assert src[t.start..] == s[TriviaLen(s)..];
        EofOnlyAtEnd(src[t.start..]);
        if t.tok == Eof {
          assert before + [] == before;
          break;
        }
        PlaceNext(src, ts, places, t);
        ts, places := ts + [t.tok], places + [t];
        if hadError { break; }
        assert Ahead() == s[TriviaLen(s)..][t.len..];
        assert before + ([t.tok] + LexAll(Ahead()).tokens) == ts + LexAll(Ahead()).tokens;
      }
    }
  }

  /** The places of tokens; lines are right up to the first literal with a backslash-newline, and for that one too. */
  predicate Placed(src: string, ts: seq<Token>, places: seq<Lexeme>) {
    |places| == |ts|
    && forall i :: 0 <= i < |ts| ==>
         places[i].tok == ts[i] && places[i].start <= |src|
         && (NoneSpliced(ts[..i]) ==> places[i].line == 1 + Newlines(src[..places[i].start]))
  }

  lemma NothingPlaced(src: string)
    ensures Placed(src, [], []) && NoneSpliced([])
  {
  }

  lemma PlaceNext(src: string, ts: seq<Token>, places: seq<Lexeme>, t: Lexeme)
    requires Placed(src, ts, places) && t.start <= |src|
    requires NoneSpliced(ts) ==> t.line == 1 + Newlines(src[..t.start])
    ensures Placed(src, ts + [t.tok], places + [t])
    ensures NoneSpliced(ts + [t.tok]) ==> NoneSpliced(ts) && !Spliced(t.tok)
  {
    hide Spliced, Newlines;
    var us := ts + [t.tok];
    assert us[..|ts|] == ts && us[|ts|] == t.tok;
    forall i | 0 <= i < |ts| ensures us[..i] == ts[..i] && us[i] == ts[i] {}
  }

  predicate NoneSpliced(ts: seq<Token>) { forall i :: 0 <= i < |ts| ==> !Spliced(ts[i]) }

  /** One turn of the specification. */
  lemma LexOnce(s: string)
    ensures var rest := s[TriviaLen(s)..];
            if !TriviaOk(s) then LexAll(s) == Scan([], false)
            else if rest == [] then LexAll(s) == Scan([], true)
            else if LexToken(rest).tok == OtherTok then LexAll(s) == Scan([OtherTok], false)
            else
              var more := LexAll(rest[LexToken(rest).len..]);
              LexAll(s) == Scan([LexToken(rest).tok] + more.tokens, more.ok)
  {
    hide LexToken, TriviaLen, TriviaOk;
  }

  lemma EofOnlyAtEnd(s: string)
    ensures s != [] ==> LexToken(s).tok != Eof
  {
    hide QuotedLen, QuoteCloses, PunctAt, WholeLen, FractionLen, NumberExponent, SuffixLen, Span, KeywordOf;
  }
}
