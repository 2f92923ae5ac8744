/** Keywords and identifiers as section 6.4 of ISO C11 lists them, against the lexer (Lexer.c:8-67, 286-342). */
module Vocabulary {
  import opened Options
  import opened Tokens
  import opened Literals
  import opened Lexing
  import opened Respacing
  import opened Spelled

  /** Section 6.4.2.1. */
  const SMALL: string := "abcdefghijklmnopqrstuvwxyz"
  const CAPITAL: string := "ABCDEFGHIJKLMNOPQRSTUVWXYZ"
  const DIGITS: string := "0123456789"

  predicate StartsName(c: char) { c in SMALL || c in CAPITAL || c == '_' }
  predicate ContinuesName(c: char) { StartsName(c) || c in DIGITS }

  predicate InName(w: string) { forall i :: 0 <= i < |w| ==> ContinuesName(w[i]) }

  /** Letters, digits and underscores, the first no digit. */
  predicate NameForm(w: string) { w != [] && StartsName(w[0]) && InName(w) }

  // ----- bytes -----

  lemma SmallLetter(c: char)
    ensures 'a' <= c <= 'z' <==> c in SMALL
  {
    if 'a' <= c <= 'z' { assert SMALL[c as int - 'a' as int] == c; }
    assert forall i :: 0 <= i < 26 ==> 'a' <= SMALL[i] <= 'z';
  }

  lemma CapitalLetter(c: char)
    ensures 'A' <= c <= 'Z' <==> c in CAPITAL
  {
    if 'A' <= c <= 'Z' { assert CAPITAL[c as int - 'A' as int] == c; }
    assert forall i :: 0 <= i < 26 ==> 'A' <= CAPITAL[i] <= 'Z';
  }

  lemma Digit(c: char)
    ensures IsDigit(c) <==> c in DIGITS
  {
    if IsDigit(c) { assert DIGITS[c as int - '0' as int] == c; }
    assert forall i :: 0 <= i < 10 ==> IsDigit(DIGITS[i]);
  }

  lemma HexDigit(c: char)
    ensures IsHexDigit(c) <==> c in DIGITS || c in "abcdef" || c in "ABCDEF"
  {
    hide IsDigit;
    Digit(c);
    var small, capital := "abcdef", "ABCDEF";
    if 'a' <= c <= 'f' { assert small[c as int - 'a' as int] == c; }
    if 'A' <= c <= 'F' { assert capital[c as int - 'A' as int] == c; }
    assert forall i :: 0 <= i < 6 ==> 'a' <= small[i] <= 'f' && 'A' <= capital[i] <= 'F';
  }

  lemma NameByte(c: char)
    ensures IsWord(c) <==> ContinuesName(c)
    ensures IsAlpha(c) || c == '_' <==> StartsName(c)
    ensures StartsName(c) ==> !IsDigit(c)
  {
    hide IsDigit;
    SmallLetter(c);
    CapitalLetter(c);
    Digit(c);
    Apart(c);
  }

  lemma Apart(c: char)
    ensures IsAlpha(c) || c == '_' ==> !IsDigit(c)
  {
  }

  lemma NameBytes(w: string)
    ensures AllOf(Word, w) <==> InName(w)
  {
    hide IsWord, ContinuesName;
    forall i | 0 <= i < |w| ensures IsWord(w[i]) <==> ContinuesName(w[i]) { NameByte(w[i]); }
  }

  // ----- keywords -----

  lemma Reserved4Text(w: string)
    ensures Reserved4(w).Some? ==> KeywordText(Reserved4(w).value) == w
  {
  }

  lemma Reserved5Text(w: string)
    ensures Reserved5(w).Some? ==> KeywordText(Reserved5(w).value) == w
  {
  }

  const SIX: set<string> := {"double", "extern", "inline", "return", "signed"}

  lemma SixEarly(w: string)
    requires w in SIX && Reserved6(w).Some?
    ensures KeywordText(Reserved6(w).value) == w
  {
  }

  lemma SixLate(w: string)
    requires w !in SIX && Reserved6(w).Some?
    ensures KeywordText(Reserved6(w).value) == w
  {
  }

  const EIGHT: set<string> := {"continue", "register", "restrict", "unsigned", "volatile"}

  lemma EightPlain(w: string)
    requires w in EIGHT && Reserved8(w).Some?
    ensures KeywordText(Reserved8(w).value) == w
  {
  }

  lemma EightMarked(w: string)
    requires w !in EIGHT && Reserved8(w).Some?
    ensures KeywordText(Reserved8(w).value) == w
  {
    hide KeywordText;
    MarkedText(w, Reserved8(w).value);
  }

  lemma MarkedText(w: string, k: Keyword)
    requires
      w == match k
        case KwAlignas => "_Alignas"
        case KwAlignof => "_Alignof"
        case KwComplex => "_Complex"
        case KwGeneric => "_Generic"
        case _ => ""
    requires k in {KwAlignas, KwAlignof, KwComplex, KwGeneric}
    ensures KeywordText(k) == w
  {
  }

  lemma ReservedShort(w: string)
    requires |w| < 4 && Reserved(w).Some?
    ensures KeywordText(Reserved(w).value) == w
  {
  }

  lemma Reserved7(w: string)
    requires |w| == 7 && Reserved(w).Some?
    ensures KeywordText(Reserved(w).value) == w
  {
  }

  lemma ReservedLong(w: string)
    requires |w| > 8 && Reserved(w).Some?
    ensures KeywordText(Reserved(w).value) == w
  {
  }

  lemma ReservedSize(w: string)
    ensures |w| == 4 ==> Reserved(w) == Reserved4(w)
    ensures |w| == 5 ==> Reserved(w) == Reserved5(w)
    ensures |w| == 6 ==> Reserved(w) == Reserved6(w)
    ensures |w| == 8 ==> Reserved(w) == Reserved8(w)
  {
    hide Reserved4, Reserved5, Reserved6, Reserved8;
  }

  lemma ReservedText(w: string)
    requires Reserved(w).Some?
    ensures KeywordText(Reserved(w).value) == w
  {
    hide KeywordText, Reserved, Reserved4, Reserved5, Reserved6, Reserved8;
    ReservedSize(w);
    if |w| < 4 { ReservedShort(w); }
    else if |w| == 4 { Reserved4Text(w); }
    else if |w| == 5 { Reserved5Text(w); }
    else if |w| == 6 && w in SIX { SixEarly(w); }
    else if |w| == 6 { SixLate(w); }
    else if |w| == 7 { Reserved7(w); }
    else if |w| > 8 { ReservedLong(w); }
    else if w in EIGHT { EightPlain(w); }
    else { EightMarked(w); }
  }

  /** The search finds the keywords of section 6.4.1, each by its text, and nothing else. */
  lemma KeywordsExactly(w: string)
    ensures KeywordOf(w) == Reserved(w)
  {
    hide KeywordText, SearchFrom, Reserved;
    if Reserved(w).Some? {
      ReservedText(w);
      KeywordFound(Reserved(w).value);
    }
    if KeywordOf(w).Some? {
      SearchFinds(KEYWORDS, w, 0);
      KeywordsDiffer(KeywordOf(w).value);
    }
  }

  // ----- words as tokens -----

  /** What a word is as a token: the keyword it spells, or a name. */
  function WordToken(w: string): Token {
    match Reserved(w)
    case Some(k) => Kw(k)
    case None => Name(w)
  }

  /** A word, in front of what does not continue it and of no literal it is the prefix of, is one token. */
  lemma WordIsOneToken(w: string, tail: string)
    requires NameForm(w)
    requires tail == [] || (!ContinuesName(tail[0]) && !(tail[0] in "\"'" && w in {"L", "u", "U", "u8"}))
    ensures LexToken(w + tail).len == |w| && LexToken(w + tail).tok == WordToken(w)
  {
    hide IsWord, IsAlpha, ContinuesName, StartsName, KeywordOf, Reserved, Span, LexQuoted;
    var s := w + tail;
    NameByte(w[0]);
    NameBytes(w);
    if tail != [] { NameByte(tail[0]); }
    SpanExact(Word, w, tail);
    assert s[0] == w[0] && s[..|w|] == w;
    KeywordsExactly(w);
  }

  /** A name or keyword read is a word of that form, none of whose bytes was left behind. */
  lemma WordRead(s: string)
    requires s != [] && (LexToken(s).tok.Name? || LexToken(s).tok.Kw?)
    ensures
      var n := LexToken(s).len;
      NameForm(s[..n]) && (n == |s| || !ContinuesName(s[n])) && LexToken(s).tok == WordToken(s[..n])
  {
    hide IsWord, IsAlpha, ContinuesName, StartsName, KeywordOf, Reserved, Span, PunctAt, QuotedLen, QuoteCloses;
    var n := LexToken(s).len;
    NameByte(s[0]);
    SpanRead(s);
    NameBytes(s[..n]);
    if n < |s| { NameByte(s[n]); }
    KeywordsExactly(s[..n]);
  }

  /** The run of a class is of that class and ends where it ends. */
  lemma {:induction false} SpanRead(s: string)
    ensures AllOf(Word, s[..Span(Word, s)])
    ensures Span(Word, s) < |s| ==> !Has(Word, s[Span(Word, s)])
    ensures s != [] && Has(Word, s[0]) ==> Span(Word, s) > 0
  {
    hide IsWord;
    if s != [] && Has(Word, s[0]) {
      SpanRead(s[1..]);
      assert forall i :: 0 < i < Span(Word, s) ==> s[..Span(Word, s)][i] == s[1..][..Span(Word, s[1..])][i - 1];
    }
  }
}
