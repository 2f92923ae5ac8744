/** Spellings of every kind of token lex to that token alone. */
module Spelled {
  import opened Options
  import opened Tokens
  import opened Literals
  import opened Lexing
  import opened Respacing

  /** Bytes that do not continue a number or a word. */
  predicate Delim(tail: string) { tail == [] || (!IsWord(tail[0]) && tail[0] != '.') }

  predicate AllOf(cls: CharClass, s: string) { forall i :: 0 <= i < |s| ==> Has(cls, s[i]) }

  lemma {:induction false} SpanExact(cls: CharClass, d: string, rest: string)
    requires AllOf(cls, d) && (rest == [] || !Has(cls, rest[0]))
    ensures Span(cls, d + rest) == |d|
  {
    hide Has;
    if d == [] {
      assert d + rest == rest;
    } else {
      assert (d + rest)[1..] == d[1..] + rest;
      SpanExact(cls, d[1..], rest);
    }
  }

  // ----- integers -----

  lemma {:induction false} SuffixExact(marks: string, tail: string)
    requires AllMarks(marks) && Delim(tail)
    ensures SuffixLen(marks + tail, false) == |marks|
    decreases |marks|
  {
    var s := marks + tail;
    if marks == [] {
      assert s == tail;
    } else {
      assert s[1..] == marks[1..] + tail;
      if |marks| >= 2 {
        assert s[2..] == marks[2..] + tail && s[1] == marks[1];
        SuffixExact(marks[2..], tail);
      } else {
        assert At(s, 1) == At(tail, 0);
      }
      SuffixExact(marks[1..], tail);
    }
  }

  lemma {:induction false} DigitsHex(n: nat, base: nat, upper: bool)
    requires base in {8, 10, 16}
    ensures AllOf(if base == 16 then Hexadecimals else Decimals, Digits(n, base, upper))
  {
    if n > 0 {
      LastDigit(n, base);
      DigitsHex(n / base, base, upper);
      DigitHex(n % base, upper);
    }
  }

  lemma DigitHex(d: nat, upper: bool)
    requires d < 16
    ensures IsHexDigit(DigitChar(d, upper)) && (d < 10 ==> IsDigit(DigitChar(d, upper)))
  {
  }

  /** What follows the digits: marks and a delimiter. */
  lemma AfterDigits(marks: string, tail: string)
    requires AllMarks(marks) && Delim(tail)
    ensures var rest := marks + tail;
            (rest == [] || (!Has(Hexadecimals, rest[0]) && !Has(Decimals, rest[0])))
            && At(rest, 0) !in {'.', 'e', 'E', 'p', 'P', 'x', 'X'}
  {
  }

  /** Head digits, marks and a delimiter lex as one integer. */
  lemma IntegerLexes(head: string, marks: string, tail: string)
    requires AllMarks(marks) && Delim(tail) && head != [] && IsDigit(head[0])
    requires WholeLen(head + (marks + tail)) == |head| && IsHex(head + (marks + tail)) == IsHex(head)
    ensures LexToken(head + marks + tail) == Lexed(IntTok(head + marks), |head + marks|)
  {
    hide WholeLen, IsHex, Span, SuffixLen, IsWord;
    var s := head + marks + tail;
    assert s == head + (marks + tail);
    AfterDigits(marks, tail);
    assert s[|head|..] == marks + tail;
    assert s[|head| + 0..] == marks + tail && s[|head| + 0 + 0..] == marks + tail;
    SuffixExact(marks, tail);
    assert s[..|head + marks|] == head + marks;
    assert !IsAlpha(s[0]) && s[0] != '_';
  }

  lemma DecimalWhole(head: string, rest: string)
    requires head != [] && AllOf(Decimals, head)
    requires rest == [] || (!Has(Decimals, rest[0]) && rest[0] !in {'x', 'X'})
    ensures !IsHex(head + rest) && !IsHex(head) && WholeLen(head + rest) == |head|
  {
    hide Span;
    var s := head + rest;
    SpanExact(Decimals, head, rest);
    assert |head| == 1 ==> At(s, 1) == At(rest, 0);
    assert |head| > 1 ==> At(s, 1) == head[1] && Has(Decimals, head[1]);
  }

  lemma HexWhole(x: bool, d: string, rest: string)
    requires AllOf(Hexadecimals, d) && (rest == [] || !Has(Hexadecimals, rest[0]))
    ensures
      var head := (if x then "0X" else "0x") + d;
      IsHex(head + rest) && IsHex(head) && WholeLen(head + rest) == |head|
  {
    hide Span, Has;
    var head := (if x then "0X" else "0x") + d;
    assert (head + rest)[2..] == d + rest;
    SpanExact(Hexadecimals, d, rest);
  }

  /** Every spelling of an integer, with any marks, in front of a delimiter, is one integer token. */
  lemma IntegerIsOneToken(n: nat, r: Radix, marks: string, tail: string)
    requires AllMarks(marks) && Delim(tail)
    ensures var text := SpellInt(n, r) + marks; LexToken(text + tail) == Lexed(IntTok(text), |text|)
  {
    hide LexToken, Digits, Has, WholeLen, IsHex, IsWord;
    AfterDigits(marks, tail);
    var head := SpellInt(n, r);
    match r
    case Decimal =>
      DigitsHex(n, 10, false);
      if n > 0 { FirstDigit(n, 10, false); }
      ZeroDigit();
      DecimalWhole(head, marks + tail);
      DecimalHead(head);
      IntegerLexes(head, marks, tail);
    case Octal =>
      DigitsHex(n, 8, false);
      ZeroDigit();
      DecimalWhole(head, marks + tail);
      DecimalHead(head);
      IntegerLexes(head, marks, tail);
    case Hex(x, upper) =>
      DigitsHex(n, 16, upper);
      ZeroDigit();
      HexWhole(x, if n == 0 then "0" else Digits(n, 16, upper), marks + tail);
      IntegerLexes(head, marks, tail);
  }

  lemma ZeroDigit()
    ensures Has(Decimals, '0') && Has(Hexadecimals, '0') && IsDigit('0')
  {
  }

  lemma DecimalHead(head: string)
    ensures head != [] && Has(Decimals, head[0]) ==> IsDigit(head[0])
  {
  }

  // ----- strings and characters -----

  lemma EscapedByte(c: char, rest: string)
    ensures var e := EscapeByte(c);
            QuoteCloses(e + rest, '"') == QuoteCloses(rest, '"')
              && QuotedLen(e + rest, '"') == |e| + QuotedLen(rest, '"')
  {
    hide QuoteCloses, QuotedLen;
    var e := EscapeByte(c);
    if |e| == 1 {
      PlainByte(c, rest);
    } else if |e| == 2 {
      EscapePair(e[1], rest);
      assert e == ['\\', e[1]];
    } else {
      assert e + rest == ['\\', e[1]] + ([e[2]] + ([e[3]] + rest));
      EscapePair(e[1], [e[2]] + ([e[3]] + rest));
      OctalByte(c as int / 8 % 8, [e[3]] + rest);
      OctalByte(c as int % 8, rest);
    }
  }

  lemma PlainByte(c: char, rest: string)
    requires c !in {'"', '\\', '\n'}
    ensures QuoteCloses([c] + rest, '"') == QuoteCloses(rest, '"')
      && QuotedLen([c] + rest, '"') == 1 + QuotedLen(rest, '"')
  {
    assert ([c] + rest)[1..] == rest;
  }

  lemma OctalByte(d: nat, rest: string)
    requires d < 8
    ensures var x := [OctalDigit(d)] + rest;
            QuoteCloses(x, '"') == QuoteCloses(rest, '"') && QuotedLen(x, '"') == 1 + QuotedLen(rest, '"')
  {
    hide QuoteCloses, QuotedLen;
    PlainByte(OctalDigit(d), rest);
  }

  lemma EscapePair(e: char, rest: string)
    ensures var x := ['\\', e] + rest;
            QuoteCloses(x, '"') == QuoteCloses(rest, '"') && QuotedLen(x, '"') == 2 + QuotedLen(rest, '"')
  {
    assert (['\\', e] + rest)[2..] == rest;
  }

  lemma {:induction false} EscapedText(bytes: string, tail: string)
    ensures var x := EscapeText(bytes) + ("\"" + tail);
            QuoteCloses(x, '"') && QuotedLen(x, '"') == |EscapeText(bytes)| + 1
  {
    hide EscapeByte;
    var end := "\"" + tail;
    if bytes == [] {
      assert EscapeText(bytes) + end == end;
    } else {
      EscapedText(bytes[1..], tail);
      EscapedByte(bytes[0], EscapeText(bytes[1..]) + end);
      assert EscapeText(bytes) + end == EscapeByte(bytes[0]) + (EscapeText(bytes[1..]) + end);
    }
  }

  /** Quoted, any bytes escaped for the assembler form one string token, whatever follows. */
  lemma StringIsOneToken(bytes: string, tail: string)
    ensures var text := "\"" + EscapeText(bytes) + "\""; LexToken(text + tail) == Lexed(StrTok(text), |text|)
  {
    hide EscapeText, QuoteCloses, QuotedLen;
    var text := "\"" + EscapeText(bytes) + "\"";
    var s := text + tail;
    assert s[1..] == EscapeText(bytes) + ("\"" + tail);
    assert s[0 + 1..] == s[1..];
    EscapedText(bytes, tail);
    assert s[..|text|] == text;
  }

  lemma CharacterIsOneToken(code: nat, tail: string)
    requires code < 256
    ensures var text := SpellChar(code); LexToken(text + tail) == Lexed(CharTok(text), |text|)
  {
    var text := SpellChar(code);
    var s := text + tail;
    assert s[0 + 1..] == s[1..] == text[1..] + tail;
    var x, end := s[1..], "'" + tail;
    assert QuotedLen(end, '\'') == 1 && QuoteCloses(end, '\'');
    if |text| == 3 {
      assert x[1..] == end;
      assert QuotedLen(x, '\'') == 2 && QuoteCloses(x, '\'');
    } else {
      assert x[2..] == end;
      assert QuotedLen(x, '\'') == 3 && QuoteCloses(x, '\'');
    }
    assert s[..|text|] == text;
  }

  // ----- words and punctuators -----

  lemma PunctuatorFound(p: Punct)
    ensures PunctAt(PunctText(p)) == Some(p)
  {
    hide *;
    if |PunctText(p)| == 1 { MarkFound(p); }
    else { OperatorFound(p); }
  }

  lemma MarkFound(p: Punct)
    requires |PunctText(p)| == 1
    ensures PunctAt(PunctText(p)) == Some(p)
  {
  }

  lemma OperatorFound(p: Punct)
    requires |PunctText(p)| != 1
    ensures PunctAt(PunctText(p)) == Some(p)
  {
  }

  lemma PunctuatorStarts(p: Punct)
    ensures var c := PunctText(p)[0]; !IsWord(c) && !IsQuote(c) && !IsSpace(c) && c != '\\'
  {
    hide *;
    FirstByte(p);
    NoWordByte(PunctText(p)[0]);
  }

  lemma FirstByte(p: Punct)
    ensures PunctText(p)[0] in "[](){};,?:~.-+<>=!&|^*/%#"
  {
    var bytes := "[](){};,?:~.-+<>=!&|^*/%#";
    assert forall i :: 0 <= i < 25 ==> bytes[i] in bytes;
  }

  lemma NoWordByte(c: char)
    requires c in "[](){};,?:~.-+<>=!&|^*/%#"
    ensures !IsWord(c) && !IsQuote(c) && !IsSpace(c) && c != '\\'
  {
  }

  lemma PunctuatorIsNoComment(p: Punct)
    ensures PunctText(p)[0] == '/' ==> At(PunctText(p), 1) !in {'/', '*'}
  {
    hide IsWord, IsQuote, IsSpace;
  }

  lemma PunctuatorLexes(p: Punct)
    ensures LexToken(PunctText(p)) == Lexed(Sym(p), |PunctText(p)|) && PieceLen(PunctText(p)) == 0
  {
    hide PunctAt, PunctText;
    PunctuatorFound(p);
    PunctuatorStarts(p);
    PunctuatorIsNoComment(p);
  }

  /** The keyword a text is, found by its length. */
  function Reserved(s: string): Option<Keyword> {
    if |s| == 2 then (if s == "do" then Some(KwDo) else if s == "if" then Some(KwIf) else None)
    else if |s| == 3 then (if s == "for" then Some(KwFor) else if s == "int" then Some(KwInt) else None)
    else if |s| == 4 then Reserved4(s)
    else if |s| == 5 then Reserved5(s)
    else if |s| == 6 then Reserved6(s)
    else if |s| == 7 then
      (if s == "default" then Some(KwDefault) else if s == "typedef" then Some(KwTypedef)
       else if s == "_Atomic" then Some(KwAtomic) else None)
    else if |s| == 8 then Reserved8(s)
    else if s == "_Noreturn" then Some(KwNoreturn)
    else if s == "_Imaginary" then Some(KwImaginary)
    else if s == "_Thread_local" then Some(KwThreadLocal)
    else if s == "_Static_assert" then Some(KwStaticAssert)
    else None
  }

  function Reserved4(s: string): Option<Keyword> {
    if s == "auto" then Some(KwAuto) else if s == "case" then Some(KwCase) else if s == "char" then Some(KwChar)
    else if s == "else" then Some(KwElse) else if s == "enum" then Some(KwEnum) else if s == "goto" then Some(KwGoto)
    else if s == "long" then Some(KwLong) else if s == "void" then Some(KwVoid) else None
  }

  function Reserved5(s: string): Option<Keyword> {
    if s == "break" then Some(KwBreak) else if s == "const" then Some(KwConst) else if s == "float" then Some(KwFloat)
    else if s == "short" then Some(KwShort) else if s == "union" then Some(KwUnion)
    else if s == "while" then Some(KwWhile)
    else if s == "_Bool" then Some(KwBool) else None
  }

  function Reserved6(s: string): Option<Keyword> {
    if s == "double" then Some(KwDouble) else if s == "extern" then Some(KwExtern)
    else if s == "inline" then Some(KwInline)
    else if s == "return" then Some(KwReturn) else if s == "signed" then Some(KwSigned)
    else if s == "sizeof" then Some(KwSizeof)
    else if s == "static" then Some(KwStatic) else if s == "struct" then Some(KwStruct)
    else if s == "switch" then Some(KwSwitch)
    else None
  }

  function Reserved8(s: string): Option<Keyword> {
    if s == "continue" then Some(KwContinue) else if s == "register" then Some(KwRegister)
    else if s == "restrict" then Some(KwRestrict) else if s == "unsigned" then Some(KwUnsigned)
    else if s == "volatile" then Some(KwVolatile) else if s == "_Alignas" then Some(KwAlignas)
    else if s == "_Alignof" then Some(KwAlignof) else if s == "_Complex" then Some(KwComplex)
    else if s == "_Generic" then Some(KwGeneric) else None
  }

  lemma ShortKeywordsDiffer(k: Keyword)
    ensures |KeywordText(k)| == 4 ==> Reserved4(KeywordText(k)) == Some(k)
  {
  }

  lemma FiveLetterKeywordsDiffer(k: Keyword)
    ensures |KeywordText(k)| == 5 ==> Reserved5(KeywordText(k)) == Some(k)
  {
  }

  lemma MediumKeywordsDiffer(k: Keyword)
    ensures |KeywordText(k)| == 6 ==> Reserved6(KeywordText(k)) == Some(k)
  {
  }

  lemma LongKeywordsDiffer(k: Keyword)
    ensures |KeywordText(k)| == 8 ==> Reserved8(KeywordText(k)) == Some(k)
  {
  }

  lemma KeywordsDiffer(k: Keyword)
    ensures Reserved(KeywordText(k)) == Some(k)
  {
    hide Reserved4, Reserved5, Reserved6, Reserved8;
    ShortKeywordsDiffer(k);
    FiveLetterKeywordsDiffer(k);
    MediumKeywordsDiffer(k);
    LongKeywordsDiffer(k);
  }

  lemma InTable(k: Keyword)
    ensures k in KEYWORDS
  {
  }

  lemma {:induction false} SearchKeyword(table: seq<Keyword>, k: Keyword, i: nat, j: nat)
    requires i <= j < |table| && table[j] == k
    ensures SearchFrom(table, KeywordText(k), i) == Some(k)
    decreases j - i
  {
    hide KeywordText, Reserved;
    KeywordsDiffer(k);
    KeywordsDiffer(table[i]);
    if KeywordText(table[i]) != KeywordText(k) { SearchKeyword(table, k, i + 1, j); }
  }

  /** The table has each keyword's own text for it. */
  lemma KeywordFound(k: Keyword)
    ensures KeywordOf(KeywordText(k)) == Some(k)
  {
    hide KeywordText, SearchFrom;
    InTable(k);
    var j :| 0 <= j < |KEYWORDS| && KEYWORDS[j] == k;
    SearchKeyword(KEYWORDS, k, 0, j);
  }

  /** Letters, digits and underscores, not starting with a digit. */
  predicate WordText(s: string) { s != [] && (IsAlpha(s[0]) || s[0] == '_') && AllOf(Word, s) }

  lemma ShortKeyword(k: Keyword)
    ensures |KeywordText(k)| <= 3 ==> WordText(KeywordText(k))
  {
  }

  lemma FourLetters(k: Keyword)
    ensures |KeywordText(k)| == 4 ==> WordText(KeywordText(k))
  {
  }

  lemma FiveLetters(k: Keyword)
    ensures |KeywordText(k)| == 5 ==> WordText(KeywordText(k))
  {
  }

  lemma SixLetters(k: Keyword)
    ensures |KeywordText(k)| == 6 ==> WordText(KeywordText(k))
  {
  }

  lemma SevenLetters(k: Keyword)
    ensures |KeywordText(k)| == 7 ==> WordText(KeywordText(k))
  {
  }

  lemma EightLetters(k: Keyword)
    ensures |KeywordText(k)| == 8 ==> WordText(KeywordText(k))
  {
  }

  lemma LongKeyword(k: Keyword)
    ensures |KeywordText(k)| >= 9 ==> WordText(KeywordText(k))
  {
  }

  lemma KeywordSpelled(k: Keyword)
    ensures WordText(KeywordText(k))
  {
    hide KeywordText, WordText;
    ShortKeyword(k);
    FourLetters(k);
    FiveLetters(k);
    SixLetters(k);
    SevenLetters(k);
    EightLetters(k);
    LongKeyword(k);
  }

  predicate IsIdentifier(s: string) {
    WordText(s) && KeywordOf(s).None?
  }

  lemma WordLexes(s: string)
    requires WordText(s)
    ensures PieceLen(s) == 0
    ensures LexToken(s) == Lexed(match KeywordOf(s) case Some(k) => Kw(k) case None => Name(s), |s|)
  {
    hide KeywordOf, Span;
    SpanExact(Word, s, []);
    assert s + [] == s && s[..|s|] == s;
  }

  // ----- tokens that stand alone -----

  lemma SymLone(p: Punct)
    ensures Lone(Sym(p))
  {
    hide LexToken, PieceLen, PunctText, Lone;
    PunctuatorLexes(p);
    TokenIsLone(PunctText(p));
  }

  lemma KeywordLone(k: Keyword)
    ensures Lone(Kw(k))
  {
    hide LexToken, PieceLen, KeywordText, Lone, KeywordOf, IsAlpha, Has;
    KeywordSpelled(k);
    KeywordFound(k);
    WordLexes(KeywordText(k));
    TokenIsLone(KeywordText(k));
  }

  lemma NameLone(s: string)
    requires IsIdentifier(s)
    ensures Lone(Name(s))
  {
    hide LexToken, PieceLen, Lone, KeywordOf, IsAlpha, Has;
    WordLexes(s);
    TokenIsLone(s);
  }

  lemma IntegerLone(n: nat, r: Radix, marks: string)
    requires AllMarks(marks)
    ensures Lone(IntTok(SpellInt(n, r) + marks))
  {
    hide LexToken, Lone, SpellInt, PieceLen;
    var text := SpellInt(n, r) + marks;
    IntegerIsOneToken(n, r, marks, []);
    assert text + [] == text;
    LoneText(text);
  }

  lemma StringLone(bytes: string)
    ensures Lone(StrTok("\"" + EscapeText(bytes) + "\""))
  {
    hide LexToken, Lone, EscapeText, PieceLen;
    var text := "\"" + EscapeText(bytes) + "\"";
    StringIsOneToken(bytes, []);
    assert text + [] == text;
    LoneText(text);
  }

  lemma CharacterLone(code: nat)
    requires code < 256
    ensures Lone(CharTok(SpellChar(code)))
  {
    hide LexToken, Lone, SpellChar, PieceLen;
    var text := SpellChar(code);
    CharacterIsOneToken(code, []);
    assert text + [] == text;
    LoneText(text);
  }

  lemma LoneText(text: string)
    requires text != [] && LexToken(text).tok in {IntTok(text), StrTok(text), CharTok(text)}
    ensures Lone(LexToken(text).tok)
  {
    hide LexToken, Lone, PieceLen;
    LiteralStarts(text);
    TokenIsLone(text);
  }

  lemma LiteralStarts(text: string)
    requires text != [] && (LexToken(text).tok.IntTok? || LexToken(text).tok.StrTok? || LexToken(text).tok.CharTok?)
    ensures PieceLen(text) == 0
  {
    hide KeywordOf, Span, QuotedLen, QuoteCloses, WholeLen, FractionLen, NumberExponent, SuffixLen, LineLen, BlockLen;
  }
}
