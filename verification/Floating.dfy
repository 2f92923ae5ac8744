/** Floating constants as section 6.4.4.2 of ISO C11 writes them, against the lexer (Lexer.c:464-525). */
module Floating {
  import opened Options
  import opened Tokens
  import opened Literals
  import opened Lexing
  import opened Spelled

  /** An exponent: its mark, an optional sign, and its digits. */
  datatype Exponent = Exponent(mark: char, sign: string, digits: string)

  /**
   A floating constant: a hexadecimal prefix or none, the digits before the point, whether there is a
   point, the digits after it, the exponent, the suffix.
   */
  datatype Constant =
    Constant(prefix: string, whole: string, point: bool, fraction: string, exponent: Option<Exponent>, suffix: string)

  predicate IsHexConstant(f: Constant) { f.prefix != [] }

  function ClassOf(f: Constant): CharClass { if IsHexConstant(f) then Hexadecimals else Decimals }

  /** An exponent of the grammar: `e` for decimal constants, `p` for hexadecimal ones, with at least one digit. */
  predicate GoodExponent(x: Exponent, hex: bool) {
    x.mark in (if hex then {'p', 'P'} else {'e', 'E'})
    && x.sign in {"", "+", "-"} && x.digits != [] && AllOf(Decimals, x.digits)
  }

  /** The productions: digits with a point and an optional exponent, or digits without a point and an exponent. */
  predicate InGrammar(f: Constant) {
    f.prefix in {"", "0x", "0X"} && f.suffix in {"", "f", "F", "l", "L"}
    && AllOf(ClassOf(f), f.whole) && AllOf(ClassOf(f), f.fraction)
    && (f.whole != [] || f.fraction != []) && (!f.point ==> f.fraction == [])
    && (f.exponent.Some? ==> GoodExponent(f.exponent.value, IsHexConstant(f)))
    && (f.exponent.Some? || (f.point && !IsHexConstant(f)))
  }

  function ExponentText(x: Option<Exponent>): string {
    match x
    case None => ""
    case Some(e) => [e.mark] + e.sign + e.digits
  }

  function Text(f: Constant): string {
    f.prefix + f.whole + ((if f.point then "." else "") + f.fraction + (ExponentText(f.exponent) + f.suffix))
  }

  // ----- the parts -----

  lemma SuffixRead(suffix: string, tail: string)
    requires suffix in {"", "f", "F", "l", "L"} && Delim(tail)
    ensures SuffixLen(suffix + tail, true) == |suffix|
  {
    var s := suffix + tail;
    if suffix == "" { assert s == tail; } else { assert s[1..] == tail && At(s, 1) == At(tail, 0); }
  }

  lemma ExponentRead(x: Exponent, hex: bool, rest: string)
    requires GoodExponent(x, hex) && (rest == [] || !IsDigit(rest[0]))
    ensures NumberExponent(hex, ExponentText(Some(x)) + rest) == |ExponentText(Some(x))|
  {
    hide Span;
    var s := ExponentText(Some(x)) + rest;
    var k := 1 + |x.sign|;
    assert s[0] == x.mark;
    if x.sign == "" {
      assert s[1] == x.digits[0] && Has(Decimals, x.digits[0]);
    } else {
      assert s[1] == x.sign[0];
    }
    assert SignLen(s, 1) == |x.sign|;
    assert s[k] == x.digits[0] && Has(Decimals, x.digits[0]);
    assert s[k..] == x.digits + rest;
    SpanExact(Decimals, x.digits, rest);
  }

  lemma NoExponentRead(hex: bool, rest: string)
    requires At(rest, 0) !in {'e', 'E', 'p', 'P'}
    ensures NumberExponent(hex, rest) == 0
  {
  }

  lemma FractionRead(cls: CharClass, point: bool, fraction: string, rest: string)
    requires cls != Word && AllOf(cls, fraction) && (!point ==> fraction == [] && At(rest, 0) != '.')
    requires rest == [] || !Has(cls, rest[0])
    ensures var t := (if point then "." else "") + fraction; FractionLen(cls, t + rest) == |t|
  {
    hide Span;
    var t := (if point then "." else "") + fraction;
    if point {
      assert (t + rest)[1..] == fraction + rest;
      SpanExact(cls, fraction, rest);
    } else {
      assert t + rest == rest;
    }
  }

  /** What may follow digits of a constant: its point, exponent, suffix or the text after it. */
  predicate Ends(cls: CharClass, rest: string) {
    (rest == [] || !Has(cls, rest[0])) && At(rest, 0) !in {'x', 'X'}
  }

  lemma WholeRead(f: Constant, rest: string)
    requires InGrammar(f) && (IsHexConstant(f) || f.whole != []) && Ends(ClassOf(f), rest)
    ensures var h := f.prefix + f.whole; WholeLen(h + rest) == |h| && IsHex(h + rest) == IsHexConstant(f)
  {
    hide Span, WholeLen;
    if f.prefix == "" {
      assert f.prefix + f.whole == f.whole;
      DecimalWhole(f.whole, rest);
    } else {
      HexWhole(f.prefix == "0X", f.whole, rest);
    }
  }

  /** What follows the digits of a constant does not continue them. */
  lemma TailEnds(f: Constant, tail: string)
    requires InGrammar(f) && Delim(tail)
    ensures
      var last := f.suffix + tail;
      (last == [] || !IsDigit(last[0])) && At(last, 0) !in {'.', 'e', 'E', 'p', 'P'}
      && (f.exponent.None? ==> Ends(ClassOf(f), last))
  {
  }

  lemma ExponentEnds(f: Constant, tail: string)
    requires InGrammar(f) && Delim(tail)
    ensures
      var more := ExponentText(f.exponent) + (f.suffix + tail);
      Ends(ClassOf(f), more) && At(more, 0) != '.'
  {
    var last := f.suffix + tail;
    TailEnds(f, tail);
    if f.exponent.None? { assert ExponentText(f.exponent) + last == last; }
  }

  lemma PointEnds(f: Constant, more: string)
    requires InGrammar(f) && Ends(ClassOf(f), more)
    ensures Ends(ClassOf(f), (if f.point then "." else "") + f.fraction + more)
  {
    var t := (if f.point then "." else "") + f.fraction;
    if !f.point { assert t + more == more; } else { assert (t + more)[0] == '.'; }
  }

  // ----- the constant -----

  lemma Cut(a: string, b: string)
    ensures (a + b)[|a|..] == b && (a + b)[..|a|] == a
  {
  }

  /** Where the parts of a text begin. */
  lemma Parts(h: string, t: string, x: string, u: string, rest: string)
    ensures
      var s := h + (t + (x + (u + rest)));
      s[|h|..] == t + (x + (u + rest)) && s[|h| + |t|..] == x + (u + rest)
      && s[|h| + |t| + |x|..] == u + rest && s[..|h| + |t| + |x| + |u|] == h + t + x + u
  {
    var s := h + (t + (x + (u + rest)));
    Cut(h, t + (x + (u + rest)));
    assert s == (h + t) + (x + (u + rest)) by { Joined(h, t, x + (u + rest)); }
    Cut(h + t, x + (u + rest));
    assert s == (h + t + x) + (u + rest) by { Joined(h + t, x, u + rest); }
    Cut(h + t + x, u + rest);
    assert s == (h + t + x + u) + rest by { Joined(h + t + x, u, rest); }
    Cut(h + t + x + u, rest);
  }

  lemma Joined(a: string, b: string, c: string)
    ensures a + (b + c) == (a + b) + c
  {
  }

  lemma NumberByLengths(s: string, a: nat, b: nat, c: nat, d: nat)
    requires s != [] && IsDigit(s[0]) && WholeLen(s) == a && a + b + c + d <= |s|
    requires FractionLen(if IsHex(s) then Hexadecimals else Decimals, s[a..]) == b
    requires NumberExponent(IsHex(s), s[a + b..]) == c && SuffixLen(s[a + b + c..], b > 0 || c > 0) == d
    ensures
      var text := s[..a + b + c + d];
      LexNumber(s) == Lexed(if b > 0 || c > 0 then FloatTok(text) else IntTok(text), a + b + c + d)
  {
    hide WholeLen, IsHex, FractionLen, NumberExponent, SuffixLen, IsDigit;
  }

  /** A number is read part by part. */
  lemma NumberParts(h: string, t: string, x: string, u: string, rest: string)
    requires var s := h + (t + (x + (u + rest)));
             s != [] && IsDigit(s[0]) && WholeLen(s) == |h|
             && FractionLen(if IsHex(s) then Hexadecimals else Decimals, t + (x + (u + rest))) == |t|
             && NumberExponent(IsHex(s), x + (u + rest)) == |x|
             && SuffixLen(u + rest, |t| > 0 || |x| > 0) == |u|
    ensures
      var s := h + (t + (x + (u + rest)));
      var text := h + t + x + u;
      LexNumber(s) == Lexed(if |t| > 0 || |x| > 0 then FloatTok(text) else IntTok(text), |text|)
  {
    hide *;
    Parts(h, t, x, u, rest);
    NumberByLengths(h + (t + (x + (u + rest))), |h|, |t|, |x|, |u|);
  }

  /**
   Every floating constant of the grammar, in front of a delimiter, is one token of its whole text; but
   one that begins with the point is cut there.
   */
  lemma FloatingIsOneToken(f: Constant, tail: string)
    requires InGrammar(f) && Delim(tail)
    ensures LexToken(Text(f) + tail) == Lexed(FloatTok(Text(f)), |Text(f)|) <==> IsHexConstant(f) || f.whole != []
  {
    hide LexNumber, PunctAt, PunctText, Ends;
    if IsHexConstant(f) || f.whole != [] {
      NumberRead(f, tail);
      FirstDigit(f, tail);
    } else {
      var s := Text(f) + tail;
      assert s[0] == '.';
      PointStarts(s);
    }
  }

  lemma FirstDigit(f: Constant, tail: string)
    requires InGrammar(f) && (IsHexConstant(f) || f.whole != [])
    ensures var s := Text(f) + tail; s != [] && IsDigit(s[0]) && !IsAlpha(s[0]) && s[0] != '_'
  {
    var s := Text(f) + tail;
    if f.prefix == "" { assert s[0] == f.whole[0] && Has(Decimals, f.whole[0]); } else { assert s[0] == '0'; }
  }

  lemma PointStarts(s: string)
    requires s != [] && s[0] == '.'
    ensures LexToken(s).tok.Sym?
  {
  }

  lemma NumberRead(f: Constant, tail: string)
    requires InGrammar(f) && Delim(tail) && (IsHexConstant(f) || f.whole != [])
    ensures var s := Text(f) + tail;
            s != [] && IsDigit(s[0]) && LexNumber(s) == Lexed(FloatTok(Text(f)), |Text(f)|)
  {
    hide WholeLen, IsHex, FractionLen, NumberExponent, SuffixLen, InGrammar, Ends, LexNumber, IsDigit;
    var h, t, x := f.prefix + f.whole, (if f.point then "." else "") + f.fraction, ExponentText(f.exponent);
    var more := x + (f.suffix + tail);
    assert Text(f) + tail == h + (t + more) && Text(f) == h + t + x + f.suffix;
    FirstDigit(f, tail);
    ExponentEnds(f, tail);
    PointEnds(f, more);
    WholeRead(f, t + more);
    FractionPart(f, more);
    ExponentPart(f, tail);
    FloatMarked(f);
    SuffixPart(f, tail);
    NumberParts(h, t, x, f.suffix, tail);
  }

  lemma FractionPart(f: Constant, more: string)
    requires InGrammar(f) && Ends(ClassOf(f), more) && At(more, 0) != '.'
    ensures var t := (if f.point then "." else "") + f.fraction;
            FractionLen(if IsHexConstant(f) then Hexadecimals else Decimals, t + more) == |t|
  {
    FractionRead(ClassOf(f), f.point, f.fraction, more);
  }

  lemma ExponentPart(f: Constant, tail: string)
    requires InGrammar(f) && Delim(tail)
    ensures var x := ExponentText(f.exponent); NumberExponent(IsHexConstant(f), x + (f.suffix + tail)) == |x|
  {
    var last := f.suffix + tail;
    TailEnds(f, tail);
    if f.exponent.Some? {
      ExponentRead(f.exponent.value, IsHexConstant(f), last);
    } else {
      assert ExponentText(f.exponent) + last == last;
      NoExponentRead(IsHexConstant(f), last);
    }
  }

  lemma SuffixPart(f: Constant, tail: string)
    requires InGrammar(f) && Delim(tail)
    ensures SuffixLen(f.suffix + tail, true) == |f.suffix|
  {
    SuffixRead(f.suffix, tail);
  }

  /** A constant of the grammar shows that it is floating: it has a point or an exponent. */
  lemma FloatMarked(f: Constant)
    requires InGrammar(f)
    ensures |(if f.point then "." else "") + f.fraction| > 0 || |ExponentText(f.exponent)| > 0
  {
  }

  // ----- what is given back -----

  /** `e` with an optional sign but no digit after it does not belong to the number before it. */
  predicate BareExponent(rest: string) {
    At(rest, 0) in {'e', 'E'} && !IsDigit(At(rest, 1 + SignLen(rest, 1)))
  }

  /** A mark without exponent digits is given back: the number ends before it. */
  lemma MarkGivenBack(whole: string, point: bool, fraction: string, rest: string)
    requires whole != [] && AllOf(Decimals, whole) && AllOf(Decimals, fraction) && (!point ==> fraction == [])
    requires BareExponent(rest)
    ensures
      var text := whole + ((if point then "." else "") + fraction);
      LexToken(text + rest) == Lexed(if point then FloatTok(text) else IntTok(text), |text|)
  {
    hide LexNumber, WholeLen, FractionLen, NumberExponent, SuffixLen, IsHex, AllOf, BareExponent;
    var t := (if point then "." else "") + fraction;
    MarkEnds(rest);
    PointFirst(point, fraction, rest);
    DecimalWhole(whole, t + rest);
    FractionRead(Decimals, point, fraction, rest);
    DigitStarts(whole, t + rest);
    assert [] + rest == rest && [] + ([] + rest) == rest;
    NumberParts(whole, t, [], [], rest);
    assert whole + t + [] + [] == whole + t && whole + t + rest == whole + (t + rest);
  }

  lemma PointFirst(point: bool, fraction: string, rest: string)
    requires rest != [] && !Has(Decimals, rest[0]) && rest[0] !in {'x', 'X'} && (!point ==> fraction == [])
    ensures var more := (if point then "." else "") + fraction + rest;
            more != [] && !Has(Decimals, more[0]) && more[0] !in {'x', 'X'}
  {
    if !point { assert (if point then "." else "") + fraction + rest == rest; }
  }

  lemma DigitStarts(whole: string, more: string)
    requires whole != [] && AllOf(Decimals, whole)
    ensures var s := whole + more; IsDigit(s[0]) && !IsAlpha(s[0]) && s[0] != '_'
  {
    assert (whole + more)[0] == whole[0] && Has(Decimals, whole[0]);
  }

  lemma MarkEnds(rest: string)
    requires BareExponent(rest)
    ensures rest != [] && !Has(Decimals, rest[0]) && rest[0] !in {'x', 'X'} && At(rest, 0) != '.'
    ensures NumberExponent(false, rest) == 0 && SuffixLen(rest, true) == 0 && SuffixLen(rest, false) == 0
  {
  }

  // ----- suffixes in general -----

  /** The marks a suffix may hold: `f` only after a point or an exponent. */
  predicate SuffixMark(c: char, isFloat: bool) { c in {'u', 'U', 'l', 'L'} || (isFloat && c in {'f', 'F'}) }

  predicate Suffix(marks: string, isFloat: bool) { forall i :: 0 <= i < |marks| ==> SuffixMark(marks[i], isFloat) }

  /** A suffix is any run of marks, as long as it can be. */
  lemma {:induction false} SuffixRun(marks: string, tail: string, isFloat: bool)
    requires Suffix(marks, isFloat) && (tail == [] || !SuffixMark(tail[0], isFloat))
    ensures SuffixLen(marks + tail, isFloat) == |marks|
    decreases |marks|
  {
    var s := marks + tail;
    if marks == [] {
      assert s == tail;
    } else {
      assert s[0] == marks[0] && SuffixMark(marks[0], isFloat);
      assert s[1..] == marks[1..] + tail;
      SuffixRun(marks[1..], tail, isFloat);
      if |marks| >= 2 {
        assert s[2..] == marks[2..] + tail && s[1] == marks[1];
        SuffixRun(marks[2..], tail, isFloat);
      } else {
        assert At(s, 1) == At(tail, 0);
      }
    }
  }

  /** What cannot come right after the digits of a decimal constant without belonging to it. */
  predicate Continues(c: char) { IsDigit(c) || c in {'.', 'e', 'E', 'x', 'X'} }

  /** Decimal digits, a point or none, and any run of marks are one token, whatever comes after them. */
  lemma SuffixedDecimal(whole: string, point: bool, fraction: string, marks: string, tail: string)
    requires whole != [] && AllOf(Decimals, whole) && AllOf(Decimals, fraction) && (!point ==> fraction == [])
    requires Suffix(marks, point) && (tail == [] || !SuffixMark(tail[0], point))
    requires marks + tail == [] || !Continues((marks + tail)[0])
    ensures
      var text := whole + ((if point then "." else "") + fraction) + marks;
      LexToken(text + tail) == Lexed(if point then FloatTok(text) else IntTok(text), |text|)
  {
    hide LexNumber, WholeLen, FractionLen, SuffixLen, IsHex, AllOf, Suffix, SuffixMark;
    var t := (if point then "." else "") + fraction;
    var rest := marks + tail;
    assert [] + rest == rest;
    NoExponent(rest);
    RestStarts(point, fraction, rest);
    DecimalWhole(whole, t + rest);
    FractionRead(Decimals, point, fraction, rest);
    SuffixRun(marks, tail, point);
    DigitStarts(whole, t + rest);
    NumberParts(whole, t, [], marks, tail);
    assert whole + t + [] + marks == whole + t + marks && whole + t + marks + tail == whole + (t + rest);
  }

  lemma NoExponent(rest: string)
    requires rest == [] || !Continues(rest[0])
    ensures NumberExponent(false, rest) == 0 && At(rest, 0) != '.' && (rest == [] || !Has(Decimals, rest[0]))
  {
  }

  lemma RestStarts(point: bool, fraction: string, rest: string)
    requires (rest == [] || !Continues(rest[0])) && (!point ==> fraction == [])
    ensures var more := (if point then "." else "") + fraction + rest;
            more == [] || (!Has(Decimals, more[0]) && more[0] !in {'x', 'X'})
  {
    if !point { assert (if point then "." else "") + fraction + rest == rest; }
  }

  /** A hexadecimal constant keeps its `p` even without exponent digits. */
  lemma BareBinaryExponent(x: bool, digits: string, mark: char, sign: string, tail: string)
    requires AllOf(Hexadecimals, digits) && mark in {'p', 'P'} && sign in {"", "+", "-"}
    requires tail == [] || (!SuffixMark(tail[0], true) && !IsDigit(tail[0]) && (sign == "" ==> tail[0] !in {'+', '-'}))
    ensures
      var text := (if x then "0X" else "0x") + digits + ([mark] + sign);
      LexToken(text + tail) == Lexed(FloatTok(text), |text|)
  {
    hide LexNumber, WholeLen, FractionLen, NumberExponent, SuffixLen, IsHex, AllOf, SuffixMark;
    var h := (if x then "0X" else "0x") + digits;
    var e := [mark] + sign;
    SuffixRun([], tail, true);
    assert [] + tail == tail;
    MarkIsNoHex(mark, sign, tail);
    HexWhole(x, digits, e + tail);
    assert [] + (e + tail) == e + tail && h + ([] + (e + ([] + tail))) == h + (e + tail);
    FractionLess(e + tail);
    MarkKept(mark, sign, tail);
    assert (h + (e + tail))[0] == '0';
    NumberParts(h, [], e, [], tail);
    assert h + [] + e + [] == h + e && h + e + tail == h + (e + tail);
    ZeroStarts(h + (e + tail));
  }

  lemma FractionLess(rest: string)
    requires At(rest, 0) != '.'
    ensures FractionLen(Hexadecimals, rest) == 0
  {
  }

  lemma ZeroStarts(s: string)
    requires s != [] && s[0] == '0'
    ensures IsDigit(s[0]) && !IsAlpha(s[0]) && s[0] != '_'
  {
  }

  lemma MarkIsNoHex(mark: char, sign: string, tail: string)
    requires mark in {'p', 'P'}
    ensures var rest := [mark] + sign + tail; rest != [] && !Has(Hexadecimals, rest[0]) && At(rest, 0) != '.'
  {
  }

  lemma MarkKept(mark: char, sign: string, tail: string)
    requires mark in {'p', 'P'} && sign in {"", "+", "-"}
    requires tail == [] || (!IsDigit(tail[0]) && (sign == "" ==> tail[0] !in {'+', '-'}))
    ensures NumberExponent(true, [mark] + sign + tail) == 1 + |sign|
  {
    var s := [mark] + sign + tail;
    assert At(s, 0) == mark;
    if sign == "" { assert At(s, 1) == At(tail, 0); } else { assert At(s, 1) == sign[0]; }
    assert s[1 + |sign|..] == tail;
  }
}
