/** The values of literals: what the parser decodes and how they can be spelled. */
module Literals {
  import opened Options
  import opened Words
  import opened Ast

  // ----- integers -----

  predicate IsDigit(c: char) { '0' <= c <= '9' }

  predicate IsHexDigit(c: char) { IsDigit(c) || 'a' <= c <= 'f' || 'A' <= c <= 'F' }

  /** The value of a digit, `None` for other characters. */
  function DigitValue(c: char): Option<nat> {
    if IsDigit(c) then Some(c as int - '0' as int)
    else if 'a' <= c <= 'f' then Some(c as int - 'a' as int + 10)
    else if 'A' <= c <= 'F' then Some(c as int - 'A' as int + 10)
    else None
  }

  predicate IsUnsignedMark(c: char) { c == 'u' || c == 'U' }
  predicate IsLongMark(c: char) { c == 'l' || c == 'L' }

  /** Reads digits, skips `l` marks, stops at a `u` mark or any other character; `long long` wraps. */
  function DecodeDigits(s: string, base: nat, v: int): int {
    if s == [] then v
    else if DigitValue(s[0]).Some? then DecodeDigits(s[1..], base, Wrap(Long, v * base + DigitValue(s[0]).value))
    else if IsLongMark(s[0]) then DecodeDigits(s[1..], base, v)
    else v
  }

  /** `0x` means base 16, another leading `0` base 8. */
  function DecodeInt(s: string): int {
    if |s| >= 2 && s[0] == '0' && (s[1] == 'x' || s[1] == 'X') then DecodeDigits(s[2..], 16, 0)
    else if |s| >= 1 && s[0] == '0' then DecodeDigits(s[1..], 8, 0)
    else DecodeDigits(s, 10, 0)
  }

  /** The type of an integer literal of value `v` spelled `s`. */
  function IntType(v: int, s: string): CType {
    var u := exists c :: c in s && IsUnsignedMark(c);
    var l := exists c :: c in s && IsLongMark(c);
    if u && l then CLong(true)
    else if l then CLong(false)
    else if u then CInt(true)
    else if v > 0x7fff_ffff then CLong(false)
    else CInt(false)
  }

  function DigitChar(d: nat, upper: bool): char
    requires d < 16
  {
    if d < 10 then '0' + d as char
    else if upper then 'A' + (d - 10) as char
    else 'a' + (d - 10) as char
  }

  /** The digits of `n`, most significant first; none for 0. */
  function Digits(n: nat, base: nat, upper: bool): string
    requires 2 <= base <= 16
  {
    if n == 0 then [] else Digits(n / base, base, upper) + [DigitChar(n % base, upper)]
  }

  /** The value of a string of digits read after `v`. */
  function Fold(s: string, base: nat, v: nat): nat {
    if s == [] || DigitValue(s[0]).None? then v else Fold(s[1..], base, v * base + DigitValue(s[0]).value)
  }

  predicate AllDigits(s: string, base: nat) {
    forall i :: 0 <= i < |s| ==> DigitValue(s[i]).Some? && DigitValue(s[i]).value < base
  }

  predicate AllMarks(s: string) { forall i :: 0 <= i < |s| ==> IsUnsignedMark(s[i]) || IsLongMark(s[i]) }

  lemma {:induction false} FoldAppend(s: string, c: char, base: nat, v: nat)
    requires AllDigits(s, base) && DigitValue(c).Some?
    ensures Fold(s + [c], base, v) == Fold(s, base, v) * base + DigitValue(c).value
  {
    if s == [] {
      assert [] + [c] == [c] && [c][1..] == [];
    } else {
      assert (s + [c])[1..] == s[1..] + [c];
      FoldAppend(s[1..], c, base, v * base + DigitValue(s[0]).value);
    }
  }

  lemma DigitCharValue(d: nat, upper: bool)
    requires d < 16
    ensures DigitValue(DigitChar(d, upper)) == Some(d)
  {
  }

  lemma TwiceLess(q: nat, base: nat)
    requires base >= 2
    ensures q * base >= q * 2
  {
  }

  lemma LastDigit(n: nat, base: nat)
    requires base >= 2
    ensures 0 <= n % base < base && n / base * base + n % base == n
    ensures n > 0 ==> n / base < n
    ensures n / base == 0 ==> n % base == n
  {
    DivisionOf(n, base);
    TwiceLess(n / base, base);
  }

  /** The last digit and the number before it. */
  lemma DigitsStep(n: nat, base: nat, upper: bool) returns (q: nat, d: nat)
    requires n > 0 && 2 <= base <= 16
    ensures q < n && d < base && q * base + d == n && (q == 0 ==> d == n)
    ensures Digits(n, base, upper) == Digits(q, base, upper) + [DigitChar(d, upper)]
  {
    hide DigitChar;
    q, d := n / base, n % base;
    LastDigit(n, base);
  }

  lemma NoDigits(base: nat, upper: bool)
    requires 2 <= base <= 16
    ensures Digits(0, base, upper) == [] && Fold([], base, 0) == 0
  {
  }

  /** The digits of `n` are read back as `n`. */
  lemma {:induction false} DigitsValue(n: nat, base: nat, upper: bool)
    requires 2 <= base <= 16
    ensures Fold(Digits(n, base, upper), base, 0) == n && AllDigits(Digits(n, base, upper), base)
  {
    hide DigitValue, DigitChar, Digits, Fold;
    if n == 0 {
      NoDigits(base, upper);
    } else {
      var q, d := DigitsStep(n, base, upper);
      DigitCharValue(d, upper);
      DigitsValue(q, base, upper);
      FoldAppend(Digits(q, base, upper), DigitChar(d, upper), base, 0);
    }
  }

  /** Wrapping at each digit or at the end is the same. */
  lemma WrapStep(v: int, base: int, d: int)
    ensures Wrap(Long, Wrap(Long, v) * base + d) == Wrap(Long, v * base + d)
  {
    hide Bits, Signed;
    var w := Wrap(Long, v);
    WrapFacts(Long, v);
    BitsMul(Long, w, base);
    BitsMul(Long, v, base);
    BitsAdd(Long, w * base, d);
    BitsAdd(Long, v * base, d);
  }

  /** The decoder reads digits as their number, wrapped. */
  lemma {:induction false} DecodeIsFold(s: string, suffix: string, base: nat, v: nat)
    requires AllDigits(s, base)
    ensures DecodeDigits(s + suffix, base, Wrap(Long, v)) == DecodeDigits(suffix, base, Wrap(Long, Fold(s, base, v)))
  {
    hide Wrap, DigitValue;
    if s == [] {
      assert s + suffix == suffix;
    } else {
      var d := DigitValue(s[0]).value;
      assert (s + suffix)[1..] == s[1..] + suffix;
      WrapStep(v, base, d);
      DecodeIsFold(s[1..], suffix, base, v * base + d);
    }
  }

  lemma WrapSmall(w: nat)
    requires w < M64 / 2
    ensures Wrap(Long, w) == w
  {
    SignedBits(Long, w);
  }

  lemma {:induction false} MarksSkipped(s: string, base: nat, v: int)
    requires AllMarks(s)
    ensures DecodeDigits(s, base, v) == v
  {
    if s != [] && IsLongMark(s[0]) { MarksSkipped(s[1..], base, v); }
  }

  datatype Radix = Decimal | Octal | Hex(upperX: bool, upper: bool)

  /** The spelling of `n` in a radix, without suffix. */
  function SpellInt(n: nat, r: Radix): string {
    match r
    case Decimal => if n == 0 then "0" else Digits(n, 10, false)
    case Octal => "0" + Digits(n, 8, false)
    case Hex(x, upper) => (if x then "0X" else "0x") + (if n == 0 then "0" else Digits(n, 16, upper))
  }

  /** Digits of `n` followed by marks are decoded to `n`, wrapped. */
  lemma DigitsDecoded(n: nat, base: nat, upper: bool, suffix: string)
    requires 2 <= base <= 16 && AllMarks(suffix)
    ensures DecodeDigits(Digits(n, base, upper) + suffix, base, 0) == Wrap(Long, n)
  {
    hide DigitValue, DigitChar, Wrap, Digits, DecodeDigits;
    WrapSmall(0);
    DigitsValue(n, base, upper);
    DecodeIsFold(Digits(n, base, upper), suffix, base, 0);
    MarksSkipped(suffix, base, Wrap(Long, n));
  }

  lemma ZeroDecoded(base: nat, suffix: string)
    requires AllMarks(suffix)
    ensures DecodeDigits("0" + suffix, base, 0) == 0
  {
    assert ("0" + suffix)[1..] == suffix;
    WrapSmall(0);
    MarksSkipped(suffix, base, 0);
  }

  lemma DecodeDecimal(s: string)
    ensures s != [] && s[0] != '0' ==> DecodeInt(s) == DecodeDigits(s, 10, 0)
  {
  }

  lemma DecodeOctal(s: string)
    ensures s == [] || (s[0] != 'x' && s[0] != 'X') ==> DecodeInt("0" + s) == DecodeDigits(s, 8, 0)
  {
    hide DecodeDigits;
    assert ("0" + s)[1..] == s;
  }

  lemma DecodeHex(x: bool, s: string)
    ensures DecodeInt((if x then "0X" else "0x") + s) == DecodeDigits(s, 16, 0)
  {
    hide DecodeDigits;
    assert ((if x then "0X" else "0x") + s)[2..] == s;
  }

  /**
   A number spelled in any radix, with any suffix, is decoded to itself wrapped to 64 bits, so to itself
   exactly when it is below 2^63.
   */
  lemma IntRoundTrip(n: nat, r: Radix, suffix: string)
    requires AllMarks(suffix)
    ensures DecodeInt(SpellInt(n, r) + suffix) == Wrap(Long, n)
    ensures DecodeInt(SpellInt(n, r) + suffix) == n <==> n < M64 / 2
  {
    hide SpellInt, DecodeInt, Wrap, AllMarks;
    SpelledValue(n, r, suffix);
    WrapFacts(Long, n);
    if n < M64 / 2 { WrapSmall(n); }
  }

  lemma SpelledValue(n: nat, r: Radix, suffix: string)
    requires AllMarks(suffix)
    ensures DecodeInt(SpellInt(n, r) + suffix) == Wrap(Long, n)
  {
    hide *;
    match r
    case Decimal => DecimalValue(n, suffix);
    case Octal => OctalValue(n, suffix);
    case Hex(x, upper) => HexValue(n, x, upper, suffix);
  }

  lemma DecimalValue(n: nat, suffix: string)
    requires AllMarks(suffix)
    ensures DecodeInt(SpellInt(n, Decimal) + suffix) == Wrap(Long, n)
  {
    hide DecodeDigits, DecodeInt, Digits, DigitChar, Wrap, AllMarks;
    if n == 0 {
      WrapSmall(0);
      DecodeOctal(suffix);
      OctalFirst(0, suffix);
      NoDigits(8, false);
      assert Digits(0, 8, false) + suffix == suffix;
      MarksSkipped(suffix, 8, 0);
    } else {
      var d := Digits(n, 10, false);
      FirstDigit(n, 10, false);
      assert (d + suffix)[0] == d[0];
      DecodeDecimal(d + suffix);
      DigitsDecoded(n, 10, false, suffix);
    }
  }

  lemma OctalValue(n: nat, suffix: string)
    requires AllMarks(suffix)
    ensures DecodeInt(SpellInt(n, Octal) + suffix) == Wrap(Long, n)
  {
    hide DecodeDigits, DecodeInt, Digits, DigitChar, Wrap, AllMarks;
    var d := Digits(n, 8, false);
    OctalFirst(n, suffix);
    DecodeOctal(d + suffix);
    assert "0" + d + suffix == "0" + (d + suffix);
    DigitsDecoded(n, 8, false, suffix);
  }

  lemma HexValue(n: nat, x: bool, upper: bool, suffix: string)
    requires AllMarks(suffix)
    ensures DecodeInt(SpellInt(n, Hex(x, upper)) + suffix) == Wrap(Long, n)
  {
    hide DecodeDigits, DecodeInt, Digits, DigitChar, Wrap, AllMarks;
    var d := if n == 0 then "0" else Digits(n, 16, upper);
    DecodeHex(x, d + suffix);
    assert SpellInt(n, Hex(x, upper)) + suffix == (if x then "0X" else "0x") + (d + suffix);
    if n == 0 {
      WrapSmall(0);
      ZeroDecoded(16, suffix);
    } else {
      DigitsDecoded(n, 16, upper, suffix);
    }
  }

  lemma OctalFirst(n: nat, suffix: string)
    requires AllMarks(suffix)
    ensures var s := Digits(n, 8, false) + suffix; s != [] ==> s[0] != 'x' && s[0] != 'X'
  {
    hide DigitChar, Digits;
    DigitsValue(n, 8, false);
  }

  lemma {:induction false} FirstDigit(n: nat, base: nat, upper: bool)
    requires n > 0 && 2 <= base <= 16
    ensures Digits(n, base, upper) != [] && Digits(n, base, upper)[0] != '0'
  {
    hide DigitChar, Digits;
    var q, d := DigitsStep(n, base, upper);
    if q == 0 {
      NoDigits(base, upper);
      NonZeroDigit(d, upper);
    } else {
      FirstDigit(q, base, upper);
    }
  }

  lemma NonZeroDigit(d: nat, upper: bool)
    requires d < 16
    ensures d > 0 ==> DigitChar(d, upper) != '0'
  {
  }

  // ----- characters and strings -----

  /** The character an escape letter stands for; any other letter stands for itself. */
  function EscapeValue(e: char): char {
    match e
    case 'n' => '\n'
    case 't' => '\t'
    case 'r' => '\r'
    case '0' => '\0'
    case _ => e
  }

  /** Resolves backslash escapes; a backslash at the very end stands for itself. */
  function Unescape(p: string): (r: string)
    ensures |r| <= |p|
  {
    if p == [] then []
    else if p[0] == '\\' && |p| > 1 then [EscapeValue(p[1])] + Unescape(p[2..])
    else [p[0]] + Unescape(p[1..])
  }

  /** The bytes of a quoted string literal. */
  function DecodeStr(s: string): string {
    if |s| < 2 then [] else Unescape(s[1..|s| - 1])
  }

  /** The code of a quoted character literal; three more escapes than strings have. */
  function DecodeChar(s: string): nat {
    if |s| < 3 then 0
    else if s[1] == '\\' && |s| >= 4 then
      match s[2]
      case 'a' => 7
      case 'b' => 8
      case 'f' => 12
      case 'v' => 11
      case e => EscapeValue(e) as int % 256
    else s[1] as int % 256
  }

  function OctalDigit(d: nat): char
    requires d < 8
  {
    '0' + d as char
  }

  /** How a byte is printed in a string datum. */
  function EscapeByte(c: char): string {
    match c
    case '"' => "\\\""
    case '\\' => "\\\\"
    case '\n' => "\\n"
    case '\t' => "\\t"
    case '\r' => "\\r"
    case '\0' => "\\0"
    case _ =>
      if c as int < 32 || c as int > 126 then
        ['\\', OctalDigit(c as int / 64 % 8), OctalDigit(c as int / 8 % 8), OctalDigit(c as int % 8)]
      else [c]
  }

  function EscapeText(s: string): string {
    if s == [] then [] else EscapeByte(s[0]) + EscapeText(s[1..])
  }

  /** Printable characters and the four control characters with escapes of their own. */
  predicate Plain(c: char) {
    32 <= c as int <= 126 || c == '\n' || c == '\t' || c == '\r' || c == '\0'
  }

  predicate AllPlain(s: string) { forall i :: 0 <= i < |s| ==> Plain(s[i]) }

  /** What decoding makes of one escaped byte. */
  function Reread(c: char): string {
    if Plain(c) then [c]
    else [EscapeValue(OctalDigit(c as int / 64 % 8)), OctalDigit(c as int / 8 % 8), OctalDigit(c as int % 8)]
  }

  lemma UnescapeOne(c: char, rest: string)
    ensures c != '\\' ==> Unescape([c] + rest) == [c] + Unescape(rest)
    ensures Unescape(['\\', c] + rest) == [EscapeValue(c)] + Unescape(rest)
  {
    assert ([c] + rest)[1..] == rest;
    assert (['\\', c] + rest)[2..] == rest;
  }

  lemma UnescapeByte(c: char, rest: string)
    ensures Unescape(EscapeByte(c) + rest) == Reread(c) + Unescape(rest)
  {
    hide Unescape;
    var e := EscapeByte(c);
    if |e| == 1 {
      UnescapeOne(c, rest);
    } else if |e| == 2 {
      UnescapeOne(e[1], rest);
      assert e == ['\\', e[1]];
    } else {
      assert e + rest == ['\\', e[1]] + ([e[2]] + ([e[3]] + rest));
      UnescapeOne(e[1], [e[2]] + ([e[3]] + rest));
      UnescapeOne(e[2], [e[3]] + rest);
      UnescapeOne(e[3], rest);
      OctalPlain(c as int / 8 % 8);
      OctalPlain(c as int % 8);
    }
  }

  lemma OctalPlain(d: nat)
    requires d < 8
    ensures OctalDigit(d) != '\\' 
  {
  }

  function RereadText(s: string): string {
    if s == [] then [] else Reread(s[0]) + RereadText(s[1..])
  }

  lemma {:induction false} UnescapeText(s: string)
    ensures Unescape(EscapeText(s)) == RereadText(s)
  {
    if s != [] {
      UnescapeText(s[1..]);
      UnescapeByte(s[0], EscapeText(s[1..]));
    }
  }

  lemma {:induction false} RereadSame(s: string)
    ensures |RereadText(s)| >= |s|
    ensures AllPlain(s) ==> RereadText(s) == s
    ensures !AllPlain(s) ==> |RereadText(s)| > |s|
  {
    if s != [] {
      RereadSame(s[1..]);
      assert AllPlain(s) <==> Plain(s[0]) && AllPlain(s[1..]);
    }
  }

  /** Escaped text decodes to the original bytes exactly when they are all plain. */
  lemma EscapeRoundTrip(s: string)
    ensures Unescape(EscapeText(s)) == s <==> AllPlain(s)
    ensures DecodeStr("\"" + EscapeText(s) + "\"") == Unescape(EscapeText(s))
  {
    UnescapeText(s);
    RereadSame(s);
    var q := "\"" + EscapeText(s) + "\"";
    assert q[1..|q| - 1] == EscapeText(s);
  }

  /** A spelling of a character literal. */
  function SpellChar(code: nat): string
    requires code < 256
  {
    if code == 0 then "'\\0'"
    else if code == 10 then "'\\n'"
    else if code == 39 then "'\\''"
    else if code == 92 then "'\\\\'"
    else ['\'', code as char, '\'']
  }

  lemma CharRoundTrip(code: nat)
    requires code < 256
    ensures DecodeChar(SpellChar(code)) == code
  {
  }

  // ----- the decoders as they run -----

  method DecodeIntLoop(s: string) returns (v: int)
    ensures v == DecodeInt(s)
  {
    var base, i := 10, 0;
    v := 0;
    if |s| >= 2 && s[0] == '0' && (s[1] == 'x' || s[1] == 'X') { base, i := 16, 2; }
    else if |s| >= 1 && s[0] == '0' { base, i := 8, 1; }
    assert s[0..] == s;
    while i < |s|
      invariant 0 <= i <= |s| && DecodeDigits(s[i..], base, v) == DecodeInt(s)
    {
      assert s[i..][1..] == s[i + 1..];
      var d := DigitValue(s[i]);
      if d.Some? { v := Wrap(Long, v * base + d.value); }
      else if !IsLongMark(s[i]) { return; }
      i := i + 1;
    }
  }

  lemma UnescapeStep(p: string, i: nat)
    requires i < |p|
    ensures p[i] == '\\' && i + 1 < |p| ==> Unescape(p[i..]) == [EscapeValue(p[i + 1])] + Unescape(p[i + 2..])
    ensures p[i] != '\\' || i + 1 == |p| ==> Unescape(p[i..]) == [p[i]] + Unescape(p[i + 1..])
  {
    assert p[i..][1..] == p[i + 1..];
    if i + 1 < |p| { assert p[i..][2..] == p[i + 2..]; }
  }

  /** Decodes into a buffer one byte longer than the text between the quotes, and ends it with NUL. */
  method DecodeStrLoop(s: string) returns (buffer: array<char>, len: nat)
    ensures fresh(buffer) && len < buffer.Length == (if |s| < 2 then 1 else |s| - 1)
    ensures buffer[..len] == DecodeStr(s) && buffer[len] == '\0'
  {
    hide Unescape, EscapeValue;
    if |s| < 2 {
      buffer := new char[1]['\0'];
      len := 0;
      return;
    }
    var p := s[1..|s| - 1];
    var n := |p|;
    buffer := new char[n + 1];
    var i, j := 0, 0;
    ghost var done: string := [];
    assert p[0..] == p && [] + Unescape(p) == Unescape(p);
    while i < n
      invariant 0 <= i <= n && 0 <= j <= i
      invariant buffer[..j] == done && done + Unescape(p[i..]) == Unescape(p)
    {
      UnescapeStep(p, i);
      var c := p[i];
      if p[i] == '\\' && i + 1 < n {
        i := i + 1;
        c := EscapeValue(p[i]);
      }
      buffer[j] := c;
      assert done + ([c] + Unescape(p[i + 1..])) == (done + [c]) + Unescape(p[i + 1..]);
      done := done + [c];
      i, j := i + 1, j + 1;
    }
    buffer[j] := '\0';
    len := j;
    UnescapeEnd(p);
  }

  lemma UnescapeEnd(p: string)
    ensures Unescape(p[|p|..]) == []
  {
  }
}
