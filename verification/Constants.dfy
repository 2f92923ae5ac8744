/** Integer and character constants and string literals against section 6.4.4 of ISO C11 (parser.c:592-667). */
module Constants {
  import opened Options
  import opened Words
  import opened Ast
  import opened Tokens
  import opened Literals
  import opened Parsing

  // ----- escapes -----

  /** The simple escape sequences of section 6.4.4.4 and the codes they stand for, with NUL. */
  const ESCAPES: map<char, nat> :=
    map['n' := 10, 't' := 9, 'r' := 13, '0' := 0, '\\' := 92, '\'' := 39, '"' := 34, 'a' := 7, 'b' := 8, 'f' := 12,
        'v' := 11, '?' := 63]

  /** An escape in a character constant has its code; any other character after a backslash stands for itself. */
  lemma CharEscape(e: char, rest: string)
    requires rest != []
    ensures DecodeChar(['\'', '\\', e] + rest) == if e in ESCAPES then ESCAPES[e] else e as int % 256
  {
    var s := ['\'', '\\', e] + rest;
    assert s[1] == '\\' && s[2] == e;
  }

  lemma CharItself(c: char, rest: string)
    requires rest != [] && c != '\\'
    ensures DecodeChar(['\'', c] + rest) == c as int % 256
  {
    var s := ['\'', c] + rest;
    assert s[1] == c;
  }

  /** In strings the escapes are the same, but for four letters that stand for themselves. */
  lemma StringEscape(e: char, rest: string)
    requires e as int < 256
    ensures var r := Unescape(['\\', e] + rest);
            r != [] && r[1..] == Unescape(rest)
            && r[0] as int == if e in ESCAPES && e !in {'a', 'b', 'f', 'v'} then ESCAPES[e] else e as int
  {
    UnescapeOne(e, rest);
  }

  lemma StringItself(c: char, rest: string)
    requires c != '\\'
    ensures Unescape([c] + rest) == [c] + Unescape(rest)
  {
    UnescapeOne(c, rest);
  }

  /** Octal and hexadecimal escapes are not known: `'\101'` is the digit 1 and `'\x41'` the letter x. */
  lemma NumericEscapesMissing()
    ensures DecodeChar("'\\101'") == 49 && DecodeChar("'\\x41'") == 120
  {
  }

  /** A prefix is taken for the quote: the value of a prefixed literal begins with what should have been skipped. */
  lemma PrefixNotSkipped(prefix: string, body: string)
    requires prefix != [] && '\\' !in prefix
    ensures DecodeStr(prefix + ("\"" + body + "\"")) == prefix[1..] + (['"'] + Unescape(body))
  {
    hide Unescape;
    var inner := prefix[1..] + (['"'] + body);
    assert prefix == [prefix[0]] + prefix[1..];
    assert prefix + ("\"" + body + "\"") == [prefix[0]] + inner + ['"'];
    BetweenQuotes(prefix[0], inner, '"');
    NoEscapes(prefix[1..], ['"'] + body);
    StringItself('"', body);
  }

  lemma BetweenQuotes(a: char, inner: string, b: char)
    ensures DecodeStr([a] + inner + [b]) == Unescape(inner)
  {
    hide Unescape;
    var s := [a] + inner + [b];
    assert s[1..|s| - 1] == inner;
  }

  /** A prefixed character constant has the code of its quote. */
  lemma PrefixedCharacter(l: char, body: string)
    requires body != []
    ensures DecodeChar([l, '\''] + body) == 39
  {
    var s := [l, '\''] + body;
    assert s[1] == '\'';
  }

  lemma {:induction false} NoEscapes(p: string, rest: string)
    requires '\\' !in p
    ensures Unescape(p + rest) == p + Unescape(rest)
    decreases |p|
  {
    hide Unescape;
    if p == [] {
      assert p + rest == rest;
    } else {
      NoEscapes(p[1..], rest);
      StringItself(p[0], p[1..] + rest);
      assert p + rest == [p[0]] + (p[1..] + rest);
      assert [p[0]] + (p[1..] + Unescape(rest)) == p + Unescape(rest);
    }
  }

  // ----- types of integer constants -----

  /** `u` and `l` among the marks, in either case. */
  predicate Unsigned(marks: string) { 'u' in marks || 'U' in marks }

  predicate Longer(marks: string) { 'l' in marks || 'L' in marks }

  lemma {:induction false} NoMarkInDigits(n: nat, base: nat, upper: bool)
    requires 2 <= base <= 16
    ensures forall c :: c in Digits(n, base, upper) ==> !IsUnsignedMark(c) && !IsLongMark(c)
  {
    hide DigitChar;
    if n > 0 {
      var q, d := DigitsStep(n, base, upper);
      NoMarkInDigits(q, base, upper);
      DigitNoMark(d, upper);
    }
  }

  lemma DigitNoMark(d: nat, upper: bool)
    requires d < 16
    ensures !IsUnsignedMark(DigitChar(d, upper)) && !IsLongMark(DigitChar(d, upper))
  {
  }

  lemma NoMarkSpelled(n: nat, r: Radix)
    ensures forall c :: c in SpellInt(n, r) ==> !IsUnsignedMark(c) && !IsLongMark(c)
  {
    hide Digits;
    NoMarkInDigits(n, 10, false);
    NoMarkInDigits(n, 8, false);
    if r.Hex? { NoMarkInDigits(n, 16, r.upper); }
  }

  /** The value and the type read for a number spelled in any radix with any run of marks. */
  lemma ConstantRead(n: nat, r: Radix, marks: string)
    requires AllMarks(marks)
    ensures
      var v := Wrap(Long, n);
      LeafOf(IntTok(SpellInt(n, r) + marks))
      == Some(IntLit(v, if Longer(marks) then CLong(Unsigned(marks))
                        else if Unsigned(marks) then CInt(true)
                        else if v > 0x7fff_ffff then CLong(false) else CInt(false)))
  {
    hide DecodeInt, SpellInt, Wrap;
    var s := SpellInt(n, r) + marks;
    IntRoundTrip(n, r, marks);
    NoMarkSpelled(n, r);
    MarksOf(s, SpellInt(n, r), marks);
  }

  lemma MarksOf(s: string, digits: string, marks: string)
    requires s == digits + marks && forall c :: c in digits ==> !IsUnsignedMark(c) && !IsLongMark(c)
    ensures (exists c :: c in s && IsUnsignedMark(c)) <==> Unsigned(marks)
    ensures (exists c :: c in s && IsLongMark(c)) <==> Longer(marks)
  {
    assert forall c :: c in s <==> c in digits || c in marks;
    if Unsigned(marks) { assert IsUnsignedMark(if 'u' in marks then 'u' else 'U'); }
    if Longer(marks) { assert IsLongMark(if 'l' in marks then 'l' else 'L'); }
  }

  /** The type of section 6.4.4.1: the first of the list for its radix and suffix that holds the value. */
  function StandardType(n: nat, decimal: bool, u: bool, l: bool): Option<CType> {
    if !u && !l && n < M32 / 2 then Some(CInt(false))
    else if !l && n < M32 && (u || !decimal) then Some(CInt(true))
    else if !u && n < M64 / 2 then Some(CLong(false))
    else if n < M64 && (u || !decimal) then Some(CLong(true))
    else None
  }

  /** The type read is the standard one exactly for these numbers. */
  predicate TypedRight(n: nat, decimal: bool, u: bool, l: bool) {
    if u && l then n < M64
    else if u then n < M32
    else if l || decimal then n < M64 / 2
    else n < M32 / 2 || M32 <= n < M64 / 2
  }

  lemma ConstantTypes(n: nat, r: Radix, marks: string)
    requires AllMarks(marks)
    ensures
      var standard := StandardType(n, r.Decimal?, Unsigned(marks), Longer(marks));
      standard.Some? && LeafOf(IntTok(SpellInt(n, r) + marks)).value.litType == standard.value
      <==> TypedRight(n, r.Decimal?, Unsigned(marks), Longer(marks))
  {
    hide SpellInt, LeafOf, Unsigned, Longer, Wrap;
    ConstantRead(n, r, marks);
    WrapFacts(Long, n);
    if n < M64 / 2 { WrapSmall(n); }
    if M64 / 2 <= n < M64 { WrapHalf(n); }
  }

  lemma WrapHalf(n: nat)
    requires M64 / 2 <= n < M64
    ensures Wrap(Long, n) < 0
  {
  }
}
