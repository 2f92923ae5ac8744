/** String data as an assembler reads them back: octal and letter escapes (qbe.c:874-895). */
module Datum {
  import opened Options
  import opened Literals

  predicate IsOctal(c: char) { '0' <= c <= '7' }

  /** The byte a letter after a backslash stands for; any other character stands for itself. */
  const LETTERS: map<char, char> := map['n' := '\n', 't' := '\t', 'r' := '\r', '"' := '"', '\\' := '\\']

  function Letter(c: char): char { if c in LETTERS then LETTERS[c] else c }

  /** The octal digits an escape takes: all there are, up to three. */
  function OctalRun(s: string): (n: nat)
    ensures n <= |s| && n <= 3
  {
    if s == [] || !IsOctal(s[0]) then 0
    else if |s| == 1 || !IsOctal(s[1]) then 1
    else if |s| == 2 || !IsOctal(s[2]) then 2
    else 3
  }

  /** The number octal digits denote. */
  function OctalNumber(s: string): nat {
    if s == [] then 0
    else
      var d := DigitValue(s[|s| - 1]);
      OctalNumber(s[..|s| - 1]) * 8 + (if d.Some? then d.value else 0)
  }

  /** The bytes a datum denotes. */
  function Read(s: string): string
    decreases |s|
  {
    if s == [] then []
    else if s[0] != '\\' || |s| == 1 then [s[0]] + Read(s[1..])
    else
      var n := OctalRun(s[1..]);
      if n == 0 then [Letter(s[1])] + Read(s[2..])
      else [(OctalNumber(s[1..1 + n]) % 256) as char] + Read(s[1 + n..])
  }

  predicate IsByte(c: char) { c as int < 256 }

  predicate Bytes(s: string) { forall i :: 0 <= i < |s| ==> IsByte(s[i]) }

  lemma ThreeDigits(a: char, b: char, c: char)
    requires IsOctal(a) && IsOctal(b) && IsOctal(c)
    ensures OctalNumber([a, b, c]) == DigitValue(a).value * 64 + DigitValue(b).value * 8 + DigitValue(c).value
  {
    var s := [a, b, c];
    assert s[..2] == [a, b] && [a, b][..1] == [a] && [a][..0] == [];
    assert OctalNumber([a]) == DigitValue(a).value;
    assert OctalNumber([a, b]) == DigitValue(a).value * 8 + DigitValue(b).value;
  }

  lemma DigitRead(d: nat)
    requires d < 8
    ensures IsOctal(OctalDigit(d)) && DigitValue(OctalDigit(d)) == Some(d)
  {
  }

  lemma PrintedOctal(c: char)
    requires IsByte(c) && !Plain(c)
    ensures EscapeByte(c)
         == ['\\', OctalDigit(c as int / 64 % 8), OctalDigit(c as int / 8 % 8), OctalDigit(c as int % 8)]
  {
  }

  /** A byte that is not plain is printed as a backslash and the three octal digits of its value. */
  lemma OctalEscape(c: char)
    requires IsByte(c) && !Plain(c)
    ensures var e := EscapeByte(c);
            |e| == 4 && e[0] == '\\' && IsOctal(e[1]) && IsOctal(e[2]) && IsOctal(e[3])
              && OctalNumber(e[1..]) == c as int
  {
    hide EscapeByte, OctalDigit, DigitValue, IsOctal, OctalNumber, Plain;
    var x, y, z := c as int / 64 % 8, c as int / 8 % 8, c as int % 8;
    PrintedOctal(c);
    DigitRead(x);
    DigitRead(y);
    DigitRead(z);
    assert EscapeByte(c)[1..] == [OctalDigit(x), OctalDigit(y), OctalDigit(z)];
    ThreeDigits(OctalDigit(x), OctalDigit(y), OctalDigit(z));
  }

  lemma ReadOctal(e: string, c: char, rest: string)
    requires IsByte(c) && |e| == 4 && e[0] == '\\' && IsOctal(e[1]) && IsOctal(e[2]) && IsOctal(e[3])
    requires OctalNumber(e[1..]) == c as int
    ensures Read(e + rest) == [c] + Read(rest)
  {
    hide IsOctal, OctalNumber, Letter;
    var s := e + rest;
    assert s[1..][0] == e[1] && s[1..][1] == e[2] && s[1..][2] == e[3];
    assert s[1..4] == e[1..] && s[4..] == rest;
  }

  lemma ReadLetter(e: char, rest: string)
    requires !IsOctal(e)
    ensures Read(['\\', e] + rest) == [Letter(e)] + Read(rest)
  {
    hide Letter;
    var s := ['\\', e] + rest;
    assert s[2..] == rest && s[1..] == [e] + rest;
  }

  lemma ReadPlain(c: char, rest: string)
    requires c != '\\'
    ensures Read([c] + rest) == [c] + Read(rest)
  {
    assert ([c] + rest)[1..] == rest;
  }

  /** What is printed of a byte is read back as the byte, but for NUL in front of an octal digit. */
  lemma ReadByte(c: char, rest: string)
    requires IsByte(c) && (c == '\0' ==> rest == [] || !IsOctal(rest[0]))
    ensures Read(EscapeByte(c) + rest) == [c] + Read(rest)
  {
    hide Plain, OctalNumber, Read, IsOctal, EscapeByte;
    PrintedForms(c);
    var e := EscapeByte(c);
    if c == '\0' {
      NulAlone(rest);
    } else if |e| == 1 {
      ReadPlain(c, rest);
    } else if |e| == 4 {
      OctalEscape(c);
      ReadOctal(e, c, rest);
    } else {
      ReadLetter(e[1], rest);
      assert e == ['\\', e[1]];
    }
  }

  lemma PrintedForms(c: char)
    ensures var e := EscapeByte(c);
            if c == '\0' then e == "\\0"
            else
              || (e == [c] && c != '\\')
              || (|e| == 4 && !Plain(c))
              || (|e| == 2 && e[0] == '\\' && !IsOctal(e[1]) && Letter(e[1]) == c)
  {
  }

  lemma NulAlone(rest: string)
    requires rest == [] || !IsOctal(rest[0])
    ensures Read("\\0" + rest) == ['\0'] + Read(rest)
  {
    hide OctalNumber, LETTERS, IsOctal;
    OneZero();
    var s := "\\0" + rest;
    assert s[0] == '\\' && s[1] == '0' && |s| == 2 + |rest|;
    assert s[1..] == ['0'] + rest && s[2..] == rest && s[1..2] == ['0'];
    OneOctal('0', rest);
  }

  lemma OneOctal(c: char, rest: string)
    requires IsOctal(c) && (rest == [] || !IsOctal(rest[0]))
    ensures OctalRun([c] + rest) == 1
  {
    hide IsOctal;
  }

  lemma OneZero()
    ensures IsOctal('0') && OctalNumber(['0']) == 0
  {
    assert ['0'][..0] == [];
  }

  /** The first byte printed for `c` is an octal digit only if `c` is. */
  lemma StartsOctal(s: string)
    requires s != []
    ensures EscapeText(s) != [] && (IsOctal(EscapeText(s)[0]) <==> IsOctal(s[0]))
    ensures IsOctal(s[0]) ==> EscapeText(s) == [s[0]] + EscapeText(s[1..])
  {
  }

  /** A NUL in front of an octal digit: the one place where the escapes run together. */
  predicate RunsTogether(s: string) { exists i :: 0 <= i < |s| - 1 && s[i] == '\0' && IsOctal(s[i + 1]) }

  lemma RestRuns(s: string)
    requires s != []
    ensures RunsTogether(s) <==> (s[0] == '\0' && |s| > 1 && IsOctal(s[1])) || RunsTogether(s[1..])
  {
    if RunsTogether(s) {
      var i :| 0 <= i < |s| - 1 && s[i] == '\0' && IsOctal(s[i + 1]);
      if i > 0 { assert s[1..][i - 1] == '\0' && s[1..][i - 1 + 1] == s[i + 1]; }
    }
    if RunsTogether(s[1..]) {
      var i :| 0 <= i < |s[1..]| - 1 && s[1..][i] == '\0' && IsOctal(s[1..][i + 1]);
      assert s[i + 1] == '\0' && s[i + 1 + 1] == s[1..][i + 1];
    }
  }

  /** Bytes are never gained, and lost exactly where escapes run together. */
  lemma {:induction false} ReadLength(s: string)
    requires Bytes(s)
    ensures |Read(EscapeText(s))| <= |s|
    ensures RunsTogether(s) ==> |Read(EscapeText(s))| < |s|
    ensures !RunsTogether(s) ==> Read(EscapeText(s)) == s
    decreases |s|
  {
    hide EscapeByte, Read, IsByte, OctalNumber;
    if s == [] {
      NothingRead();
    } else {
      RestRuns(s);
      ReadLength(s[1..]);
      assert forall i :: 0 <= i < |s[1..]| ==> s[1..][i] == s[i + 1];
      if |s| > 1 { StartsOctal(s[1..]); }
      if s[0] == '\0' && |s| > 1 && IsOctal(s[1]) {
        NulRuns(s);
      } else {
        ReadByte(s[0], EscapeText(s[1..]));
        assert [s[0]] + s[1..] == s;
      }
    }
  }

  lemma NothingRead()
    ensures Read(EscapeText("")) == ""
  {
  }

  lemma {:induction false} NulRuns(s: string)
    requires Bytes(s) && |s| > 1 && s[0] == '\0' && IsOctal(s[1])
    ensures |Read(EscapeText(s))| < |s|
    decreases |s|, 0
  {
    hide EscapeByte, OctalNumber;
    StartsOctal(s[1..]);
    var t := EscapeText(s[2..]);
    assert s[1..][1..] == s[2..];
    NulPrinted();
    var u := EscapeText(s);
    assert u == "\\0" + ([s[1]] + t);
    assert u[1..] == ['0', s[1]] + t;
    if |s| > 2 { StartsOctal(s[2..]); }
    if |s| > 2 && IsOctal(s[2]) {
      assert s[2..][1..] == s[3..];
      assert u[4..] == EscapeText(s[3..]);
      assert Bytes(s[3..]);
      ReadLength(s[3..]);
    } else {
      assert t != [] ==> !IsOctal(t[0]);
      assert u[3..] == t;
      assert Bytes(s[2..]);
      ReadLength(s[2..]);
    }
  }

  lemma NulPrinted()
    ensures EscapeByte('\0') == "\\0"
  {
  }

  /** A datum denotes the bytes it was printed for exactly when no NUL stands in front of an octal digit. */
  lemma DatumReadsBack(s: string)
    requires Bytes(s)
    ensures Read(EscapeText(s)) == s <==> !RunsTogether(s)
  {
    ReadLength(s);
  }

  /** NUL and the digit 1 are printed as `\01`, which is the one byte 1. */
  lemma NulDigitLost()
    ensures EscapeText("\0" + "1") == "\\01" && Read("\\01") == [1 as char]
  {
    var s := "\0" + "1";
    assert s[0] == '\0' && s[1..] == "1" && "1"[1..] == "";
    assert EscapeText("1") == "1";
    var r := "\\01";
    assert r[1..] == "01" && r[1..3] == "01" && r[3..] == "";
    assert "01"[..1] == "0" && "0"[..0] == "";
    assert OctalNumber("0") == 0 && OctalNumber("01") == 1;
  }
}
