/** Quoted literals, operators and what is no token, by section 6.4 of ISO C11 (Lexer.c:344-579). */
module Quoted {
  import opened Options
  import opened Words
  import opened Ast
  import opened Tokens
  import opened Lexing
  import opened Spelled

  // ----- quoted literals -----

  /** What stands between quotes: characters other than the quote, a backslash or a line end, and escaped characters. */
  predicate Body(b: string, q: char)
    decreases |b|
  {
    if b == [] then true
    else if b[0] == '\\' then |b| > 1 && Body(b[2..], q)
    else b[0] != q && b[0] != '\n' && Body(b[1..], q)
  }

  lemma {:induction false} BodyCloses(b: string, q: char, tail: string)
    requires q != '\\' && Body(b, q)
    ensures QuoteCloses(b + ([q] + tail), q) && QuotedLen(b + ([q] + tail), q) == |b| + 1
    decreases |b|
  {
    var s := b + ([q] + tail);
    if b == [] {
      assert s == [q] + tail;
    } else if b[0] == '\\' {
      assert s[2..] == b[2..] + ([q] + tail);
      BodyCloses(b[2..], q, tail);
    } else {
      assert s[1..] == b[1..] + ([q] + tail);
      BodyCloses(b[1..], q, tail);
    }
  }

  lemma {:induction false} ClosesBody(s: string, q: char)
    requires q != '\\' && QuoteCloses(s, q)
    ensures var n := QuotedLen(s, q); n > 0 && s[n - 1] == q && Body(s[..n - 1], q)
    decreases |s|
  {
    var n := QuotedLen(s, q);
    if s[0] == q {
    } else if s[0] == '\\' && |s| > 1 {
      ClosesBody(s[2..], q);
      assert s[..n - 1][2..] == s[2..][..n - 3];
    } else {
      ClosesBody(s[1..], q);
      assert s[..n - 1][1..] == s[1..][..n - 2];
    }
  }

  function QuotedToken(text: string, q: char): Token { if q == '"' then StrTok(text) else CharTok(text) }

  /** Any body between quotes is one literal of its whole text, whatever follows. */
  lemma QuotedIsOneToken(b: string, q: char, tail: string)
    requires IsQuote(q) && Body(b, q)
    ensures var text := [q] + b + [q]; LexToken(text + tail) == Lexed(QuotedToken(text, q), |text|)
  {
    hide QuoteCloses, QuotedLen, Body;
    var text := [q] + b + [q];
    var s := text + tail;
    BodyCloses(b, q, tail);
    assert s[1..] == b + ([q] + tail) && s[0 + 1..] == s[1..];
    assert s[..|text|] == text;
  }

  /** A quote begins a literal exactly when it is closed on its line, some body being between the quotes. */
  lemma QuoteStarts(s: string)
    requires s != [] && IsQuote(s[0])
    ensures LexToken(s).tok != OtherTok <==> exists b :: Body(b, s[0]) && [s[0]] + b + [s[0]] <= s
  {
    hide Body, QuoteCloses, QuotedLen;
    var q := s[0];
    assert s[0 + 1..] == s[1..];
    if QuoteCloses(s[1..], q) {
      ClosesBody(s[1..], q);
      var n := QuotedLen(s[1..], q);
      var b := s[1..][..n - 1];
      assert [q] + b + [q] <= s;
    }
    if b :| Body(b, q) && [q] + b + [q] <= s {
      QuotedIsOneToken(b, q, s[|b| + 2..]);
      assert s == [q] + b + [q] + s[|b| + 2..];
    }
  }

  // ----- prefixes -----

  /** The encoding prefixes of sections 6.4.4.4 and 6.4.5. */
  const STRING_PREFIXES: set<string> := {"L", "u", "U", "u8"}
  const CHARACTER_PREFIXES: set<string> := {"L", "u", "U"}

  /** A prefix and the literal after it are one token. */
  lemma PrefixedIsOneToken(prefix: string, b: string, q: char, tail: string)
    requires IsQuote(q) && Body(b, q) && prefix in (if q == '"' then STRING_PREFIXES else CHARACTER_PREFIXES)
    ensures var text := prefix + ([q] + b + [q]); LexToken(text + tail) == Lexed(QuotedToken(text, q), |text|)
  {
    hide QuoteCloses, QuotedLen, Body, Span, KeywordOf;
    var text := prefix + ([q] + b + [q]);
    var s := text + tail;
    var n := |prefix|;
    assert s == prefix + ([q] + b + [q] + tail);
    PrefixWord(prefix, [q] + b + [q] + tail);
    BodyCloses(b, q, tail);
    assert s[n] == q && s[..n] == prefix && s[n + 1..] == b + ([q] + tail);
    assert s[..|text|] == text;
  }

  lemma PrefixWord(prefix: string, rest: string)
    requires prefix in STRING_PREFIXES && rest != [] && IsQuote(rest[0])
    ensures var s := prefix + rest; Span(Word, s) == |prefix| && IsAlpha(s[0]) && IsWord(s[0])
  {
    SpanExact(Word, prefix, rest);
  }

  // ----- no tokens -----

  /** The first bytes of the punctuators of section 6.4.6. */
  const PUNCTUATION: string := "[](){};,?:~.-+<>=!&|^*/%#"

  lemma PunctuatorByte(s: string)
    requires s != []
    ensures PunctAt(s).Some? <==> s[0] in PUNCTUATION
  {
    hide *;
    if s[0] in "[](){};,?:~." { BracketByte(s); }
    else if s[0] in "-+<>=!&|^*/%#" { OperatorByte(s); }
    else { OtherByte(s); }
    Bytes(s[0]);
  }

  lemma Bytes(c: char)
    ensures c in PUNCTUATION <==> c in "[](){};,?:~." || c in "-+<>=!&|^*/%#"
  {
    assert PUNCTUATION == "[](){};,?:~." + "-+<>=!&|^*/%#";
  }

  lemma BracketByte(s: string)
    requires s != [] && s[0] in "[](){};,?:~."
    ensures PunctAt(s).Some?
  {
  }

  lemma OperatorByte(s: string)
    requires s != [] && s[0] in "-+<>=!&|^*/%#"
    ensures PunctAt(s).Some?
  {
  }

  lemma OtherByte(s: string)
    requires s != [] && s[0] !in "[](){};,?:~." && s[0] !in "-+<>=!&|^*/%#"
    ensures PunctAt(s).None?
  {
    var b, o := "[](){};,?:~.", "-+<>=!&|^*/%#";
    assert forall i :: 0 <= i < |b| ==> b[i] in b;
    assert forall i :: 0 <= i < |o| ==> o[i] in o;
  }

  /** A byte that begins neither a word, nor a number, nor a literal, is a token exactly when it begins a punctuator. */
  lemma ErrorExactly(s: string)
    requires s != [] && !IsWord(s[0]) && !IsQuote(s[0])
    ensures LexToken(s).tok == OtherTok <==> s[0] !in PUNCTUATION
    ensures LexToken(s).tok == OtherTok || LexToken(s).tok.Sym?
  {
    hide PunctAt, PunctText;
    PunctuatorByte(s);
  }

  // ----- operators as they are written -----

  /** The binary operators of sections 6.5.5 to 6.5.14. */
  function Written(op: BinOp): string {
    match op
    case LogOr => "||"
    case LogAnd => "&&"
    case Arithmetic(Bit(Or)) => "|"
    case Arithmetic(Bit(Xor)) => "^"
    case Arithmetic(Bit(And)) => "&"
    case Comparison(Eq) => "=="
    case Comparison(Ne) => "!="
    case Comparison(Lt) => "<"
    case Comparison(Gt) => ">"
    case Comparison(Le) => "<="
    case Comparison(Ge) => ">="
    case Arithmetic(Shl) => "<<"
    case Arithmetic(Shr) => ">>"
    case Arithmetic(Add) => "+"
    case Arithmetic(Sub) => "-"
    case Arithmetic(Mul) => "*"
    case Arithmetic(Div) => "/"
    case Arithmetic(Rem) => "%"
  }

  /** An operator's text is one token, and the parser takes that token for the operator and no other. */
  lemma OperatorRead(op: BinOp)
    ensures LexToken(Written(op)).len == |Written(op)| && BinOf(LexToken(Written(op)).tok) == Some(op)
    ensures forall t :: BinOf(t) == Some(op) ==> t == LexToken(Written(op)).tok
  {
    hide LexToken, BinToken, Written;
    OperatorTokens(op);
    OperatorSpelled(op);
    forall t | BinOf(t) == Some(op) ensures t == BinToken(op) { BinaryTokens(t); }
    SymAlone(BinToken(op).p);
  }

  lemma OperatorSpelled(op: BinOp)
    ensures BinToken(op).Sym? && PunctText(BinToken(op).p) == Written(op)
  {
  }

  lemma SymAlone(p: Punct)
    ensures LexToken(PunctText(p)) == Lexed(Sym(p), |PunctText(p)|)
  {
    hide LexToken, PunctText;
    PunctuatorLexes(p);
  }

  /** The assignment operators of section 6.5.16. */
  function WrittenAssignment(op: Option<ArithOp>): string {
    match op
    case None => "="
    case Some(Mul) => "*="
    case Some(Div) => "/="
    case Some(Rem) => "%="
    case Some(Add) => "+="
    case Some(Sub) => "-="
    case Some(Shl) => "<<="
    case Some(Shr) => ">>="
    case Some(Bit(And)) => "&="
    case Some(Bit(Xor)) => "^="
    case Some(Bit(Or)) => "|="
  }

  lemma AssignmentRead(op: Option<ArithOp>)
    ensures
      var text := WrittenAssignment(op);
      LexToken(text).len == |text| && AssignOf(LexToken(text).tok) == Some(op)
  {
    hide LexToken, WrittenAssignment;
    AssignTokens(AssignToken(op), op);
    AssignSpelled(op);
    SymAlone(AssignToken(op).p);
  }

  lemma AssignSpelled(op: Option<ArithOp>)
    ensures AssignToken(op).Sym? && PunctText(AssignToken(op).p) == WrittenAssignment(op)
  {
    hide AssignToken, WrittenAssignment;
    AssignIsSym(op);
    AssignText(op, AssignToken(op).p);
  }

  lemma AssignIsSym(op: Option<ArithOp>)
    ensures AssignToken(op).Sym?
  {
  }

  lemma AssignText(op: Option<ArithOp>, p: Punct)
    requires AssignToken(op) == Sym(p)
    ensures PunctText(p) == WrittenAssignment(op)
  {
    hide WrittenAssignment, AssignToken;
    if op.None? { EqualsText(p); }
    else if op.value.Bit? { BitText(op.value.kind, p); }
    else { PlainText(op.value, p); }
  }

  lemma EqualsText(p: Punct)
    requires AssignToken(None) == Sym(p)
    ensures PunctText(p) == WrittenAssignment(None)
  {
  }

  lemma BitText(kind: BitKind, p: Punct)
    requires AssignToken(Some(Bit(kind))) == Sym(p)
    ensures PunctText(p) == WrittenAssignment(Some(Bit(kind)))
  {
  }

  lemma PlainText(op: ArithOp, p: Punct)
    requires !op.Bit? && AssignToken(Some(op)) == Sym(p)
    ensures PunctText(p) == WrittenAssignment(Some(op))
  {
  }

  function WrittenPrefix(op: UnOp): string {
    match op
    case Plus => "+"
    case Minus => "-"
    case Not => "!"
    case Complement => "~"
    case AddressOf => "&"
    case Deref => "*"
    case PreInc => "++"
    case PreDec => "--"
  }

  lemma PrefixRead(op: UnOp)
    ensures
      var text := WrittenPrefix(op);
      LexToken(text).len == |text| && PrefixOf(LexToken(text).tok) == Some(op)
  {
    hide LexToken;
    PrefixTokens(PrefixToken(op), op);
    SymAlone(PrefixToken(op).p);
  }
}
