/**
 The lexer of Lexer.c as functions from the bytes ahead to lengths and tokens.
 Bytes are characters below 256; beyond the end the lexer sees NUL.
 */
module Lexing {
  import opened Options
  import opened Tokens
  import opened Literals

  /** The byte the lexer peeks at. */
  function At(s: string, i: nat): char { if i < |s| then s[i] else '\0' }

  predicate IsAlpha(c: char) { 'a' <= c <= 'z' || 'A' <= c <= 'Z' }

  predicate IsWord(c: char) { IsAlpha(c) || IsDigit(c) || c == '_' }

  predicate IsSpace(c: char) { c in {' ', '\t', '\r', '\n', 11 as char, 12 as char} }

  predicate IsQuote(c: char) { c == '"' || c == '\'' }

  // ----- spaces and comments -----

  /** Bytes of a comment up to and including the closing mark; all of them when there is none. */
  function BlockLen(s: string): (n: nat)
    ensures n <= |s|
  {
    if s == [] then 0
    else if s[0] == '*' && At(s, 1) == '/' then 2
    else 1 + BlockLen(s[1..])
  }

  predicate BlockCloses(s: string) {
    s != [] && ((s[0] == '*' && At(s, 1) == '/') || BlockCloses(s[1..]))
  }

  /** Bytes before the end of the line. */
  function LineLen(s: string): (n: nat)
    ensures n <= |s|
  {
    if s == [] || s[0] == '\n' then 0 else 1 + LineLen(s[1..])
  }

  /** Length of the space, line splice or comment the bytes start with, 0 if none. */
  function PieceLen(s: string): (n: nat)
    ensures n <= |s|
  {
    if s == [] then 0
    else if IsSpace(s[0]) then 1
    else if s[0] == '\\' && At(s, 1) == '\n' then 2
    else if s[0] == '\\' && At(s, 1) == '\r' && At(s, 2) == '\n' then 3
    else if s[0] == '/' && At(s, 1) == '/' then 2 + LineLen(s[2..])
    else if s[0] == '/' && At(s, 1) == '*' then 2 + BlockLen(s[2..])
    else 0
  }

  /** Whether the bytes start with a comment that is never closed. */
  predicate Unclosed(s: string) {
    |s| >= 2 && s[0] == '/' && s[1] == '*' && !BlockCloses(s[2..])
  }

  /** Bytes skipped before a token. */
  function TriviaLen(s: string): (n: nat)
    ensures n <= |s|
    decreases |s|
  {
    var k := PieceLen(s);
    if k == 0 then 0 else k + TriviaLen(s[k..])
  }

  /** Whether every comment among the bytes skipped is closed. */
  predicate TriviaOk(s: string)
    decreases |s|
  {
    var k := PieceLen(s);
    k == 0 || (!Unclosed(s) && TriviaOk(s[k..]))
  }

  // ----- tokens -----

  datatype CharClass = Word | Decimals | Hexadecimals

  predicate Has(cls: CharClass, c: char) {
    match cls
    case Word => IsWord(c)
    case Decimals => IsDigit(c)
    case Hexadecimals => IsHexDigit(c)
  }

  /** Length of the longest run of bytes of a class. */
  function Span(cls: CharClass, s: string): (n: nat)
    ensures n <= |s|
  {
    if s == [] || !Has(cls, s[0]) then 0 else 1 + Span(cls, s[1..])
  }

  /** A token and its length. `OtherTok` is an error. */
  datatype Lexed = Lexed(tok: Token, len: nat)

  /** Bytes of a quoted literal after the opening quote. */
  function QuotedLen(s: string, q: char): (n: nat)
    ensures n <= |s|
  {
    if s == [] then 0
    else if s[0] == q then 1
    else if s[0] == '\n' then 0
    else if s[0] == '\\' && |s| > 1 then 2 + QuotedLen(s[2..], q)
    else 1 + QuotedLen(s[1..], q)
  }

  predicate QuoteCloses(s: string, q: char) {
    if s == [] then false
    else if s[0] == q then true
    else if s[0] == '\n' then false
    else if s[0] == '\\' && |s| > 1 then QuoteCloses(s[2..], q)
    else QuoteCloses(s[1..], q)
  }

  /** A literal whose opening quote is at `i`. */
  function LexQuoted(s: string, i: nat): (r: Lexed)
    requires i < |s| && IsQuote(s[i])
    ensures 0 < r.len <= |s|
  {
    var n := i + 1 + QuotedLen(s[i + 1..], s[i]);
    if !QuoteCloses(s[i + 1..], s[i]) then Lexed(OtherTok, n)
    else if s[i] == '"' then Lexed(StrTok(s[..n]), n)
    else Lexed(CharTok(s[..n]), n)
  }

  /** The encoding prefixes that may stand before a quote. */
  predicate IsPrefix(word: string, q: char) {
    word in {"L", "u", "U"} || (word == "u8" && q == '"')
  }

  function LexWord(s: string): (r: Lexed)
    requires s != [] && IsWord(s[0])
    ensures 0 < r.len <= |s|
  {
    var n := Span(Word, s);
    if n < |s| && IsQuote(s[n]) && IsPrefix(s[..n], s[n]) then LexQuoted(s, n)
    else match KeywordOf(s[..n])
      case Some(k) => Lexed(Kw(k), n)
      case None => Lexed(Name(s[..n]), n)
  }

  /** A point and the digits after it. */
  function FractionLen(cls: CharClass, s: string): (n: nat)
    ensures n <= |s|
  {
    if At(s, 0) == '.' then 1 + Span(cls, s[1..]) else 0
  }

  function SignLen(s: string, i: nat): nat { if At(s, i) in {'+', '-'} then 1 else 0 }

  /** A decimal exponent needs a digit; without one nothing is consumed. */
  function ExponentLen(s: string): (n: nat)
    ensures n <= |s|
  {
    if At(s, 0) !in {'e', 'E'} then 0 else
      var k := 1 + SignLen(s, 1);
      if IsDigit(At(s, k)) then k + Span(Decimals, s[k..]) else 0
  }

  /** A binary exponent may lack digits. */
  function BinaryExponentLen(s: string): (n: nat)
    ensures n <= |s|
  {
    if At(s, 0) !in {'p', 'P'} then 0 else
      var k := 1 + SignLen(s, 1);
      k + Span(Decimals, s[k..])
  }

  /** Any run of `u` and `l` marks, and `f` marks after a floating constant. */
  function SuffixLen(s: string, isFloat: bool): (n: nat)
    ensures n <= |s|
  {
    if At(s, 0) in {'u', 'U'} || (isFloat && At(s, 0) in {'f', 'F'}) then 1 + SuffixLen(s[1..], isFloat)
    else if At(s, 0) in {'l', 'L'} then
      if At(s, 1) == s[0] then 2 + SuffixLen(s[2..], isFloat) else 1 + SuffixLen(s[1..], isFloat)
    else 0
  }

  predicate IsHex(s: string) { At(s, 0) == '0' && At(s, 1) in {'x', 'X'} }

  /** Digits before the point. */
  function WholeLen(s: string): (n: nat)
    ensures n <= |s|
  {
    if IsHex(s) then 2 + Span(Hexadecimals, s[2..]) else Span(Decimals, s)
  }

  function NumberExponent(hex: bool, s: string): (n: nat)
    ensures n <= |s|
  {
    if hex then BinaryExponentLen(s) else ExponentLen(s)
  }

  function LexNumber(s: string): (r: Lexed)
    requires s != [] && IsDigit(s[0])
    ensures 0 < r.len <= |s|
  {
    var a := WholeLen(s);
    var b := FractionLen(if IsHex(s) then Hexadecimals else Decimals, s[a..]);
    var c := NumberExponent(IsHex(s), s[a + b..]);
    var isFloat := b > 0 || c > 0;
    var n := a + b + c + SuffixLen(s[a + b + c..], isFloat);
    Lexed(if isFloat then FloatTok(s[..n]) else IntTok(s[..n]), n)
  }

  /** The punctuator the bytes start with, by looking at up to three of them. */
  function PunctAt(s: string): Option<Punct> {
    var c, d, e := At(s, 0), At(s, 1), At(s, 2);
    match c
    case '[' => Some(LBracket)
    case ']' => Some(RBracket)
    case '(' => Some(LParen)
    case ')' => Some(RParen)
    case '{' => Some(LBrace)
    case '}' => Some(RBrace)
    case ';' => Some(Semi)
    case ',' => Some(CommaSign)
    case '?' => Some(Question)
    case ':' => Some(Colon)
    case '~' => Some(Tilde)
    case '.' => Some(if d == '.' && e == '.' then Ellipsis else Dot)
    case '-' =>
      Some(if d == '>' then Arrow else if d == '-' then MinusMinus else if d == '=' then MinusEq else MinusSign)
    case '+' => Some(if d == '+' then PlusPlus else if d == '=' then PlusEq else PlusSign)
    case '<' =>
      Some(if d == '<' && e == '=' then ShlEq else if d == '<' then ShlOp else if d == '=' then LessEq else Less)
    case '>' =>
      Some(if d == '>' && e == '=' then ShrEq else if d == '>' then ShrOp else if d == '=' then GreaterEq else Greater)
    case '=' => Some(if d == '=' then EqEq else EqSign)
    case '!' => Some(if d == '=' then NotEq else Bang)
    case '&' => Some(if d == '&' then AndAnd else if d == '=' then AndEq else Amp)
    case '|' => Some(if d == '|' then OrOr else if d == '=' then OrEq else Pipe)
    case '^' => Some(if d == '=' then XorEq else Caret)
    case '*' => Some(if d == '=' then StarEq else Star)
    case '/' => Some(if d == '=' then SlashEq else Slash)
    case '%' => Some(if d == '=' then PercentEq else Percent)
    case '#' => Some(if d == '#' then HashHash else Hash)
    case _ => None
  }

  function LexPunct(s: string): (r: Lexed)
    requires s != []
    ensures 0 < r.len <= |s|
  {
    match PunctAt(s)
    case Some(p) => PunctFits(s, p); Lexed(Sym(p), |PunctText(p)|)
    case None => Lexed(OtherTok, 1)
  }

  /** The token the bytes start with. */
  function LexToken(s: string): (r: Lexed)
    requires s != []
    ensures 0 < r.len <= |s|
  {
    if IsAlpha(s[0]) || s[0] == '_' then LexWord(s)
    else if IsDigit(s[0]) then LexNumber(s)
    else if IsQuote(s[0]) then LexQuoted(s, 0)
    else LexPunct(s)
  }

  /** All tokens up to the end or the first error. */
  datatype Scan = Scan(tokens: seq<Token>, ok: bool)

  function LexAll(s: string): Scan
    decreases |s|
  {
    var rest := s[TriviaLen(s)..];
    if !TriviaOk(s) then Scan([], false)
    else if rest == [] then Scan([], true)
    else
      var r := LexToken(rest);
      if r.tok == OtherTok then Scan([OtherTok], false) else
        var more := LexAll(rest[r.len..]);
        Scan([r.tok] + more.tokens, more.ok)
  }

  // ----- spellings -----

  function PunctText(p: Punct): (r: string)
    ensures 1 <= |r| <= 3
  {
    match p
    case LBracket => "["
    case RBracket => "]"
    case LParen => "("
    case RParen => ")"
    case LBrace => "{"
    case RBrace => "}"
    case Dot => "."
    case Arrow => "->"
    case PlusPlus => "++"
    case MinusMinus => "--"
    case Amp => "&"
    case Star => "*"
    case PlusSign => "+"
    case MinusSign => "-"
    case Tilde => "~"
    case Bang => "!"
    case Slash => "/"
    case Percent => "%"
    case ShlOp => "<<"
    case ShrOp => ">>"
    case Less => "<"
    case Greater => ">"
    case LessEq => "<="
    case GreaterEq => ">="
    case EqEq => "=="
    case NotEq => "!="
    case Caret => "^"
    case Pipe => "|"
    case AndAnd => "&&"
    case OrOr => "||"
    case Question => "?"
    case Colon => ":"
    case Semi => ";"
    case Ellipsis => "..."
    case EqSign => "="
    case StarEq => "*="
    case SlashEq => "/="
    case PercentEq => "%="
    case PlusEq => "+="
    case MinusEq => "-="
    case ShlEq => "<<="
    case ShrEq => ">>="
    case AndEq => "&="
    case XorEq => "^="
    case OrEq => "|="
    case CommaSign => ","
    case Hash => "#"
    case HashHash => "##"
  }

  /** The punctuator found is a prefix of the bytes. */
  lemma PunctFits(s: string, p: Punct)
    requires PunctAt(s) == Some(p)
    ensures PunctText(p) <= s
  {
    hide *;
    if At(s, 0) in {'[', ']', '(', ')', '{', '}', ';', ',', '?', ':', '~', '.'} { BracketFits(s, p); }
    else if At(s, 0) in {'-', '+', '<', '>', '=', '!'} { SignFits(s, p); }
    else { MarkFits(s, p); }
  }

  lemma BracketFits(s: string, p: Punct)
    requires At(s, 0) in {'[', ']', '(', ')', '{', '}', ';', ',', '?', ':', '~', '.'} && PunctAt(s) == Some(p)
    ensures PunctText(p) <= s
  {
  }

  lemma SignFits(s: string, p: Punct)
    requires At(s, 0) in {'-', '+', '<', '>', '=', '!'} && PunctAt(s) == Some(p)
    ensures PunctText(p) <= s
  {
  }

  lemma MarkFits(s: string, p: Punct)
    requires At(s, 0) !in {'[', ']', '(', ')', '{', '}', ';', ',', '?', ':', '~', '.', '-', '+', '<', '>', '=', '!'}
    requires PunctAt(s) == Some(p)
    ensures PunctText(p) <= s
  {
  }

  function KeywordText(k: Keyword): string {
    match k
    case KwAuto => "auto"
    case KwBreak => "break"
    case KwCase => "case"
    case KwChar => "char"
    case KwConst => "const"
    case KwContinue => "continue"
    case KwDefault => "default"
    case KwDo => "do"
    case KwDouble => "double"
    case KwElse => "else"
    case KwEnum => "enum"
    case KwExtern => "extern"
    case KwFloat => "float"
    case KwFor => "for"
    case KwGoto => "goto"
    case KwIf => "if"
    case KwInline => "inline"
    case KwInt => "int"
    case KwLong => "long"
    case KwRegister => "register"
    case KwRestrict => "restrict"
    case KwReturn => "return"
    case KwShort => "short"
    case KwSigned => "signed"
    case KwSizeof => "sizeof"
    case KwStatic => "static"
    case KwStruct => "struct"
    case KwSwitch => "switch"
    case KwTypedef => "typedef"
    case KwUnion => "union"
    case KwUnsigned => "unsigned"
    case KwVoid => "void"
    case KwVolatile => "volatile"
    case KwWhile => "while"
    case KwAlignas => "_Alignas"
    case KwAlignof => "_Alignof"
    case KwAtomic => "_Atomic"
    case KwBool => "_Bool"
    case KwComplex => "_Complex"
    case KwGeneric => "_Generic"
    case KwImaginary => "_Imaginary"
    case KwNoreturn => "_Noreturn"
    case KwStaticAssert => "_Static_assert"
    case KwThreadLocal => "_Thread_local"
  }

  const KEYWORDS: seq<Keyword> := [
    KwAuto, KwBreak, KwCase, KwChar, KwConst, KwContinue, KwDefault, KwDo, KwDouble, KwElse, KwEnum, KwExtern,
    KwFloat, KwFor, KwGoto, KwIf, KwInline, KwInt, KwLong, KwRegister, KwRestrict, KwReturn, KwShort, KwSigned,
    KwSizeof, KwStatic, KwStruct, KwSwitch, KwTypedef, KwUnion, KwUnsigned, KwVoid, KwVolatile, KwWhile,
    KwAlignas, KwAlignof, KwAtomic, KwBool, KwComplex, KwGeneric, KwImaginary, KwNoreturn, KwStaticAssert,
    KwThreadLocal]

  /** The first entry from `i` on with this text. */
  function SearchFrom(table: seq<Keyword>, word: string, i: nat): Option<Keyword>
    requires i <= |table|
    decreases |table| - i
  {
    if i == |table| then None
    else if KeywordText(table[i]) == word then Some(table[i])
    else SearchFrom(table, word, i + 1)
  }

  function KeywordOf(word: string): Option<Keyword> { SearchFrom(KEYWORDS, word, 0) }
}
