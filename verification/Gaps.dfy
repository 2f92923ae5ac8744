/** What lies between tokens: exactly spaces, line splices and closed comments. */
module Gaps {
  import opened Tokens
  import opened Lexing
  import opened Respacing

  datatype Piece = Space(c: char) | Splice(cr: bool) | LineComment(text: string) | BlockComment(text: string)

  function PieceText(p: Piece): string {
    match p
    case Space(c) => [c]
    case Splice(cr) => if cr then "\\\r\n" else "\\\n"
    case LineComment(text) => "//" + text
    case BlockComment(text) => "/*" + (text + "*/")
  }

  predicate NoNewline(text: string) { text == [] || (text[0] != '\n' && NoNewline(text[1..])) }

  predicate NoClose(text: string) {
    text == [] || (!(text[0] == '*' && At(text, 1) == '/') && NoClose(text[1..]))
  }

  /** The white space between tokens: space, tabs, line ends, form feed. */
  const SPACES: set<char> := {' ', '\t', '\n', '\r', '\U{b}', '\U{c}'}

  /** Line comments last to the end of their line, block comments to the first closing mark. */
  predicate PieceOk(p: Piece, rest: string) {
    match p
    case Space(c) => c in SPACES
    case Splice(_) => true
    case LineComment(text) => NoNewline(text) && (rest == [] || rest[0] == '\n')
    case BlockComment(text) => NoClose(text)
  }

  /** No space, splice or comment starts here. */
  predicate StartsToken(rest: string) {
    rest == []
    || (rest[0] !in SPACES
        && !(rest[0] == '\\' && (At(rest, 1) == '\n' || (At(rest, 1) == '\r' && At(rest, 2) == '\n')))
        && !(rest[0] == '/' && At(rest, 1) in {'/', '*'}))
  }

  function GapText(ps: seq<Piece>): string {
    if ps == [] then [] else PieceText(ps[0]) + GapText(ps[1..])
  }

  predicate GapOk(ps: seq<Piece>, rest: string) {
    ps == [] || (PieceOk(ps[0], GapText(ps[1..]) + rest) && GapOk(ps[1..], rest))
  }

  /** `s` is a gap followed by `rest`, and `rest` starts with a token or is empty. */
  ghost predicate Splits(ps: seq<Piece>, rest: string, s: string) {
    GapText(ps) + rest == s && GapOk(ps, rest) && StartsToken(rest)
  }

  lemma NoPiece(s: string)
    ensures StartsToken(s) <==> PieceLen(s) == 0
  {
  }

  lemma {:induction false} LineOf(text: string, rest: string)
    requires NoNewline(text) && (rest == [] || rest[0] == '\n')
    ensures LineLen(text + rest) == |text|
  {
    if text == [] {
      assert text + rest == rest;
    } else {
      assert (text + rest)[1..] == text[1..] + rest;
      LineOf(text[1..], rest);
    }
  }

  lemma {:induction false} LineFound(s: string)
    ensures NoNewline(s[..LineLen(s)]) && (LineLen(s) < |s| ==> s[LineLen(s)] == '\n')
  {
    if s != [] && s[0] != '\n' {
      LineFound(s[1..]);
      assert s[..LineLen(s)][1..] == s[1..][..LineLen(s[1..])];
    }
  }

  lemma {:induction false} BlockOf(text: string, rest: string)
    requires NoClose(text)
    ensures BlockCloses(text + "*/" + rest) && BlockLen(text + "*/" + rest) == |text| + 2
  {
    var s := text + "*/" + rest;
    if text != [] {
      assert s[1..] == text[1..] + "*/" + rest;
      BlockOf(text[1..], rest);
      if |text| == 1 { assert s[1] == '*'; } else { assert s[1] == text[1]; }
    }
  }

  lemma {:induction false} BlockFound(s: string)
    requires BlockCloses(s)
    ensures BlockLen(s) >= 2 && s[BlockLen(s) - 2] == '*' && s[BlockLen(s) - 1] == '/' && NoClose(s[..BlockLen(s) - 2])
  {
    var n := BlockLen(s);
    if !(s[0] == '*' && At(s, 1) == '/') {
      BlockFound(s[1..]);
      var text := s[..n - 2];
      assert text[1..] == s[1..][..n - 3];
      assert |text| > 1 ==> text[1] == s[1];
    }
  }

  lemma LineSkipped(text: string, rest: string)
    requires PieceOk(LineComment(text), rest)
    ensures var s := "//" + text + rest; PieceLen(s) == 2 + |text| && !Unclosed(s)
  {
    hide LineLen, BlockLen, BlockCloses, NoNewline;
    var s := "//" + text + rest;
    assert s[2..] == text + rest;
    LineOf(text, rest);
  }

  lemma BlockSkipped(text: string, rest: string)
    requires NoClose(text)
    ensures var s := "/*" + (text + "*/") + rest; PieceLen(s) == 4 + |text| && !Unclosed(s)
  {
    hide LineLen, BlockLen, BlockCloses, NoClose;
    var s := "/*" + (text + "*/") + rest;
    assert s[2..] == text + "*/" + rest;
    BlockOf(text, rest);
  }

  lemma ShortSkipped(p: Piece, rest: string)
    requires (p.Space? || p.Splice?) && PieceOk(p, rest)
    ensures PieceLen(PieceText(p) + rest) == |PieceText(p)| && !Unclosed(PieceText(p) + rest)
  {
  }

  /** A piece is skipped in one step. */
  lemma PieceSkipped(p: Piece, rest: string)
    requires PieceOk(p, rest)
    ensures PieceLen(PieceText(p) + rest) == |PieceText(p)| > 0 && !Unclosed(PieceText(p) + rest)
  {
    hide PieceLen, Unclosed, NoClose, NoNewline, IsSpace;
    match p
    case Space(_) => ShortSkipped(p, rest);
    case Splice(_) => ShortSkipped(p, rest);
    case LineComment(text) => LineSkipped(text, rest);
    case BlockComment(text) => BlockSkipped(text, rest);
  }

  lemma LinePiece(s: string)
    requires |s| >= 2 && s[0] == '/' && s[1] == '/'
    ensures
      var n := 2 + LineLen(s[2..]);
      PieceText(LineComment(s[2..n])) == s[..n] && PieceOk(LineComment(s[2..n]), s[n..])
  {
    hide LineLen, NoNewline;
    var n := 2 + LineLen(s[2..]);
    LineFound(s[2..]);
    assert s[2..n] == s[2..][..LineLen(s[2..])];
    assert n < |s| ==> s[n..][0] == s[2..][n - 2];
  }

  lemma BlockPiece(s: string)
    requires |s| >= 2 && s[0] == '/' && s[1] == '*' && BlockCloses(s[2..])
    ensures var n := 2 + BlockLen(s[2..]);
            n >= 4 && PieceText(BlockComment(s[2..n - 2])) == s[..n] && PieceOk(BlockComment(s[2..n - 2]), s[n..])
  {
    hide BlockLen, BlockCloses, NoClose;
    var n := 2 + BlockLen(s[2..]);
    BlockFound(s[2..]);
    assert s[2..n - 2] == s[2..][..n - 4];
    assert s[n - 2] == s[2..][n - 4] && s[n - 1] == s[2..][n - 3];
    assert s[..2] == "/*" && s[n - 2..n] == "*/";
    assert s[..n] == s[..2] + (s[2..n - 2] + s[n - 2..n]);
  }

  /** What is skipped in one step is a piece. */
  lemma PieceFound(s: string) returns (p: Piece)
    requires PieceLen(s) > 0 && !Unclosed(s)
    ensures PieceText(p) == s[..PieceLen(s)] && PieceOk(p, s[PieceLen(s)..])
  {
    hide LineLen, BlockLen, BlockCloses, NoClose, NoNewline;
    var n := PieceLen(s);
    if IsSpace(s[0]) {
      p := Space(s[0]);
    } else if s[0] == '\\' {
      p := Splice(n == 3);
    } else if s[1] == '/' {
      LinePiece(s);
      p := LineComment(s[2..n]);
    } else {
      BlockPiece(s);
      p := BlockComment(s[2..n - 2]);
    }
  }

  lemma {:induction false} GapSkipped(ps: seq<Piece>, rest: string)
    requires GapOk(ps, rest) && StartsToken(rest)
    ensures TriviaLen(GapText(ps) + rest) == |GapText(ps)| && TriviaOk(GapText(ps) + rest)
    decreases |ps|
  {
    hide PieceLen, Unclosed, StartsToken, PieceOk, PieceText;
    var s := GapText(ps) + rest;
    if ps == [] {
      assert s == rest;
      NoPiece(rest);
    } else {
      var more := GapText(ps[1..]) + rest;
      var t := PieceText(ps[0]);
      assert s == t + more && s[|t|..] == more;
      PieceSkipped(ps[0], more);
      GapSkipped(ps[1..], rest);
    }
  }

  lemma {:induction false} GapFound(s: string) returns (ps: seq<Piece>)
    requires TriviaOk(s)
    ensures Splits(ps, s[TriviaLen(s)..], s)
    decreases |s|
  {
    hide PieceLen, Unclosed, StartsToken, PieceOk, PieceText;
    var k := PieceLen(s);
    if k == 0 {
      ps := [];
      assert s[0..] == s && [] + s == s;
      NoPiece(s);
    } else {
      var p := PieceFound(s);
      var more := GapFound(s[k..]);
      ps := [p] + more;
      assert s[k..][TriviaLen(s[k..])..] == s[TriviaLen(s)..];
      SplitsMore(p, more, s[TriviaLen(s)..], s, k);
    }
  }

  lemma SplitsMore(p: Piece, more: seq<Piece>, rest: string, s: string, k: nat)
    requires k <= |s| && PieceText(p) == s[..k] && PieceOk(p, s[k..]) && Splits(more, rest, s[k..])
    ensures Splits([p] + more, rest, s)
  {
    hide StartsToken, PieceOk, PieceText;
    var ps := [p] + more;
    assert ps[1..] == more;
    assert s == s[..k] + (GapText(more) + rest) == GapText(ps) + rest;
  }

  /** Before a token the lexer skips exactly a gap, and all of it. */
  lemma GapIsSkipped(s: string, n: nat)
    requires n <= |s|
    ensures TriviaOk(s) && TriviaLen(s) == n <==> exists ps :: |GapText(ps)| == n && Splits(ps, s[n..], s)
  {
    hide TriviaOk, TriviaLen, GapOk, StartsToken;
    if TriviaOk(s) && TriviaLen(s) == n {
      var ps := GapFound(s);
      assert |GapText(ps)| + |s[n..]| == |s|;
    }
    if ps :| |GapText(ps)| == n && Splits(ps, s[n..], s) {
      GapSkipped(ps, s[n..]);
    }
  }

  /** Gaps and tokens by turns. */
  function Weave(gaps: seq<seq<Piece>>, ts: seq<Token>): string
    requires |gaps| == |ts| + 1
    decreases |ts|
  {
    GapText(gaps[0]) + if ts == [] then [] else Spelling(ts[0]) + Weave(gaps[1..], ts[1..])
  }

  /** Every gap is one, and every token has bytes. */
  predicate Tiles(gaps: seq<seq<Piece>>, ts: seq<Token>)
    requires |gaps| == |ts| + 1
    decreases |ts|
  {
    if ts == [] then GapOk(gaps[0], [])
    else
      Spelling(ts[0]) != [] && GapOk(gaps[0], Spelling(ts[0]) + Weave(gaps[1..], ts[1..])) && Tiles(gaps[1..], ts[1..])
  }

  /** A text that lexes is tiled by its tokens and the gaps between them: no byte is lost or read twice. */
  lemma {:induction false} TextIsTiled(s: string) returns (gaps: seq<seq<Piece>>)
    requires LexAll(s).ok
    ensures |gaps| == |LexAll(s).tokens| + 1 && Weave(gaps, LexAll(s).tokens) == s && Tiles(gaps, LexAll(s).tokens)
    decreases |s|
  {
    hide LexToken, TriviaOk, TriviaLen, GapOk, LexAll, StartsToken, Spelling, GapText;
    TextOk(s);
    FirstToken(s);
    var ps := GapFound(s);
    var rest := s[TriviaLen(s)..];
    var ts := LexAll(s).tokens;
    gaps := [ps];
    if rest == [] {
      assert ts == [];
    } else {
      var r := LexToken(rest);
      var tail := rest[r.len..];
      TokenSpelled(rest);
      var more := TextIsTiled(tail);
      assert ts == [r.tok] + LexAll(tail).tokens && ts[0] == r.tok && ts[1..] == LexAll(tail).tokens;
      gaps := [ps] + more;
      assert gaps[0] == ps && gaps[1..] == more;
      assert rest == rest[..r.len] + tail;
    }
  }

  lemma TextOk(s: string)
    requires LexAll(s).ok
    ensures TriviaOk(s)
  {
    hide LexToken, TriviaOk, TriviaLen;
  }
}
