/**
 The recursive descent parser of parser.c as functions from the tokens ahead
 to a tree and the tokens left. The end of the sequence is the end of the file.
 */
module Parsing {
  import opened Options
  import opened Ast
  import opened Tokens
  import opened Literals

  /** The C program exits at a syntax error; pointer and array declarators are not part of the model. */
  datatype Reason = SyntaxError | NotModelled

  datatype Parsed<+T> = Ok(value: T, rest: seq<Token>) | Stop(reason: Reason)

  /** The token the parser looks at. */
  function Cur(ts: seq<Token>): Token { if ts == [] then Eof else ts[0] }

  function Rest(ts: seq<Token>): (r: seq<Token>)
    ensures ts != [] ==> |r| == |ts| - 1
  {
    if ts == [] then [] else ts[1..]
  }

  /** A successful parse consumes at least one token. */
  predicate Consumes<T>(r: Parsed<T>, ts: seq<Token>) { r.Ok? ==> |r.rest| < |ts| }

  predicate Keeps<T>(r: Parsed<T>, ts: seq<Token>) { r.Ok? ==> |r.rest| <= |ts| }

  /** The parse continues only if the next token is `t`, which it consumes. */
  function Expect<T>(t: Token, value: T, ts: seq<Token>): (r: Parsed<T>)
    requires t != Eof
    ensures Consumes(r, ts)
  {
    if Cur(ts) == t then Ok(value, Rest(ts)) else Stop(SyntaxError)
  }

  // ----- expressions -----

  function ParseExpression(ts: seq<Token>): (r: Parsed<Expr>)
    ensures Consumes(r, ts)
    decreases |ts|, 7
  {
    match ParseAssignment(ts)
    case Ok(l, rest) => CommaLoop(l, rest)
    case Stop(w) => Stop(w)
  }

  function CommaLoop(l: Expr, ts: seq<Token>): (r: Parsed<Expr>)
    ensures Keeps(r, ts)
    decreases |ts|, 0
  {
    if Cur(ts) != Sym(CommaSign) then Ok(l, ts) else
      match ParseAssignment(Rest(ts))
      case Ok(e, rest) => CommaLoop(Comma(l, e), rest)
      case Stop(w) => Stop(w)
  }

  function ParseAssignment(ts: seq<Token>): (r: Parsed<Expr>)
    ensures Consumes(r, ts)
    decreases |ts|, 6
  {
    match ParseConditional(ts)
    case Ok(l, rest) => AssignTail(l, rest)
    case Stop(w) => Stop(w)
  }

  function AssignTail(l: Expr, ts: seq<Token>): (r: Parsed<Expr>)
    ensures Keeps(r, ts)
    decreases |ts|, 0
  {
    if AssignOf(Cur(ts)).None? then Ok(l, ts) else
      match ParseAssignment(Rest(ts))
      case Ok(e, rest) => Ok(Assign(AssignOf(Cur(ts)).value, l, e), rest)
      case Stop(w) => Stop(w)
  }

  function ParseConditional(ts: seq<Token>): (r: Parsed<Expr>)
    ensures Consumes(r, ts)
    decreases |ts|, 5
  {
    match ParseBinary(ts, 0)
    case Ok(c, rest) => ConditionalTail(c, rest)
    case Stop(w) => Stop(w)
  }

  function ConditionalTail(c: Expr, ts: seq<Token>): (r: Parsed<Expr>)
    ensures Keeps(r, ts)
    decreases |ts|, 0
  {
    if Cur(ts) != Sym(Question) then Ok(c, ts) else
      match ParseExpression(Rest(ts))
      case Stop(w) => Stop(w)
      case Ok(a, more) =>
        if Cur(more) != Sym(Colon) then Stop(SyntaxError) else
          match ParseConditional(Rest(more))
          case Stop(w) => Stop(w)
          case Ok(b, rest) => Ok(Conditional(c, a, b), rest)
  }

  /** Precedence climbing: operators of precedence `min` and more belong to this operand. */
  function ParseBinary(ts: seq<Token>, min: nat): (r: Parsed<Expr>)
    ensures Consumes(r, ts)
    decreases |ts|, 4
  {
    match ParseUnary(ts)
    case Ok(l, rest) => BinaryLoop(l, rest, min)
    case Stop(w) => Stop(w)
  }

  function BinaryLoop(l: Expr, ts: seq<Token>, min: nat): (r: Parsed<Expr>)
    ensures Keeps(r, ts)
    decreases |ts|, 0
  {
    var p := Precedence(Cur(ts));
    if p == 0 || p < min || BinOf(Cur(ts)).None? then Ok(l, ts) else
      match ParseBinary(Rest(ts), p + 1)
      case Ok(e, rest) => BinaryLoop(Binary(BinOf(Cur(ts)).value, l, e), rest, min)
      case Stop(w) => Stop(w)
  }

  function ParseUnary(ts: seq<Token>): (r: Parsed<Expr>)
    ensures Consumes(r, ts)
    decreases |ts|, 3
  {
    if PrefixOf(Cur(ts)).Some? then
      match ParseUnary(Rest(ts))
      case Ok(e, rest) => Ok(Unary(PrefixOf(Cur(ts)).value, e), rest)
      case Stop(w) => Stop(w)
    else if Cur(ts) == Kw(KwSizeof) then ParseSizeof(Rest(ts))
    else ParsePostfix(ts)
  }

  /** After `sizeof`, a parenthesis always encloses the whole operand. */
  function ParseSizeof(ts: seq<Token>): (r: Parsed<Expr>)
    ensures Consumes(r, ts)
    decreases |ts|, 4
  {
    if Cur(ts) == Sym(LParen) then
      match ParseExpression(Rest(ts))
      case Ok(e, rest) => Expect(Sym(RParen), SizeOf(e), rest)
      case Stop(w) => Stop(w)
    else
      match ParseUnary(ts)
      case Ok(e, rest) => Ok(SizeOf(e), rest)
      case Stop(w) => Stop(w)
  }

  function ParsePostfix(ts: seq<Token>): (r: Parsed<Expr>)
    ensures Consumes(r, ts)
    decreases |ts|, 2
  {
    match ParsePrimary(ts)
    case Ok(e, rest) => PostfixLoop(e, rest)
    case Stop(w) => Stop(w)
  }

  function PostfixLoop(e: Expr, ts: seq<Token>): (r: Parsed<Expr>)
    ensures Keeps(r, ts)
    decreases |ts|, 1
  {
    match PostfixStep(e, ts)
    case Stop(w) => Stop(w)
    case Ok(None, _) => Ok(e, ts)
    case Ok(Some(f), rest) => PostfixLoop(f, rest)
  }

  /** One suffix: an index, arguments, a member, `++` or `--`; `None` when there is none. */
  function PostfixStep(e: Expr, ts: seq<Token>): (r: Parsed<Option<Expr>>)
    ensures r.Ok? && r.value.Some? ==> |r.rest| < |ts|
    decreases |ts|, 0
  {
    match Cur(ts)
    case Sym(LBracket) =>
      (match ParseExpression(Rest(ts))
       case Ok(i, rest) => Expect(Sym(RBracket), Some(Index(e, i)), rest)
       case Stop(w) => Stop(w))
    case Sym(LParen) =>
      if Cur(Rest(ts)) == Sym(RParen) then Ok(Some(Call(e, [])), Rest(Rest(ts))) else
        (match ParseArguments([], Rest(ts))
         case Ok(args, rest) => Ok(Some(Call(e, args)), rest)
         case Stop(w) => Stop(w))
    case Sym(Dot) => MemberName(e, false, Rest(ts))
    case Sym(Arrow) => MemberName(e, true, Rest(ts))
    case Sym(PlusPlus) => Ok(Some(Postfix(true, e)), Rest(ts))
    case Sym(MinusMinus) => Ok(Some(Postfix(false, e)), Rest(ts))
    case _ => Ok(None, ts)
  }

  function MemberName(e: Expr, arrow: bool, ts: seq<Token>): (r: Parsed<Option<Expr>>)
    ensures Consumes(r, ts)
  {
    if Cur(ts).Name? then Ok(Some(Member(e, Cur(ts).text, arrow)), Rest(ts)) else Stop(SyntaxError)
  }

  /** The arguments after those in `acc`, up to the closing parenthesis. */
  function ParseArguments(acc: seq<Expr>, ts: seq<Token>): (r: Parsed<seq<Expr>>)
    ensures Consumes(r, ts)
    decreases |ts|, 7
  {
    match ParseAssignment(ts)
    case Stop(w) => Stop(w)
    case Ok(e, rest) =>
      if Cur(rest) == Sym(CommaSign) then ParseArguments(acc + [e], Rest(rest))
      else Expect(Sym(RParen), acc + [e], rest)
  }

  function ParsePrimary(ts: seq<Token>): (r: Parsed<Expr>)
    ensures Consumes(r, ts)
    decreases |ts|, 1
  {
    if LeafOf(Cur(ts)).Some? then Ok(LeafOf(Cur(ts)).value, Rest(ts))
    else if Cur(ts) == Sym(LParen) then
      match ParseExpression(Rest(ts))
      case Ok(e, rest) => Expect(Sym(RParen), e, rest)
      case Stop(w) => Stop(w)
    else Stop(SyntaxError)
  }

  /** The leaf a name or a literal token stands for. */
  function LeafOf(t: Token): Option<Expr> {
    match t
    case Name(s) => Some(Ident(s))
    case IntTok(s) => Some(IntLit(DecodeInt(s), IntType(DecodeInt(s), s)))
    case FloatTok(s) => Some(FloatLit(s))
    case CharTok(s) => Some(CharLit(DecodeChar(s)))
    case StrTok(s) => Some(StrLit(DecodeStr(s)))
    case _ => None
  }

  // ----- statements -----

  function ParseStatement(ts: seq<Token>): (r: Parsed<Stmt>)
    ensures Consumes(r, ts)
    decreases |ts|, 5
  {
    if StartsDecl(Cur(ts)) then ParseVarDecl(ts)
    else if StartsStatement(Cur(ts)) then ParseKeyword(Cur(ts).kw, Rest(ts))
    else if Cur(ts) == Sym(LBrace) then ParseItems([], Rest(ts))
    else if Cur(ts) == Sym(Semi) then Ok(ExprStmt(None), Rest(ts))
    else if Cur(ts).Name? && Cur(Rest(ts)) == Sym(Colon) then
      match ParseStatement(Rest(Rest(ts)))
      case Stop(w) => Stop(w)
      case Ok(s, rest) => Ok(Label(Cur(ts).text, s), rest)
    else
      match ParseExpression(ts)
      case Stop(w) => Stop(w)
      case Ok(e, rest) => Expect(Sym(Semi), ExprStmt(Some(e)), rest)
  }

  /** Keywords that begin a statement other than a declaration. */
  predicate StartsStatement(t: Token) {
    t.Kw?
    && t.kw in {KwIf, KwWhile, KwDo, KwFor, KwSwitch, KwCase, KwDefault, KwBreak, KwContinue, KwGoto, KwReturn}
  }

  /** The statement after its first keyword. */
  function ParseKeyword(kw: Keyword, ts: seq<Token>): (r: Parsed<Stmt>)
    requires StartsStatement(Kw(kw))
    ensures Consumes(r, ts)
    decreases |ts|, 7
  {
    match kw
    case KwIf => ParseIf(ts)
    case KwWhile => ParseLoop(false, ts)
    case KwSwitch => ParseLoop(true, ts)
    case KwDo => ParseDo(ts)
    case KwFor => ParseFor(ts)
    case KwCase => ParseCase(ts)
    case KwDefault => ParseDefault(ts)
    case KwBreak => Expect(Sym(Semi), Break, ts)
    case KwContinue => Expect(Sym(Semi), Continue, ts)
    case KwGoto => if Cur(ts).Name? then Expect(Sym(Semi), Goto(Cur(ts).text), Rest(ts)) else Stop(SyntaxError)
    case KwReturn =>
      match ParseOptional(Sym(Semi), ts)
      case Stop(w) => Stop(w)
      case Ok(e, rest) => Ok(Return(e), rest)
  }

  /** After `while` or `switch`. */
  function ParseLoop(isSwitch: bool, ts: seq<Token>): (r: Parsed<Stmt>)
    ensures Consumes(r, ts)
    decreases |ts|, 6
  {
    match ParseTest(ts)
    case Stop(w) => Stop(w)
    case Ok(c, more) =>
      match ParseStatement(more)
      case Stop(w) => Stop(w)
      case Ok(s, rest) => Ok(if isSwitch then Switch(c, s) else While(c, s), rest)
  }

  function ParseDefault(ts: seq<Token>): (r: Parsed<Stmt>)
    ensures Consumes(r, ts)
    decreases |ts|, 6
  {
    if Cur(ts) != Sym(Colon) then Stop(SyntaxError) else
      match ParseStatement(Rest(ts))
      case Stop(w) => Stop(w)
      case Ok(s, rest) => Ok(Default(s), rest)
  }

  /** A parenthesised condition. */
  function ParseTest(ts: seq<Token>): (r: Parsed<Expr>)
    ensures Consumes(r, ts)
  {
    if Cur(ts) != Sym(LParen) then Stop(SyntaxError) else
      match ParseExpression(Rest(ts))
      case Stop(w) => Stop(w)
      case Ok(e, rest) => Expect(Sym(RParen), e, rest)
  }

  /** An expression that may be missing, up to and including `end`. */
  function ParseOptional(end: Token, ts: seq<Token>): (r: Parsed<Option<Expr>>)
    requires end != Eof
    ensures Consumes(r, ts)
  {
    if Cur(ts) == end then Ok(None, Rest(ts)) else
      match ParseExpression(ts)
      case Stop(w) => Stop(w)
      case Ok(e, rest) => Expect(end, Some(e), rest)
  }

  /** After `if`. An `else` that follows the branch belongs to this `if`. */
  function ParseIf(ts: seq<Token>): (r: Parsed<Stmt>)
    ensures Consumes(r, ts)
    decreases |ts|, 6
  {
    match ParseTest(ts)
    case Stop(w) => Stop(w)
    case Ok(c, more) =>
      match ParseStatement(more)
      case Stop(w) => Stop(w)
      case Ok(a, rest) =>
        if Cur(rest) != Kw(KwElse) then Ok(If(c, a, None), rest) else
          match ParseStatement(Rest(rest))
          case Stop(w) => Stop(w)
          case Ok(b, last) => Ok(If(c, a, Some(b)), last)
  }

  function ParseDo(ts: seq<Token>): (r: Parsed<Stmt>)
    ensures Consumes(r, ts)
    decreases |ts|, 6
  {
    match ParseStatement(ts)
    case Stop(w) => Stop(w)
    case Ok(s, more) =>
      if Cur(more) != Kw(KwWhile) then Stop(SyntaxError) else
        match ParseTest(Rest(more))
        case Stop(w) => Stop(w)
        case Ok(c, rest) => Expect(Sym(Semi), Do(s, c), rest)
  }

  function ParseFor(ts: seq<Token>): (r: Parsed<Stmt>)
    ensures Consumes(r, ts)
    decreases |ts|, 6
  {
    if Cur(ts) != Sym(LParen) then Stop(SyntaxError) else
      match ParseOptional(Sym(Semi), Rest(ts))
      case Stop(w) => Stop(w)
      case Ok(i, ts1) =>
        match ParseOptional(Sym(Semi), ts1)
        case Stop(w) => Stop(w)
        case Ok(c, ts2) =>
          match ParseOptional(Sym(RParen), ts2)
          case Stop(w) => Stop(w)
          case Ok(p, ts3) =>
            match ParseStatement(ts3)
            case Stop(w) => Stop(w)
            case Ok(s, rest) => Ok(For(i, c, p, s), rest)
  }

  function ParseCase(ts: seq<Token>): (r: Parsed<Stmt>)
    ensures Consumes(r, ts)
    decreases |ts|, 6
  {
    match ParseConditional(ts)
    case Stop(w) => Stop(w)
    case Ok(v, more) =>
      if Cur(more) != Sym(Colon) then Stop(SyntaxError) else
        match ParseStatement(Rest(more))
        case Stop(w) => Stop(w)
        case Ok(s, rest) => Ok(Case(v, s), rest)
  }

  /** The statements after those in `acc`, up to the closing brace. */
  function ParseItems(acc: seq<Stmt>, ts: seq<Token>): (r: Parsed<Stmt>)
    ensures Consumes(r, ts) && (r.Ok? ==> r.value.Block?)
    decreases |ts|, 6
  {
    if Cur(ts) == Sym(RBrace) then Ok(Block(acc), Rest(ts))
    else if Cur(ts) == Eof then Stop(SyntaxError)
    else
      match ParseStatement(ts)
      case Stop(w) => Stop(w)
      case Ok(s, rest) => ParseItems(acc + [s], rest)
  }

  /** The longest run of specifiers, and what follows it. */
  function Specifiers(ts: seq<Token>): (r: (seq<Keyword>, seq<Token>))
    ensures |r.1| <= |ts|
    ensures TypeKeyword(Cur(ts)) ==> |r.1| < |ts|
  {
    if TypeKeyword(Cur(ts)) then
      var (specs, rest) := Specifiers(Rest(ts));
      ([Cur(ts).kw] + specs, rest)
    else ([], ts)
  }

  /** Several declarators make one block of declarations. */
  function ParseVarDecl(ts: seq<Token>): (r: Parsed<Stmt>)
    requires StartsDecl(Cur(ts))
    ensures Consumes(r, ts)
  {
    var (specs, more) := Specifiers(ts);
    match ParseDeclarators(SpecifiedType(specs), [], more)
    case Stop(w) => Stop(w)
    case Ok(ds, rest) => Ok(if |ds| == 1 then ds[0] else Block(ds), rest)
  }

  function ParseDeclarators(ct: CType, acc: seq<Stmt>, ts: seq<Token>): (r: Parsed<seq<Stmt>>)
    ensures Consumes(r, ts)
    decreases |ts|
  {
    match ParseDeclarator(ct, ts)
    case Stop(w) => Stop(w)
    case Ok(d, rest) =>
      if Cur(rest) == Sym(CommaSign) then ParseDeclarators(ct, acc + [d], Rest(rest))
      else Expect(Sym(Semi), acc + [d], rest)
  }

  function ParseDeclarator(ct: CType, ts: seq<Token>): (r: Parsed<Stmt>)
    ensures Consumes(r, ts)
  {
    if !Cur(ts).Name? then Stop(SyntaxError)
    else if Cur(Rest(ts)) in {Sym(Star), Sym(LBracket)} then Stop(NotModelled)
    else if Cur(Rest(ts)) == Sym(EqSign) then
      match ParseAssignment(Rest(Rest(ts)))
      case Stop(w) => Stop(w)
      case Ok(e, rest) => Ok(VarDecl(Cur(ts).text, ct, Some(e)), rest)
    else Ok(VarDecl(Cur(ts).text, ct, None), Rest(ts))
  }

  // ----- function definitions -----

  /** A function definition; other external declarations are not part of the model. */
  function ParseFunction(ts: seq<Token>): (r: Parsed<Func>)
    ensures Consumes(r, ts)
  {
    var (specs, ts1) := Specifiers(ts);
    if !Cur(ts1).Name? || Cur(Rest(ts1)) != Sym(LParen) then Stop(NotModelled) else
      match ParseParams(Rest(Rest(ts1)))
      case Stop(w) => Stop(w)
      case Ok(ps, ts2) =>
        if Cur(ts2) != Sym(LBrace) then Stop(NotModelled) else
          match ParseItems([], Rest(ts2))
          case Stop(w) => Stop(w)
          case Ok(body, rest) => Ok(Func(Cur(ts1).text, SpecifiedType(specs), ps, body.stmts), rest)
  }

  /** The functions of a file after those in `acc`, up to its end. */
  function ParseUnit(acc: seq<Func>, ts: seq<Token>): (r: Parsed<seq<Func>>)
    ensures Keeps(r, ts)
    decreases |ts|
  {
    if Cur(ts) == Eof then Ok(acc, ts) else
      match ParseFunction(ts)
      case Stop(w) => Stop(w)
      case Ok(f, rest) => ParseUnit(acc + [f], rest)
  }

  function ParseParams(ts: seq<Token>): (r: Parsed<seq<Param>>)
    ensures Consumes(r, ts)
  {
    if Cur(ts) == Sym(RParen) then Ok([], Rest(ts))
    else if Cur(ts) == Kw(KwVoid) && Cur(Rest(ts)) == Sym(RParen) then Ok([], Rest(Rest(ts)))
    else ParamLoop([], ts)
  }

  /** Named parameters without pointers, arrays or functions among them. */
  function ParamLoop(acc: seq<Param>, ts: seq<Token>): (r: Parsed<seq<Param>>)
    ensures Consumes(r, ts)
    decreases |ts|
  {
    var (specs, more) := Specifiers(ts);
    if !Cur(more).Name? || Cur(Rest(more)) in {Sym(LBracket), Sym(LParen)} then Stop(NotModelled) else
      var ps := acc + [Param(Cur(more).text, SpecifiedType(specs))];
      if Cur(Rest(more)) == Sym(CommaSign) then ParamLoop(ps, Rest(Rest(more)))
      else Expect(Sym(RParen), ps, Rest(more))
  }
}
