/** The parser as it runs: a window of two tokens moved along the stream, loops and early exits. */
module ParserRun {
  import opened Options
  import opened Ast
  import opened Tokens
  import opened Parsing

  /** `Exit` stands for the message and `exit(1)`. */
  datatype Outcome<+T> = Got(value: T) | Exit(reason: Reason)

  /** The outcome and the tokens left are those of the specification. */
  ghost predicate Did<T>(spec: Parsed<T>, got: Outcome<T>, left: seq<Token>) {
    match spec
    case Ok(v, rest) => got == Got(v) && left == rest
    case Stop(w) => got == Exit(w)
  }

  /** The type chosen from the flags set while reading specifiers. */
  function TypeOfFlags(saw: set<Keyword>): CType {
    var u := KwUnsigned in saw;
    if KwVoid in saw then CVoid
    else if KwBool in saw then CBool
    else if KwFloat in saw then CFloat
    else if KwDouble in saw then CDouble
    else if KwChar in saw then CChar(u)
    else if KwShort in saw then CShort(u)
    else if KwLong in saw then CLong(u)
    else CInt(u)
  }

  lemma FlagsSuffice(saw: set<Keyword>, specs: seq<Keyword>)
    requires forall k :: k in saw <==> k in specs
    ensures TypeOfFlags(saw) == SpecifiedType(specs)
  {
  }

  /** What a suffix without expressions in it is parsed to. */
  lemma StepKinds(e: Expr, ts: seq<Token>)
    ensures Cur(ts) in {Sym(Dot), Sym(Arrow)} ==> PostfixStep(e, ts) == MemberName(e, Cur(ts) == Sym(Arrow), Rest(ts))
    ensures Cur(ts) in {Sym(PlusPlus), Sym(MinusMinus)} ==>
      PostfixStep(e, ts) == Ok(Some(Postfix(Cur(ts) == Sym(PlusPlus), e)), Rest(ts))
    ensures Cur(ts) !in {Sym(LBracket), Sym(LParen), Sym(Dot), Sym(Arrow), Sym(PlusPlus), Sym(MinusMinus)} ==>
      PostfixStep(e, ts) == Ok(None, ts)
  {
    hide Cur, ParseExpression, ParseArguments, MemberName;
  }

  class Parser {
    var cur: Token
    var peek: Token
    var feed: seq<Token>
    ghost var ahead: seq<Token>

    /** The window shows the first two of the tokens ahead; the lexer has the rest. */
    ghost predicate Valid()
      reads this
    {
      cur == Cur(ahead) && peek == Cur(Rest(ahead)) && feed == Rest(Rest(ahead))
    }

    constructor (tokens: seq<Token>)
      ensures Valid() && ahead == tokens
    {
      cur, peek, feed, ahead := Cur(tokens), Cur(Rest(tokens)), Rest(Rest(tokens)), tokens;
    }

    method Advance()
      requires Valid()
      modifies this
      ensures Valid() && ahead == Rest(old(ahead))
    {
      cur := peek;
      peek := Cur(feed);
      feed := Rest(feed);
      ahead := Rest(ahead);
    }

    method Match(t: Token) returns (found: bool)
      requires Valid() && t != Eof
      modifies this
      ensures Valid() && found == (old(cur) == t)
      ensures ahead == if found then Rest(old(ahead)) else old(ahead)
    {
      found := cur == t;
      if found { Advance(); }
    }

    // ----- expressions -----

    method Expression() returns (r: Outcome<Expr>)
      requires Valid()
      modifies this
      ensures Valid() && Did(ParseExpression(old(ahead)), r, ahead)
      decreases |ahead|, 7
    {
      hide ParseAssignment;
      r := Assignment();
      if r.Exit? { return; }
      var lhs := r.value;
      while cur == Sym(CommaSign)
        invariant Valid() && |ahead| < |old(ahead)| && CommaLoop(lhs, ahead) == ParseExpression(old(ahead))
        decreases |ahead|
      {
        Advance();
        r := Assignment();
        if r.Exit? { return; }
        lhs := Comma(lhs, r.value);
      }
      r := Got(lhs);
    }

    method Assignment() returns (r: Outcome<Expr>)
      requires Valid()
      modifies this
      ensures Valid() && Did(ParseAssignment(old(ahead)), r, ahead)
      decreases |ahead|, 6
    {
      hide ParseConditional, AssignOf;
      r := Conditional();
      if r.Exit? || AssignOf(cur).None? { return; }
      var lhs, op := r.value, AssignOf(cur).value;
      Advance();
      r := Assignment();
      if r.Got? { r := Got(Assign(op, lhs, r.value)); }
    }

    method Conditional() returns (r: Outcome<Expr>)
      requires Valid()
      modifies this
      ensures Valid() && Did(ParseConditional(old(ahead)), r, ahead)
      decreases |ahead|, 5
    {
      hide ParseBinary, ParseExpression;
      r := BinaryFrom(0);
      if r.Exit? || cur != Sym(Question) { return; }
      var cond := r.value;
      Advance();
      r := Expression();
      if r.Exit? { return; }
      var thn := r.value;
      var colon := Match(Sym(Colon));
      if !colon { return Exit(SyntaxError); }
      r := Conditional();
      if r.Got? { r := Got(Ast.Conditional(cond, thn, r.value)); }
    }

    method BinaryFrom(min: nat) returns (r: Outcome<Expr>)
      requires Valid()
      modifies this
      ensures Valid() && Did(ParseBinary(old(ahead), min), r, ahead)
      decreases |ahead|, 4
    {
      hide ParseUnary, Precedence, BinOf;
      r := UnaryOperand();
      if r.Exit? { return; }
      var lhs := r.value;
      while true
        invariant Valid() && |ahead| < |old(ahead)| && BinaryLoop(lhs, ahead, min) == ParseBinary(old(ahead), min)
        decreases |ahead|
      {
        var prec := Precedence(cur);
        if prec == 0 || prec < min { break; }
        BinaryTokens(cur);
        var op := BinOf(cur).value;
        Advance();
        r := BinaryFrom(prec + 1);
        if r.Exit? { return; }
        lhs := Binary(op, lhs, r.value);
      }
      r := Got(lhs);
    }

    method UnaryOperand() returns (r: Outcome<Expr>)
      requires Valid()
      modifies this
      ensures Valid() && Did(ParseUnary(old(ahead)), r, ahead)
      decreases |ahead|, 3
    {
      hide ParsePostfix, ParseExpression;
      if PrefixOf(cur).Some? {
        var op := PrefixOf(cur).value;
        Advance();
        r := UnaryOperand();
        if r.Got? { r := Got(Unary(op, r.value)); }
      } else if cur == Kw(KwSizeof) {
        Advance();
        if cur == Sym(LParen) {
          Advance();
          r := Expression();
          if r.Exit? { return; }
          var closed := Match(Sym(RParen));
          r := if closed then Got(SizeOf(r.value)) else Exit(SyntaxError);
        } else {
          r := UnaryOperand();
          if r.Got? { r := Got(SizeOf(r.value)); }
        }
      } else {
        r := PostfixChain();
      }
    }

    method PostfixChain() returns (r: Outcome<Expr>)
      requires Valid()
      modifies this
      ensures Valid() && Did(ParsePostfix(old(ahead)), r, ahead)
      decreases |ahead|, 2
    {
      hide ParsePrimary, PostfixStep;
      r := Primary();
      if r.Exit? { return; }
      var e := r.value;
      while true
        invariant Valid() && |ahead| < |old(ahead)| && PostfixLoop(e, ahead) == ParsePostfix(old(ahead))
        decreases |ahead|
      {
        var step := Suffix(e);
        if step.Exit? { return Exit(step.reason); }
        if step.value.None? { break; }
        e := step.value.value;
      }
      r := Got(e);
    }

    /** One turn of the suffix loop; `None` when the token in view starts no suffix. */
    method Suffix(e: Expr) returns (r: Outcome<Option<Expr>>)
      requires Valid()
      modifies this
      ensures Valid() && Did(PostfixStep(e, old(ahead)), r, ahead)
      ensures r == Got(None) ==> ahead == old(ahead)
      decreases |ahead|, 1
    {
      hide PostfixStep;
      StepKinds(e, ahead);
      if cur == Sym(LBracket) {
        r := IndexSuffix(e);
      } else if cur == Sym(LParen) {
        r := CallSuffix(e);
      } else if cur == Sym(Dot) || cur == Sym(Arrow) {
        var arrow := cur == Sym(Arrow);
        Advance();
        if !cur.Name? { return Exit(SyntaxError); }
        r := Got(Some(Member(e, cur.text, arrow)));
        Advance();
      } else if cur == Sym(PlusPlus) || cur == Sym(MinusMinus) {
        r := Got(Some(Postfix(cur == Sym(PlusPlus), e)));
        Advance();
      } else {
        r := Got(None);
      }
    }

    method IndexSuffix(e: Expr) returns (r: Outcome<Option<Expr>>)
      requires Valid() && cur == Sym(LBracket)
      modifies this
      ensures Valid() && r != Got(None) && Did(PostfixStep(e, old(ahead)), r, ahead)
      decreases |ahead|, 0
    {
      hide ParseExpression, ParseArguments;
      Advance();
      var i := Expression();
      if i.Exit? { return Exit(i.reason); }
      var closed := Match(Sym(RBracket));
      r := if closed then Got(Some(Index(e, i.value))) else Exit(SyntaxError);
    }

    method CallSuffix(e: Expr) returns (r: Outcome<Option<Expr>>)
      requires Valid() && cur == Sym(LParen)
      modifies this
      ensures Valid() && r != Got(None) && Did(PostfixStep(e, old(ahead)), r, ahead)
      decreases |ahead|, 0
    {
      hide ParseExpression, ParseArguments;
      Advance();
      var closed := Match(Sym(RParen));
      if closed { return Got(Some(Call(e, []))); }
      var args := Arguments();
      r := if args.Got? then Got(Some(Call(e, args.value))) else Exit(args.reason);
    }

    /** Arguments up to and including the closing parenthesis. */
    method Arguments() returns (r: Outcome<seq<Expr>>)
      requires Valid()
      modifies this
      ensures Valid() && Did(ParseArguments([], old(ahead)), r, ahead)
      decreases |ahead|, 7
    {
      hide ParseAssignment;
      var args: seq<Expr> := [];
      while true
        invariant Valid() && |ahead| <= |old(ahead)| && ParseArguments(args, ahead) == ParseArguments([], old(ahead))
        decreases |ahead|
      {
        var e := Assignment();
        if e.Exit? { return Exit(e.reason); }
        args := args + [e.value];
        var comma := Match(Sym(CommaSign));
        if !comma { break; }
      }
      var closed := Match(Sym(RParen));
      r := if closed then Got(args) else Exit(SyntaxError);
    }

    method Primary() returns (r: Outcome<Expr>)
      requires Valid()
      modifies this
      ensures Valid() && Did(ParsePrimary(old(ahead)), r, ahead)
      decreases |ahead|, 1
    {
      hide ParseExpression, LeafOf;
      if LeafOf(cur).Some? {
        r := Got(LeafOf(cur).value);
        Advance();
      } else if cur == Sym(LParen) {
        Advance();
        r := Expression();
        if r.Exit? { return; }
        var closed := Match(Sym(RParen));
        if !closed { r := Exit(SyntaxError); }
      } else {
        r := Exit(SyntaxError);
      }
    }

    // ----- statements -----

    method Statement() returns (r: Outcome<Stmt>)
      requires Valid()
      modifies this
      ensures Valid() && Did(ParseStatement(old(ahead)), r, ahead)
      decreases |ahead|, 5
    {
      hide ParseVarDecl, ParseItems, ParseKeyword, ParseExpression, StartsDecl;
      if StartsDecl(cur) { r := VariableDeclaration(); }
      else if StartsStatement(cur) { r := Keyworded(); }
      else if cur == Sym(LBrace) { r := Compound(); }
      else if cur == Sym(Semi) {
        Advance();
        r := Got(ExprStmt(None));
      } else if cur.Name? && peek == Sym(Colon) {
        var name := cur.text;
        Advance();
        Advance();
        r := Statement();
        if r.Got? { r := Got(Label(name, r.value)); }
      } else {
        var e := Expression();
        if e.Exit? { return Exit(e.reason); }
        r := Semicolon(ExprStmt(Some(e.value)));
      }
    }

    method Semicolon(s: Stmt) returns (r: Outcome<Stmt>)
      requires Valid()
      modifies this
      ensures Valid() && Did(Expect(Sym(Semi), s, old(ahead)), r, ahead)
    {
      var found := Match(Sym(Semi));
      r := if found then Got(s) else Exit(SyntaxError);
    }

    method Test() returns (r: Outcome<Expr>)
      requires Valid()
      modifies this
      ensures Valid() && Did(ParseTest(old(ahead)), r, ahead)
    {
      hide ParseExpression;
      var open := Match(Sym(LParen));
      if !open { return Exit(SyntaxError); }
      r := Expression();
      if r.Exit? { return; }
      var closed := Match(Sym(RParen));
      if !closed { r := Exit(SyntaxError); }
    }

    /** An expression unless `end` comes first, then `end`. */
    method OptionalUntil(end: Token) returns (r: Outcome<Option<Expr>>)
      requires Valid() && end != Eof
      modifies this
      ensures Valid() && Did(ParseOptional(end, old(ahead)), r, ahead)
    {
      hide ParseExpression;
      r := Got(None);
      if cur != end {
        var e := Expression();
        if e.Exit? { return Exit(e.reason); }
        r := Got(Some(e.value));
      }
      var found := Match(end);
      if !found { r := Exit(SyntaxError); }
    }

    method Keyworded() returns (r: Outcome<Stmt>)
      requires Valid() && StartsStatement(cur)
      modifies this
      ensures Valid() && Did(ParseKeyword(old(cur).kw, Rest(old(ahead))), r, ahead)
      decreases |ahead|, 4
    {
      hide ParseIf, ParseLoop, ParseDo, ParseFor, ParseCase, ParseDefault, ParseOptional;
      var kw := cur.kw;
      Advance();
      match kw
      case KwIf => r := IfStatement();
      case KwWhile => r := Loop(false);
      case KwSwitch => r := Loop(true);
      case KwDo => r := DoStatement();
      case KwFor => r := ForStatement();
      case KwCase => r := CaseStatement();
      case KwDefault => r := DefaultStatement();
      case KwBreak => r := Semicolon(Break);
      case KwContinue => r := Semicolon(Continue);
      case KwGoto =>
        if !cur.Name? { return Exit(SyntaxError); }
        var name := cur.text;
        Advance();
        r := Semicolon(Goto(name));
      case KwReturn =>
        var e := OptionalUntil(Sym(Semi));
        r := if e.Got? then Got(Return(e.value)) else Exit(e.reason);
    }

    method IfStatement() returns (r: Outcome<Stmt>)
      requires Valid()
      modifies this
      ensures Valid() && Did(ParseIf(old(ahead)), r, ahead)
      decreases |ahead|, 6
    {
      hide ParseTest, ParseStatement;
      var cond := Test();
      if cond.Exit? { return Exit(cond.reason); }
      r := Statement();
      if r.Exit? { return; }
      var thn := r.value;
      var found := Match(Kw(KwElse));
      if !found { return Got(If(cond.value, thn, None)); }
      r := Statement();
      if r.Got? { r := Got(If(cond.value, thn, Some(r.value))); }
    }

    method Loop(isSwitch: bool) returns (r: Outcome<Stmt>)
      requires Valid()
      modifies this
      ensures Valid() && Did(ParseLoop(isSwitch, old(ahead)), r, ahead)
      decreases |ahead|, 6
    {
      hide ParseTest, ParseStatement;
      var cond := Test();
      if cond.Exit? { return Exit(cond.reason); }
      r := Statement();
      if r.Got? { r := Got(if isSwitch then Switch(cond.value, r.value) else While(cond.value, r.value)); }
    }

    method DoStatement() returns (r: Outcome<Stmt>)
      requires Valid()
      modifies this
      ensures Valid() && Did(ParseDo(old(ahead)), r, ahead)
      decreases |ahead|, 6
    {
      hide ParseTest, ParseStatement;
      r := Statement();
      if r.Exit? { return; }
      var body := r.value;
      var found := Match(Kw(KwWhile));
      if !found { return Exit(SyntaxError); }
      var cond := Test();
      if cond.Exit? { return Exit(cond.reason); }
      r := Semicolon(Do(body, cond.value));
    }

    method ForStatement() returns (r: Outcome<Stmt>)
      requires Valid()
      modifies this
      ensures Valid() && Did(ParseFor(old(ahead)), r, ahead)
      decreases |ahead|, 6
    {
      hide ParseOptional, ParseStatement;
      var open := Match(Sym(LParen));
      if !open { return Exit(SyntaxError); }
      var init := OptionalUntil(Sym(Semi));
      if init.Exit? { return Exit(init.reason); }
      var test := OptionalUntil(Sym(Semi));
      if test.Exit? { return Exit(test.reason); }
      var post := OptionalUntil(Sym(RParen));
      if post.Exit? { return Exit(post.reason); }
      r := Statement();
      if r.Got? { r := Got(For(init.value, test.value, post.value, r.value)); }
    }

    method CaseStatement() returns (r: Outcome<Stmt>)
      requires Valid()
      modifies this
      ensures Valid() && Did(ParseCase(old(ahead)), r, ahead)
      decreases |ahead|, 6
    {
      hide ParseConditional, ParseStatement;
      var e := Conditional();
      if e.Exit? { return Exit(e.reason); }
      var found := Match(Sym(Colon));
      if !found { return Exit(SyntaxError); }
      r := Statement();
      if r.Got? { r := Got(Case(e.value, r.value)); }
    }

    method DefaultStatement() returns (r: Outcome<Stmt>)
      requires Valid()
      modifies this
      ensures Valid() && Did(ParseDefault(old(ahead)), r, ahead)
      decreases |ahead|, 6
    {
      hide ParseStatement;
      var found := Match(Sym(Colon));
      if !found { return Exit(SyntaxError); }
      r := Statement();
      if r.Got? { r := Got(Default(r.value)); }
    }

    method Compound() returns (r: Outcome<Stmt>)
      requires Valid() && cur == Sym(LBrace)
      modifies this
      ensures Valid() && Did(ParseItems([], Rest(old(ahead))), r, ahead)
      decreases |ahead|, 4
    {
      hide ParseStatement;
      Advance();
      var stmts: seq<Stmt> := [];
      while cur != Sym(RBrace) && cur != Eof
        invariant Valid() && |ahead| < |old(ahead)|
        invariant ParseItems(stmts, ahead) == ParseItems([], Rest(old(ahead)))
        decreases |ahead|
      {
        r := Statement();
        if r.Exit? { return; }
        stmts := stmts + [r.value];
      }
      var closed := Match(Sym(RBrace));
      r := if closed then Got(Block(stmts)) else Exit(SyntaxError);
    }

    // ----- declarations -----

    /** Remembers which specifiers were seen and chooses the type at the end. */
    method DeclSpecifiers() returns (ct: CType)
      requires Valid()
      modifies this
      ensures Valid() && ahead == Specifiers(old(ahead)).1 && ct == SpecifiedType(Specifiers(old(ahead)).0)
    {
      hide TypeKeyword, SpecifiedType;
      var saw: set<Keyword> := {};
      ghost var specs: seq<Keyword> := [];
      assert [] + Specifiers(ahead).0 == Specifiers(ahead).0;
      while TypeKeyword(cur)
        invariant Valid() && |ahead| <= |old(ahead)|
        invariant Specifiers(ahead).1 == Specifiers(old(ahead)).1
        invariant specs + Specifiers(ahead).0 == Specifiers(old(ahead)).0
        invariant forall k :: k in saw <==> k in specs
        decreases |ahead|
      {
        TypeIsKeyword(cur);
        var kw := cur.kw;
        assert (specs + [kw]) + Specifiers(Rest(ahead)).0 == specs + ([kw] + Specifiers(Rest(ahead)).0);
        Advance();
        specs := specs + [kw];
        saw := saw + {kw};
      }
      assert specs + [] == specs;
      ct := TypeOfFlags(saw);
      FlagsSuffice(saw, specs);
    }

    method VariableDeclaration() returns (r: Outcome<Stmt>)
      requires Valid() && StartsDecl(cur)
      modifies this
      ensures Valid() && Did(ParseVarDecl(old(ahead)), r, ahead)
    {
      hide Specifiers, SpecifiedType, ParseDeclarator, TypeKeyword;
      var ct := DeclSpecifiers();
      ghost var start := ahead;
      var ds: seq<Stmt> := [];
      while true
        invariant Valid() && |ahead| <= |start|
        invariant ParseDeclarators(ct, ds, ahead) == ParseDeclarators(ct, [], start)
        decreases |ahead|
      {
        r := OneDeclarator(ct);
        if r.Exit? { return; }
        ds := ds + [r.value];
        var comma := Match(Sym(CommaSign));
        if !comma { break; }
      }
      r := Semicolon(if |ds| == 1 then ds[0] else Block(ds));
    }

    method OneDeclarator(ct: CType) returns (r: Outcome<Stmt>)
      requires Valid()
      modifies this
      ensures Valid() && Did(ParseDeclarator(ct, old(ahead)), r, ahead)
    {
      hide ParseAssignment;
      if !cur.Name? { return Exit(SyntaxError); }
      var name := cur.text;
      Advance();
      if cur == Sym(Star) || cur == Sym(LBracket) { return Exit(NotModelled); }
      var initialised := Match(Sym(EqSign));
      if !initialised { return Got(VarDecl(name, ct, None)); }
      var e := Assignment();
      r := if e.Got? then Got(VarDecl(name, ct, Some(e.value))) else Exit(e.reason);
    }

    method FunctionDefinition() returns (r: Outcome<Func>)
      requires Valid()
      modifies this
      ensures Valid() && Did(ParseFunction(old(ahead)), r, ahead)
    {
      hide Specifiers, SpecifiedType, ParseParams, ParseItems;
      var result := DeclSpecifiers();
      if !cur.Name? || peek != Sym(LParen) { return Exit(NotModelled); }
      var name := cur.text;
      Advance();
      Advance();
      var params := ParamList();
      if params.Exit? { return Exit(params.reason); }
      if cur != Sym(LBrace) { return Exit(NotModelled); }
      var body := Compound();
      r := if body.Got? then Got(Func(name, result, params.value, body.value.stmts)) else Exit(body.reason);
    }

    /** Definitions until the end of the file. */
    method TranslationUnit() returns (r: Outcome<seq<Func>>)
      requires Valid()
      modifies this
      ensures Valid() && Did(ParseUnit([], old(ahead)), r, ahead)
    {
      hide ParseFunction;
      var fs: seq<Func> := [];
      while cur != Eof
        invariant Valid() && ParseUnit(fs, ahead) == ParseUnit([], old(ahead))
        decreases |ahead|
      {
        var f := FunctionDefinition();
        if f.Exit? { return Exit(f.reason); }
        fs := fs + [f.value];
      }
      r := Got(fs);
    }

    method ParamList() returns (r: Outcome<seq<Param>>)
      requires Valid()
      modifies this
      ensures Valid() && Did(ParseParams(old(ahead)), r, ahead)
    {
      hide Specifiers, SpecifiedType;
      var closed := Match(Sym(RParen));
      if closed { return Got([]); }
      if cur == Kw(KwVoid) && peek == Sym(RParen) {
        Advance();
        Advance();
        return Got([]);
      }
      var params: seq<Param> := [];
      while true
        invariant Valid() && |ahead| <= |old(ahead)| && ParamLoop(params, ahead) == ParamLoop([], old(ahead))
        decreases |ahead|
      {
        var ct := DeclSpecifiers();
        if !cur.Name? || peek == Sym(LBracket) || peek == Sym(LParen) { return Exit(NotModelled); }
        params := params + [Param(cur.text, ct)];
        Advance();
        var comma := Match(Sym(CommaSign));
        if !comma { break; }
      }
      closed := Match(Sym(RParen));
      r := if closed then Got(params) else Exit(SyntaxError);
    }
  }
}
