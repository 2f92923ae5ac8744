/** The expression parser accepts exactly the expressions of the grammar and returns their trees. */
module ExprGrammar {
  import opened Options
  import opened Ast
  import opened Tokens
  import opened Parsing
  import opened Grammar

  lemma ConsCur(ts: seq<Token>)
    requires ts != []
    ensures Cons(Cur(ts), Rest(ts)) == ts
  {
  }

  /** What follows does not depend on, and is not part of, the expression in front. */
  lemma {:induction false} FirstIsCur(c: Cst, rest: seq<Token>)
    ensures Cur(Put(c, rest)) == First(c)
    decreases c
  {
    match c
    case Idx(b, i) => FirstIsCur(b, Cons(Sym(LBracket), Put(i, Cons(Sym(RBracket), rest))));
    case App(f, args) => FirstIsCur(f, Cons(Sym(LParen), PutArgs(args, rest)));
    case Mem(b, n, arrow) => FirstIsCur(b, Cons(Sym(if arrow then Arrow else Dot), Cons(Name(n), rest)));
    case Pst(e, inc) => FirstIsCur(e, Cons(Sym(if inc then PlusPlus else MinusMinus), rest));
    case Bin(op, l, r) => FirstIsCur(l, Cons(BinToken(op), Put(r, rest)));
    case Cnd(x, a, b) => FirstIsCur(x, Cons(Sym(Question), Put(a, Cons(Sym(Colon), Put(b, rest)))));
    case Asg(op, l, r) => FirstIsCur(l, Cons(AssignToken(op), Put(r, rest)));
    case Com(l, r) => FirstIsCur(l, Cons(Sym(CommaSign), Put(r, rest)));
    case _ =>
  }

  /** An expression starts with a name, a literal, a parenthesis, a prefix operator or `sizeof`. */
  lemma {:induction false} FirstOf(c: Cst)
    requires WellFormed(c)
    ensures Level(c) >= 14 ==> LeafOf(First(c)).Some? || First(c) == Sym(LParen)
    ensures LeafOf(First(c)).Some? || First(c) in {Sym(LParen), Kw(KwSizeof)} || PrefixOf(First(c)).Some?
    decreases c
  {
    match c
    case Leaf(_) =>
    case Paren(_) =>
    case Idx(b, _) => FirstOf(b);
    case App(f, _) => FirstOf(f);
    case Mem(b, _, _) => FirstOf(b);
    case Pst(e, _) => FirstOf(e);
    case Pre(op, _) => PrefixTokens(First(c), op);
    case Siz(_) =>
    case SizParen(_) =>
    case Bin(op, l, _) => FirstOf(l); OperatorTokens(op);
    case Cnd(x, _, _) => FirstOf(x);
    case Asg(_, l, _) => FirstOf(l);
    case Com(l, _) => FirstOf(l);
  }

  // ----- the parser's table is the order of the productions -----

  /** The precedence the parser gives an operator is that of its production. */
  lemma OperatorPrecedence(op: BinOp)
    ensures 2 + Precedence(BinToken(op)) == Production(op) && 3 <= Production(op) <= 12
    ensures Extends(BinToken(op)) == Production(op)
  {
  }

  /** For every token, the parser's tests agree with what the grammar says the token continues. */
  lemma TokenPrecedence(t: Token)
    ensures Precedence(t) > 0 ==> Extends(t) == 2 + Precedence(t)
    ensures Precedence(t) > 0 <==> 3 <= Extends(t) <= 12
    ensures AssignOf(t).Some? <==> Extends(t) == 1
    ensures t == Sym(CommaSign) <==> Extends(t) == 0
    ensures t == Sym(Question) <==> Extends(t) == 2
    ensures t in {Sym(LBracket), Sym(LParen), Sym(Dot), Sym(Arrow), Sym(PlusPlus), Sym(MinusMinus)}
      <==> Extends(t) == 14
    ensures t in {Sym(RParen), Sym(RBracket), Sym(Colon), Sym(Semi)} ==> Extends(t) == -1
  {
  }

  // ----- every expression of the grammar is parsed to its tree -----

  lemma {:induction false} PrimaryComplete(c: Cst, rest: seq<Token>)
    requires WellFormed(c) && Level(c) >= 15
    ensures ParsePrimary(Put(c, rest)) == Ok(Erase(c), rest)
    decreases c, 0
  {
    hide ParseExpression, Extends, First, PutArgs, EraseArgs, WellFormedArgs, BinToken, AssignToken, PrefixToken;
    if c.Paren? {
      ClosingEnds(rest);
      ExpressionComplete(c.e, Cons(Sym(RParen), rest));
    }
  }

  lemma ClosingEnds(rest: seq<Token>)
    ensures Extends(Cur(Cons(Sym(RParen), rest))) < 0
  {
  }

  lemma {:induction false} PostfixComplete(c: Cst, rest: seq<Token>)
    requires WellFormed(c) && Level(c) >= 14
    ensures ParsePostfix(Put(c, rest)) == PostfixLoop(Erase(c), rest)
    decreases c, 1
  {
    hide ParseExpression, ParseAssignment, ParsePrimary, ParseArguments, LeafOf, PostfixStep;
    if c.Idx? {
      var more := Cons(Sym(LBracket), Put(c.index, Cons(Sym(RBracket), rest)));
      PostfixComplete(c.base, more);
      IndexComplete(Erase(c.base), c.index, rest);
    } else if c.App? {
      var more := Cons(Sym(LParen), PutArgs(c.args, rest));
      PostfixComplete(c.callee, more);
      CallComplete(Erase(c.callee), c.args, rest);
    } else if c.Mem? {
      var more := Cons(Sym(if c.arrow then Arrow else Dot), Cons(Name(c.field), rest));
      PostfixComplete(c.base, more);
      MemberComplete(Erase(c.base), c.field, c.arrow, rest);
    } else if c.Pst? {
      PostfixComplete(c.e, Cons(Sym(if c.inc then PlusPlus else MinusMinus), rest));
      StepComplete(Erase(c.e), c.inc, rest);
    } else {
      PrimaryComplete(c, rest);
    }
  }

  lemma IndexComplete(e: Expr, i: Cst, rest: seq<Token>)
    requires WellFormed(i)
    ensures PostfixStep(e, Cons(Sym(LBracket), Put(i, Cons(Sym(RBracket), rest)))) == Ok(Some(Index(e, Erase(i))), rest)
    decreases i, 8
  {
    hide ParseExpression, ParseArguments, Erase, Put, WellFormed;
    ExpressionComplete(i, Cons(Sym(RBracket), rest));
  }

  lemma CallComplete(e: Expr, args: seq<Cst>, rest: seq<Token>)
    requires WellFormedArgs(args)
    ensures PostfixStep(e, Cons(Sym(LParen), PutArgs(args, rest))) == Ok(Some(Call(e, EraseArgs(args))), rest)
    decreases args, 6
  {
    hide ParseExpression, ParseArguments, Erase, Put, WellFormed;
    if args != [] {
      ArgumentsComplete([], args, rest);
      ArgumentsStart(args, rest);
      assert [] + EraseArgs(args) == EraseArgs(args);
    }
  }

  lemma MemberComplete(e: Expr, field: string, arrow: bool, rest: seq<Token>)
    ensures PostfixStep(e, Cons(Sym(if arrow then Arrow else Dot), Cons(Name(field), rest)))
         == Ok(Some(Member(e, field, arrow)), rest)
  {
    hide ParseExpression, ParseArguments;
  }

  lemma StepComplete(e: Expr, inc: bool, rest: seq<Token>)
    ensures PostfixStep(e, Cons(Sym(if inc then PlusPlus else MinusMinus), rest)) == Ok(Some(Postfix(inc, e)), rest)
  {
    hide ParseExpression, ParseArguments;
  }

  lemma ArgumentsStart(args: seq<Cst>, rest: seq<Token>)
    requires WellFormedArgs(args) && args != []
    ensures Cur(PutArgs(args, rest)) != Sym(RParen)
  {
    FirstOf(args[0]);
    FirstIsCur(args[0],
      if |args| == 1 then Cons(Sym(RParen), rest) else Cons(Sym(CommaSign), PutArgs(args[1..], rest)));
  }

  lemma {:induction false} ArgumentsComplete(acc: seq<Expr>, args: seq<Cst>, rest: seq<Token>)
    requires WellFormedArgs(args) && args != []
    ensures ParseArguments(acc, PutArgs(args, rest)) == Ok(acc + EraseArgs(args), rest)
    decreases args, 5
  {
    hide ParseAssignment, Extends, Level, Put, Erase, WellFormed;
    TokenPrecedence(Sym(RParen));
    TokenPrecedence(Sym(CommaSign));
    var e := Erase(args[0]);
    if |args| == 1 {
      AssignmentComplete(args[0], Cons(Sym(RParen), rest));
      assert EraseArgs(args) == [e];
    } else {
      AssignmentComplete(args[0], Cons(Sym(CommaSign), PutArgs(args[1..], rest)));
      ArgumentsComplete(acc + [e], args[1..], rest);
      assert (acc + [e]) + EraseArgs(args[1..]) == acc + EraseArgs(args);
    }
  }

  lemma {:induction false} UnaryComplete(c: Cst, rest: seq<Token>)
    requires WellFormed(c) && Level(c) >= 13 && Extends(Cur(rest)) < 13
    ensures ParseUnary(Put(c, rest)) == Ok(Erase(c), rest)
    decreases c, 2
  {
    hide ParseExpression, ParsePostfix, PostfixLoop, LeafOf;
    if c.Pre? {
      PrefixTokens(First(c), c.uop);
      UnaryComplete(c.e, rest);
    } else if c.Siz? {
      UnaryComplete(c.e, rest);
      FirstIsCur(c.e, rest);
    } else if c.SizParen? {
      ExpressionComplete(c.e, Cons(Sym(RParen), rest));
    } else {
      LevelOf(c);
      OperandFirst(c, rest);
      PostfixComplete(c, rest);
      PostfixStops(Erase(c), rest);
    }
  }

  /** The level of an expression tells its construct apart. */
  lemma LevelOf(c: Cst)
    ensures !c.Com? ==> Level(c) >= 1
    ensures !c.Com? && !c.Asg? ==> Level(c) >= 2
    ensures !c.Com? && !c.Asg? && !c.Cnd? ==> Level(c) >= 3
    ensures c.Bin? ==> Level(c) <= 12
  {
    if c.Bin? { OperatorPrecedence(c.bop); }
  }

  lemma OperandFirst(c: Cst, rest: seq<Token>)
    requires WellFormed(c) && Level(c) >= 14
    ensures PrefixOf(Cur(Put(c, rest))).None? && Cur(Put(c, rest)) != Kw(KwSizeof)
  {
    FirstIsCur(c, rest);
    FirstOf(c);
  }

  lemma PostfixStops(e: Expr, rest: seq<Token>)
    requires Extends(Cur(rest)) < 13
    ensures PostfixLoop(e, rest) == Ok(e, rest)
  {
    hide ParseExpression, ParseArguments, Extends;
    TokenPrecedence(Cur(rest));
  }

  lemma BinaryStops(e: Expr, rest: seq<Token>, min: nat)
    requires Precedence(Cur(rest)) == 0 || Precedence(Cur(rest)) < min
    ensures BinaryLoop(e, rest, min) == Ok(e, rest)
  {
  }

  lemma {:induction false} BinaryComplete(c: Cst, rest: seq<Token>, min: nat)
    requires WellFormed(c) && Level(c) >= 3 && Level(c) >= 2 + min
    requires Extends(Cur(rest)) < 13 && Extends(Cur(rest)) <= Level(c)
    ensures ParseBinary(Put(c, rest), min) == BinaryLoop(Erase(c), rest, min)
    decreases c, 3
  {
    hide ParseUnary, BinaryLoop, Extends, Erase, Put;
    if c.Bin? {
      hide ParseBinary;
      OperatorComplete(c, rest, min);
    } else {
      UnaryComplete(c, rest);
    }
  }

  /** The case of an operator: its operands are parsed up to it and behind it. */
  lemma {:induction false} OperatorComplete(c: Cst, rest: seq<Token>, min: nat)
    requires c.Bin? && WellFormed(c) && Level(c) >= 2 + min && Extends(Cur(rest)) <= Level(c)
    ensures ParseBinary(Put(c, rest), min) == BinaryLoop(Erase(c), rest, min)
    decreases c, 2
  {
    hide ParseBinary, BinaryLoop, Precedence, Production, Extends, BinToken, BinOf;
    OperatorPrecedence(c.bop);
    OperatorTokens(c.bop);
    var p := Precedence(BinToken(c.bop));
    var more := Cons(BinToken(c.bop), Put(c.r, rest));
    BinaryComplete(c.l, more, min);
    BinaryComplete(c.r, rest, p + 1);
    PrecedenceBelow(rest, p + 1);
    BinaryStops(Erase(c.r), rest, p + 1);
    BinaryContinues(Erase(c.l), more, min);
  }

  lemma PrecedenceBelow(rest: seq<Token>, min: nat)
    requires Extends(Cur(rest)) < 2 + min
    ensures Precedence(Cur(rest)) == 0 || Precedence(Cur(rest)) < min
  {
    hide Extends, Precedence;
    TokenPrecedence(Cur(rest));
  }

  /** One turn of the loop. */
  lemma BinaryContinues(l: Expr, ts: seq<Token>, min: nat)
    requires BinOf(Cur(ts)).Some? && Precedence(Cur(ts)) > 0 && Precedence(Cur(ts)) >= min
    requires ParseBinary(Rest(ts), Precedence(Cur(ts)) + 1).Ok?
    ensures var r := ParseBinary(Rest(ts), Precedence(Cur(ts)) + 1);
            BinaryLoop(l, ts, min) == BinaryLoop(Binary(BinOf(Cur(ts)).value, l, r.value), r.rest, min)
  {
    hide ParseBinary;
  }

  lemma {:induction false} ConditionalComplete(c: Cst, rest: seq<Token>)
    requires WellFormed(c) && Level(c) >= 2 && Extends(Cur(rest)) < 2
    ensures ParseConditional(Put(c, rest)) == Ok(Erase(c), rest)
    decreases c, 4
  {
    hide ParseBinary, ParseExpression, BinaryLoop, ConditionalTail, Extends, Precedence;
    ConditionalStops(Erase(c), rest);
    if c.Cnd? {
      var after := Cons(Sym(Colon), Put(c.b, rest));
      var more := Cons(Sym(Question), Put(c.a, after));
      QuestionStops();
      BinaryComplete(c.c, more, 0);
      BinaryStops(Erase(c.c), more, 0);
      ExpressionComplete(c.a, after);
      ConditionalComplete(c.b, rest);
      ConditionalTurn(Erase(c.c), c.a, c.b, rest);
    } else {
      LevelOf(c);
      BinaryComplete(c, rest, 0);
      PrecedenceBelow(rest, 0);
      BinaryStops(Erase(c), rest, 0);
    }
  }

  lemma QuestionStops()
    ensures Extends(Sym(Question)) == 2 && Precedence(Sym(Question)) == 0 && Extends(Sym(Colon)) == -1
  {
  }

  lemma ConditionalStops(e: Expr, rest: seq<Token>)
    requires Extends(Cur(rest)) < 2
    ensures ConditionalTail(e, rest) == Ok(e, rest)
  {
    hide Extends;
    TokenPrecedence(Cur(rest));
  }

  lemma ConditionalTurn(e: Expr, a: Cst, b: Cst, rest: seq<Token>)
    requires WellFormed(a) && WellFormed(b)
    requires var after := Cons(Sym(Colon), Put(b, rest)); ParseExpression(Put(a, after)) == Ok(Erase(a), after)
    requires ParseConditional(Put(b, rest)) == Ok(Erase(b), rest)
    ensures ConditionalTail(e, Cons(Sym(Question), Put(a, Cons(Sym(Colon), Put(b, rest)))))
         == Ok(Conditional(e, Erase(a), Erase(b)), rest)
  {
    hide ParseConditional, ParseExpression, Put, Erase, WellFormed;
  }

  lemma {:induction false} AssignmentComplete(c: Cst, rest: seq<Token>)
    requires WellFormed(c) && Level(c) >= 1 && Extends(Cur(rest)) < 1
    ensures ParseAssignment(Put(c, rest)) == Ok(Erase(c), rest)
    decreases c, 5
  {
    hide ParseConditional;
    if c.Asg? {
      AssignTokens(AssignToken(c.aop), c.aop);
      ConditionalComplete(c.l, Cons(AssignToken(c.aop), Put(c.r, rest)));
      AssignmentComplete(c.r, rest);
    } else {
      LevelOf(c);
      ConditionalComplete(c, rest);
    }
  }

  lemma {:induction false} CommaComplete(c: Cst, rest: seq<Token>)
    requires WellFormed(c) && Extends(Cur(rest)) < 1
    ensures ParseExpression(Put(c, rest)) == CommaLoop(Erase(c), rest)
    decreases c, 6
  {
    hide ParseAssignment;
    if c.Com? {
      CommaComplete(c.l, Cons(Sym(CommaSign), Put(c.r, rest)));
      AssignmentComplete(c.r, rest);
    } else {
      LevelOf(c);
      AssignmentComplete(c, rest);
    }
  }

  /** Every expression of the grammar, in front of a token that does not continue it, is parsed to its tree. */
  lemma {:induction false} ExpressionComplete(c: Cst, rest: seq<Token>)
    requires WellFormed(c) && Extends(Cur(rest)) < 0
    ensures ParseExpression(Put(c, rest)) == Ok(Erase(c), rest)
    decreases c, 7
  {
    hide *;
    NoComma(rest);
    CommaComplete(c, rest);
    CommaEnds(Erase(c), rest);
  }

  lemma NoComma(ts: seq<Token>)
    ensures Extends(Cur(ts)) < 0 ==> Extends(Cur(ts)) < 1 && Cur(ts) != Sym(CommaSign)
  {
    hide Cur;
  }

  lemma CommaEnds(e: Expr, ts: seq<Token>)
    requires Cur(ts) != Sym(CommaSign)
    ensures CommaLoop(e, ts) == Ok(e, ts)
  {
    hide Cur, ParseAssignment;
  }

  // ----- every successful parse read an expression of the grammar -----

  /** `c` is a derivation, of level at least `k`, of what was read from `ts` up to `rest`. */
  ghost predicate Derives(c: Cst, k: nat, ts: seq<Token>, e: Expr, rest: seq<Token>) {
    WellFormed(c) && Level(c) >= k && Put(c, rest) == ts && Erase(c) == e
  }

  /** `Derives` for the result of a parse. */
  ghost predicate Derived(c: Cst, k: nat, ts: seq<Token>, r: Parsed<Expr>) {
    r.Ok? && Derives(c, k, ts, r.value, r.rest)
  }

  lemma {:induction false} PrimarySound(ts: seq<Token>) returns (c: Cst)
    requires ParsePrimary(ts).Ok?
    ensures Derived(c, 15, ts, ParsePrimary(ts))
    decreases |ts|, 1
  {
    hide ParseExpression;
    ConsCur(ts);
    if LeafOf(Cur(ts)).Some? {
      c := Leaf(Cur(ts));
    } else {
      var e := ExpressionSound(Rest(ts));
      c := Paren(e);
      ConsCur(ParseExpression(Rest(ts)).rest);
    }
  }

  lemma {:induction false} PostfixSound(ts: seq<Token>) returns (c: Cst)
    requires ParsePostfix(ts).Ok?
    ensures Derived(c, 14, ts, ParsePostfix(ts))
    decreases |ts|, 2
  {
    hide ParsePrimary, PostfixLoop;
    var b := PrimarySound(ts);
    c := PostfixLoopSound(b, ParsePrimary(ts).rest);
  }

  lemma {:induction false} PostfixLoopSound(b: Cst, ts: seq<Token>) returns (c: Cst)
    requires WellFormed(b) && Level(b) >= 14 && PostfixLoop(Erase(b), ts).Ok?
    ensures Derived(c, 14, Put(b, ts), PostfixLoop(Erase(b), ts))
    decreases |ts|, 1
  {
    hide PostfixStep, Put, Erase, WellFormed, Level;
    var step := PostfixStep(Erase(b), ts);
    if step.value.None? {
      c := b;
      NoStep(Erase(b), ts);
    } else {
      var d := PostfixStepSound(b, ts);
      c := PostfixLoopSound(d, step.rest);
    }
  }

  lemma NoStep(e: Expr, ts: seq<Token>)
    requires PostfixStep(e, ts).Ok? && PostfixStep(e, ts).value.None?
    ensures PostfixStep(e, ts).rest == ts
  {
    hide ParseExpression, ParseArguments;
  }

  lemma {:induction false} PostfixStepSound(b: Cst, ts: seq<Token>) returns (c: Cst)
    requires WellFormed(b) && Level(b) >= 14
    requires PostfixStep(Erase(b), ts).Ok? && PostfixStep(Erase(b), ts).value.Some?
    ensures Derives(c, 14, Put(b, ts), PostfixStep(Erase(b), ts).value.value, PostfixStep(Erase(b), ts).rest)
    decreases |ts|, 0, 1
  {
    hide PostfixStep;
    StepTokens(Erase(b), ts);
    if Cur(ts) == Sym(LBracket) {
      c := IndexSound(b, ts);
    } else if Cur(ts) == Sym(LParen) {
      c := CallSound(b, ts);
    } else if Cur(ts) == Sym(Dot) || Cur(ts) == Sym(Arrow) {
      c := MemberSound(b, ts);
    } else {
      c := CountSound(b, ts);
    }
  }

  lemma StepTokens(e: Expr, ts: seq<Token>)
    requires PostfixStep(e, ts).Ok? && PostfixStep(e, ts).value.Some?
    ensures Cur(ts) in {Sym(LBracket), Sym(LParen), Sym(Dot), Sym(Arrow), Sym(PlusPlus), Sym(MinusMinus)}
  {
    hide ParseExpression, ParseArguments;
  }

  lemma MemberSound(b: Cst, ts: seq<Token>) returns (c: Cst)
    requires WellFormed(b) && Level(b) >= 14 && Cur(ts) in {Sym(Dot), Sym(Arrow)} && PostfixStep(Erase(b), ts).Ok?
    ensures PostfixStep(Erase(b), ts).value.Some?
    ensures Derives(c, 14, Put(b, ts), PostfixStep(Erase(b), ts).value.value, PostfixStep(Erase(b), ts).rest)
  {
    hide Put, Erase, WellFormed, Level, Cons, Cur;
    MemberStep(Erase(b), ts);
    ConsCur(ts);
    ConsCur(Rest(ts));
    c := Mem(b, Cur(Rest(ts)).text, Cur(ts) == Sym(Arrow));
    SuffixShape(b, Cur(Rest(ts)).text, Cur(ts) == Sym(Arrow), PostfixStep(Erase(b), ts).rest);
  }

  lemma MemberStep(e: Expr, ts: seq<Token>)
    requires Cur(ts) in {Sym(Dot), Sym(Arrow)} && PostfixStep(e, ts).Ok?
    ensures Cur(Rest(ts)).Name?
    ensures PostfixStep(e, ts) == Ok(Some(Member(e, Cur(Rest(ts)).text, Cur(ts) == Sym(Arrow))), Rest(Rest(ts)))
  {
    hide Cur, ParseExpression, ParseArguments;
  }

  lemma CountStep(e: Expr, ts: seq<Token>)
    requires Cur(ts) in {Sym(PlusPlus), Sym(MinusMinus)}
    ensures PostfixStep(e, ts) == Ok(Some(Postfix(Cur(ts) == Sym(PlusPlus), e)), Rest(ts))
  {
    hide Cur, ParseExpression, ParseArguments;
  }

  /** A member access or a count after `b`. */
  lemma SuffixShape(b: Cst, name: string, flag: bool, rest: seq<Token>)
    requires WellFormed(b) && Level(b) >= 14
    ensures Derives(Mem(b, name, flag), 14, Put(b, Cons(Sym(if flag then Arrow else Dot), Cons(Name(name), rest))),
      Member(Erase(b), name, flag), rest)
    ensures Derives(Pst(b, flag), 14, Put(b, Cons(Sym(if flag then PlusPlus else MinusMinus), rest)),
      Postfix(flag, Erase(b)), rest)
  {
    hide Put, Erase, WellFormed, Level;
    SuffixPut(b, name, flag, rest);
    SuffixErase(b, name, flag);
  }

  lemma SuffixPut(b: Cst, name: string, flag: bool, rest: seq<Token>)
    ensures Put(Mem(b, name, flag), rest) == Put(b, Cons(Sym(if flag then Arrow else Dot), Cons(Name(name), rest)))
    ensures Put(Pst(b, flag), rest) == Put(b, Cons(Sym(if flag then PlusPlus else MinusMinus), rest))
  {
    hide PutArgs, BinToken, AssignToken, PrefixToken, Cons;
  }

  lemma SuffixErase(b: Cst, name: string, flag: bool)
    requires WellFormed(b) && Level(b) >= 14
    ensures WellFormed(Mem(b, name, flag)) && Level(Mem(b, name, flag)) == 14 && WellFormed(Pst(b, flag))
      && Level(Pst(b, flag)) == 14
    ensures Erase(Mem(b, name, flag)) == Member(Erase(b), name, flag) && Erase(Pst(b, flag)) == Postfix(flag, Erase(b))
  {
    hide LeafOf, WellFormedArgs, EraseArgs, First, Production;
  }

  lemma CountSound(b: Cst, ts: seq<Token>) returns (c: Cst)
    requires WellFormed(b) && Level(b) >= 14 && Cur(ts) in {Sym(PlusPlus), Sym(MinusMinus)}
    ensures PostfixStep(Erase(b), ts).Ok? && PostfixStep(Erase(b), ts).value.Some?
    ensures Derives(c, 14, Put(b, ts), PostfixStep(Erase(b), ts).value.value, PostfixStep(Erase(b), ts).rest)
  {
    hide Put, Erase, WellFormed, Level, Cons, Cur;
    CountStep(Erase(b), ts);
    ConsCur(ts);
    c := Pst(b, Cur(ts) == Sym(PlusPlus));
    SuffixShape(b, "", Cur(ts) == Sym(PlusPlus), Rest(ts));
  }

  lemma {:induction false} IndexSound(b: Cst, ts: seq<Token>) returns (c: Cst)
    requires WellFormed(b) && Level(b) >= 14 && Cur(ts) == Sym(LBracket) && PostfixStep(Erase(b), ts).Ok?
    ensures PostfixStep(Erase(b), ts).value.Some?
    ensures Derives(c, 14, Put(b, ts), PostfixStep(Erase(b), ts).value.value, PostfixStep(Erase(b), ts).rest)
    decreases |ts|, 0, 0
  {
    hide ParseExpression, ParseArguments, LeafOf, AssignOf, Precedence;
    var i := ExpressionSound(Rest(ts));
    c := Idx(b, i);
    ConsCur(ts);
    ConsCur(ParseExpression(Rest(ts)).rest);
  }

  lemma {:induction false} CallSound(b: Cst, ts: seq<Token>) returns (c: Cst)
    requires WellFormed(b) && Level(b) >= 14 && Cur(ts) == Sym(LParen) && PostfixStep(Erase(b), ts).Ok?
    ensures PostfixStep(Erase(b), ts).value.Some?
    ensures Derives(c, 14, Put(b, ts), PostfixStep(Erase(b), ts).value.value, PostfixStep(Erase(b), ts).rest)
    decreases |ts|, 0, 0
  {
    hide ParseExpression, ParseArguments, WellFormed, WellFormedArgs, Level, Put, PutArgs, Erase, EraseArgs;
    ConsCur(ts);
    var args: seq<Cst> := [];
    if Cur(Rest(ts)) == Sym(RParen) {
      ConsCur(Rest(ts));
      NoArguments(Rest(Rest(ts)));
    } else {
      args := ArgumentsSound([], Rest(ts));
      assert [] + EraseArgs(args) == EraseArgs(args);
    }
    c := App(b, args);
    MakeCall(b, args, PostfixStep(Erase(b), ts).rest);
  }

  lemma NoArguments(rest: seq<Token>)
    ensures WellFormedArgs([]) && EraseArgs([]) == [] && PutArgs([], rest) == Cons(Sym(RParen), rest)
  {
  }

  lemma MakeCall(f: Cst, args: seq<Cst>, rest: seq<Token>)
    requires WellFormed(f) && Level(f) >= 14 && WellFormedArgs(args)
    ensures WellFormed(App(f, args)) && Level(App(f, args)) == 14
    ensures Erase(App(f, args)) == Call(Erase(f), EraseArgs(args))
    ensures Put(App(f, args), rest) == Put(f, Cons(Sym(LParen), PutArgs(args, rest)))
  {
  }

  lemma {:induction false} ArgumentsSound(acc: seq<Expr>, ts: seq<Token>) returns (args: seq<Cst>)
    requires ParseArguments(acc, ts).Ok?
    ensures args != [] && WellFormedArgs(args)
    ensures var r := ParseArguments(acc, ts); PutArgs(args, r.rest) == ts && acc + EraseArgs(args) == r.value
    decreases |ts|, 7
  {
    hide ParseAssignment, WellFormed, WellFormedArgs, Put, PutArgs, Erase, EraseArgs, Level;
    var a := AssignmentSound(ts);
    var r := ParseAssignment(ts);
    ConsCur(r.rest);
    if Cur(r.rest) == Sym(CommaSign) {
      var more := ArgumentsSound(acc + [r.value], Rest(r.rest));
      args := [a] + more;
      MoreArguments(a, more, ParseArguments(acc, ts).rest);
      assert acc + ([r.value] + EraseArgs(more)) == (acc + [r.value]) + EraseArgs(more);
    } else {
      args := [a];
      OneArgument(a, Rest(r.rest));
    }
  }

  lemma OneArgument(a: Cst, rest: seq<Token>)
    requires WellFormed(a) && Level(a) >= 1
    ensures WellFormedArgs([a]) && EraseArgs([a]) == [Erase(a)] && PutArgs([a], rest) == Put(a, Cons(Sym(RParen), rest))
  {
    hide WellFormed, Put, Erase, Level;
  }

  lemma MoreArguments(a: Cst, more: seq<Cst>, rest: seq<Token>)
    requires WellFormed(a) && Level(a) >= 1 && more != [] && WellFormedArgs(more)
    ensures WellFormedArgs([a] + more) && EraseArgs([a] + more) == [Erase(a)] + EraseArgs(more)
    ensures PutArgs([a] + more, rest) == Put(a, Cons(Sym(CommaSign), PutArgs(more, rest)))
  {
    hide WellFormed, Put, Erase, Level;
    assert ([a] + more)[1..] == more;
  }

  lemma {:induction false} UnarySound(ts: seq<Token>) returns (c: Cst)
    requires ParseUnary(ts).Ok?
    ensures Derived(c, 13, ts, ParseUnary(ts))
    decreases |ts|, 3
  {
    hide ParsePostfix, ParseSizeof;
    ConsCur(ts);
    if PrefixOf(Cur(ts)).Some? {
      PrefixTokens(Cur(ts), Plus);
      var e := UnarySound(Rest(ts));
      c := Pre(PrefixOf(Cur(ts)).value, e);
    } else if Cur(ts) == Kw(KwSizeof) {
      c := SizeofSound(Rest(ts));
    } else {
      c := PostfixSound(ts);
    }
  }

  lemma {:induction false} SizeofSound(ts: seq<Token>) returns (c: Cst)
    requires ParseSizeof(ts).Ok?
    ensures Derived(c, 13, Cons(Kw(KwSizeof), ts), ParseSizeof(ts))
    decreases |ts|, 4
  {
    hide ParseExpression, ParseUnary, WellFormed, Put, Erase, Level, First;
    if Cur(ts) == Sym(LParen) {
      ConsCur(ts);
      var e := ExpressionSound(Rest(ts));
      ConsCur(ParseExpression(Rest(ts)).rest);
      c := SizParen(e);
      MakeSizeof(e, Rest(ParseExpression(Rest(ts)).rest));
    } else {
      var e := UnarySound(ts);
      FirstIsCur(e, ParseUnary(ts).rest);
      c := Siz(e);
      MakeSizeof(e, ParseUnary(ts).rest);
    }
  }

  lemma MakeSizeof(e: Cst, rest: seq<Token>)
    requires WellFormed(e)
    ensures WellFormed(SizParen(e)) && Level(SizParen(e)) == 13 && Erase(SizParen(e)) == SizeOf(Erase(e))
    ensures Put(SizParen(e), rest) == Cons(Kw(KwSizeof), Cons(Sym(LParen), Put(e, Cons(Sym(RParen), rest))))
    ensures Level(Siz(e)) == 13 && Put(Siz(e), rest) == Cons(Kw(KwSizeof), Put(e, rest))
    ensures Level(e) >= 13 && First(e) != Sym(LParen) ==> WellFormed(Siz(e)) && Erase(Siz(e)) == SizeOf(Erase(e))
  {
    hide Put, LeafOf, WellFormedArgs, EraseArgs, First, Production;
    SizeofPut(e, rest);
  }

  lemma SizeofPut(e: Cst, rest: seq<Token>)
    ensures Put(SizParen(e), rest) == Cons(Kw(KwSizeof), Cons(Sym(LParen), Put(e, Cons(Sym(RParen), rest))))
    ensures Put(Siz(e), rest) == Cons(Kw(KwSizeof), Put(e, rest))
  {
    hide PutArgs, BinToken, AssignToken, PrefixToken, Cons;
  }

  /** The operator after an operand binds less tightly than the operand asked for. */
  ghost predicate Below(ts: seq<Token>, min: nat) { Precedence(Cur(ts)) == 0 || Precedence(Cur(ts)) < min }

  lemma {:induction false} BinarySound(ts: seq<Token>, min: nat) returns (c: Cst)
    requires ParseBinary(ts, min).Ok? && min <= 11
    ensures Derived(c, if min == 0 then 3 else 2 + min, ts, ParseBinary(ts, min))
      && Below(ParseBinary(ts, min).rest, min)
    decreases |ts|, 4
  {
    hide ParseUnary, BinaryLoop, Precedence;
    var l := UnarySound(ts);
    PrecedenceBound(Cur(ParseUnary(ts).rest));
    c := BinaryLoopSound(l, ParseUnary(ts).rest, min);
  }

  lemma PrecedenceBound(t: Token)
    ensures Precedence(t) <= 10 && (Precedence(t) == 0 <==> BinOf(t).None?)
    ensures BinOf(t).Some? ==> BinToken(BinOf(t).value) == t
  {
    BinaryTokens(t);
  }

  lemma {:induction false} BinaryLoopSound(l: Cst, ts: seq<Token>, min: nat) returns (c: Cst)
    requires WellFormed(l) && BinaryLoop(Erase(l), ts, min).Ok? && min <= 11
    requires Level(l) >= 3 && Level(l) >= 2 + min && Level(l) >= 2 + Precedence(Cur(ts))
    ensures Derived(c, if min == 0 then 3 else 2 + min, Put(l, ts), BinaryLoop(Erase(l), ts, min))
    ensures Below(BinaryLoop(Erase(l), ts, min).rest, min)
    decreases |ts|, 0
  {
    hide ParseBinary, Precedence, BinOf, BinToken, Production, AssignOf, LeafOf;
    var p := Precedence(Cur(ts));
    PrecedenceBound(Cur(ts));
    if p == 0 || p < min {
      c := l;
    } else {
      ConsCur(ts);
      var r := BinarySound(Rest(ts), p + 1);
      var rest := ParseBinary(Rest(ts), p + 1).rest;
      var op := BinOf(Cur(ts)).value;
      OperatorPrecedence(op);
      c := BinaryLoopSound(Bin(op, l, r), rest, min);
    }
  }

  lemma {:induction false} ConditionalSound(ts: seq<Token>) returns (c: Cst)
    requires ParseConditional(ts).Ok?
    ensures Derived(c, 2, ts, ParseConditional(ts))
    decreases |ts|, 5
  {
    hide ParseBinary, ConditionalTail;
    var x := BinarySound(ts, 0);
    c := ConditionalTailSound(x, ParseBinary(ts, 0).rest);
  }

  lemma {:induction false} ConditionalTailSound(x: Cst, ts: seq<Token>) returns (c: Cst)
    requires WellFormed(x) && Level(x) >= 3 && ConditionalTail(Erase(x), ts).Ok?
    ensures Derived(c, 2, Put(x, ts), ConditionalTail(Erase(x), ts))
    decreases |ts|, 0
  {
    hide ParseConditional, ParseExpression, WellFormed, Level, Put, Erase;
    if Cur(ts) != Sym(Question) {
      c := x;
    } else {
      ConsCur(ts);
      var a := ExpressionSound(Rest(ts));
      var more := ParseExpression(Rest(ts)).rest;
      ConsCur(more);
      var b := ConditionalSound(Rest(more));
      c := Cnd(x, a, b);
      MakeConditional(x, a, b, ParseConditional(Rest(more)).rest);
    }
  }

  lemma MakeConditional(x: Cst, a: Cst, b: Cst, rest: seq<Token>)
    requires WellFormed(x) && Level(x) >= 3 && WellFormed(a) && WellFormed(b) && Level(b) >= 2
    ensures WellFormed(Cnd(x, a, b)) && Level(Cnd(x, a, b)) == 2
    ensures Erase(Cnd(x, a, b)) == Conditional(Erase(x), Erase(a), Erase(b))
    ensures Put(Cnd(x, a, b), rest) == Put(x, Cons(Sym(Question), Put(a, Cons(Sym(Colon), Put(b, rest)))))
  {
  }

  lemma {:induction false} AssignmentSound(ts: seq<Token>) returns (c: Cst)
    requires ParseAssignment(ts).Ok?
    ensures Derived(c, 1, ts, ParseAssignment(ts))
    decreases |ts|, 6
  {
    hide ParseConditional, Put, Erase, WellFormed, Level;
    var l := ConditionalSound(ts);
    var ts1 := ParseConditional(ts).rest;
    if AssignOf(Cur(ts1)).None? {
      c := l;
    } else {
      ConsCur(ts1);
      AssignTokens(Cur(ts1), None);
      var r := AssignmentSound(Rest(ts1));
      c := Asg(AssignOf(Cur(ts1)).value, l, r);
      MakePair(c, ParseAssignment(Rest(ts1)).rest);
    }
  }

  /** An assignment or a comma expression, from its two sides. */
  lemma MakePair(c: Cst, rest: seq<Token>)
    requires c.Asg? || c.Com?
    requires WellFormed(c.l) && WellFormed(c.r) && Level(c.r) >= 1 && (c.Asg? ==> Level(c.l) >= 2)
    ensures WellFormed(c) && Level(c) == if c.Asg? then 1 else 0
    ensures Erase(c) == if c.Asg? then Assign(c.aop, Erase(c.l), Erase(c.r)) else Comma(Erase(c.l), Erase(c.r))
    ensures Put(c, rest) == Put(c.l, Cons(if c.Asg? then AssignToken(c.aop) else Sym(CommaSign), Put(c.r, rest)))
  {
    hide Put, LeafOf, WellFormedArgs, EraseArgs, First, Production;
    PairPut(c, rest);
  }

  lemma PairPut(c: Cst, rest: seq<Token>)
    requires c.Asg? || c.Com?
    ensures Put(c, rest) == Put(c.l, Cons(if c.Asg? then AssignToken(c.aop) else Sym(CommaSign), Put(c.r, rest)))
  {
    hide PutArgs, BinToken, AssignToken, PrefixToken, Cons;
  }

  lemma {:induction false} CommaSound(l: Cst, ts: seq<Token>) returns (c: Cst)
    requires WellFormed(l) && CommaLoop(Erase(l), ts).Ok?
    ensures Derived(c, 0, Put(l, ts), CommaLoop(Erase(l), ts))
    decreases |ts|, 0
  {
    hide ParseAssignment, Put, Erase, WellFormed, Level;
    if Cur(ts) != Sym(CommaSign) {
      c := l;
    } else {
      ConsCur(ts);
      var r := AssignmentSound(Rest(ts));
      MakePair(Com(l, r), ParseAssignment(Rest(ts)).rest);
      c := CommaSound(Com(l, r), ParseAssignment(Rest(ts)).rest);
    }
  }

  /** Whatever the parser accepts is an expression of the grammar, and the tree returned is its tree. */
  lemma {:induction false} ExpressionSound(ts: seq<Token>) returns (c: Cst)
    requires ParseExpression(ts).Ok?
    ensures Derived(c, 0, ts, ParseExpression(ts))
    decreases |ts|, 7
  {
    hide ParseAssignment, CommaLoop;
    var l := AssignmentSound(ts);
    c := CommaSound(l, ParseAssignment(ts).rest);
  }

  /** The parser accepts exactly the expressions of the grammar, and every expression has one tree only. */
  lemma ExpressionLanguage(ts: seq<Token>, e: Expr)
    ensures ParseExpression(ts) == Ok(e, []) <==> exists c :: Derives(c, 0, ts, e, [])
  {
    hide ParseExpression;
    if ParseExpression(ts) == Ok(e, []) {
      var c := ExpressionSound(ts);
    }
    if c :| Derives(c, 0, ts, e, []) {
      ExpressionComplete(c, []);
    }
  }
}
