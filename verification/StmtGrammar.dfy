/** The statement parser accepts exactly the statements of the grammar and returns their trees. */
module StmtGrammar {
  import opened Options
  import opened Ast
  import opened Tokens
  import opened Parsing
  import opened Grammar
  import opened ExprGrammar

  // ----- every statement of the grammar is parsed to its tree -----

  lemma TestComplete(e: Cst, rest: seq<Token>)
    requires WellFormed(e)
    ensures ParseTest(PutTest(e, rest)) == Ok(Erase(e), rest)
  {
    hide ParseExpression, Erase, WellFormed, Put;
    ExpressionComplete(e, Cons(Sym(RParen), rest));
  }

  lemma OptionalComplete(e: Option<Cst>, end: Token, rest: seq<Token>)
    requires WellFormedOpt(e) && end in {Sym(Semi), Sym(RParen)}
    ensures ParseOptional(end, PutOpt(e, end, rest)) == Ok(EraseOpt(e), rest)
  {
    hide ParseExpression, Erase, WellFormed, Put;
    if e.Some? {
      ExpressionComplete(e.value, Cons(end, rest));
      FirstIsCur(e.value, Cons(end, rest));
      FirstOf(e.value);
    }
  }

  lemma {:induction false} SpecifiersComplete(specs: seq<Keyword>, rest: seq<Token>)
    requires (forall k :: k in specs ==> TypeKeyword(Kw(k))) && !TypeKeyword(Cur(rest))
    ensures Specifiers(PutSpecs(specs, rest)) == (specs, rest)
  {
    hide TypeKeyword;
    if specs != [] {
      assert specs[0] in specs && forall k :: k in specs[1..] ==> k in specs;
      SpecifiersComplete(specs[1..], rest);
      assert [specs[0]] + specs[1..] == specs;
    }
  }

  lemma DeclaratorComplete(ct: CType, d: Declarator, rest: seq<Token>)
    requires WellFormedOpt(d.initial) && (d.initial.Some? ==> Level(d.initial.value) >= 1)
    requires Cur(rest) in {Sym(CommaSign), Sym(Semi)}
    ensures ParseDeclarator(ct, PutDecl(d, rest)) == Ok(VarDecl(d.name, ct, EraseOpt(d.initial)), rest)
  {
    hide ParseAssignment, Erase, WellFormed, Put, Level;
    if d.initial.Some? { AssignmentComplete(d.initial.value, rest); }
  }

  lemma {:induction false} DeclaratorsComplete(ct: CType, acc: seq<Stmt>, ds: seq<Declarator>, rest: seq<Token>)
    requires WellFormedDecls(ds)
    ensures ParseDeclarators(ct, acc, PutDecls(ds, rest)) == Ok(acc + EraseDecls(ct, ds), rest)
    decreases |ds|
  {
    hide ParseDeclarator, PutDecl, Erase, Level, WellFormed;
    var d := VarDecl(ds[0].name, ct, EraseOpt(ds[0].initial));
    if |ds| == 1 {
      DeclaratorComplete(ct, ds[0], Cons(Sym(Semi), rest));
      assert EraseDecls(ct, ds) == [d];
    } else {
      DeclaratorComplete(ct, ds[0], Cons(Sym(CommaSign), PutDecls(ds[1..], rest)));
      DeclaratorsComplete(ct, acc + [d], ds[1..], rest);
      assert (acc + [d]) + EraseDecls(ct, ds[1..]) == acc + EraseDecls(ct, ds);
    }
  }

  lemma DeclsStart(ds: seq<Declarator>, rest: seq<Token>)
    requires WellFormedDecls(ds)
    ensures Cur(PutDecls(ds, rest)).Name?
  {
    hide Put, WellFormed, Level;
  }

  lemma DeclarationComplete(s: Sst, rest: seq<Token>)
    requires s.SDecl? && WellFormedStmt(s)
    ensures ParseStatement(PutStmt(s, rest)) == Ok(EraseStmt(s), rest)
  {
    hide ParseDeclarators, PutDecls, WellFormedDecls, EraseDecls, SpecifiedType, StartsDecl, TypeKeyword;
    hide ParseItems, ParseKeyword, ParseExpression, StartsStatement;
    DeclsStart(s.ds, rest);
    NameIsNoType(Cur(PutDecls(s.ds, rest)));
    SpecifiersComplete(s.specs, PutDecls(s.ds, rest));
    DeclaratorsComplete(SpecifiedType(s.specs), [], s.ds, rest);
    assert [] + EraseDecls(SpecifiedType(s.specs), s.ds) == EraseDecls(SpecifiedType(s.specs), s.ds);
  }

  lemma NameIsNoType(t: Token)
    ensures !t.Kw? ==> !TypeKeyword(t)
  {
  }

  /** The second token of an expression is never a colon. */
  lemma {:induction false} NotLabel(c: Cst, rest: seq<Token>)
    requires WellFormed(c) && Cur(rest) != Sym(Colon)
    ensures Cur(Put(c, rest)).Name? ==> Cur(Rest(Put(c, rest))) != Sym(Colon)
    decreases c, 1
  {
    hide *;
    if c.Bin? || c.Cnd? || c.Asg? || c.Com? { NotLabelOperator(c, rest); }
    else if c.Idx? || c.App? || c.Mem? || c.Pst? { NotLabelPostfix(c, rest); }
    else { NotLabelFirst(c, rest); }
  }

  lemma NotLabelFirst(c: Cst, rest: seq<Token>)
    requires (c.Leaf? || c.Paren? || c.Pre? || c.Siz? || c.SizParen?) && Cur(rest) != Sym(Colon)
    ensures Cur(Put(c, rest)).Name? ==> Cur(Rest(Put(c, rest))) != Sym(Colon)
  {
    hide Cur;
  }

  lemma {:induction false} NotLabelOperator(c: Cst, rest: seq<Token>)
    requires (c.Bin? || c.Cnd? || c.Asg? || c.Com?) && WellFormed(c)
    ensures Cur(Put(c, rest)).Name? ==> Cur(Rest(Put(c, rest))) != Sym(Colon)
    decreases c, 0
  {
    hide Level, LeafOf, First, Cur, AssignToken;
    if c.Bin? {
      OperatorPrecedence(c.bop);
      NotLabel(c.l, Cons(BinToken(c.bop), Put(c.r, rest)));
    } else if c.Cnd? {
      NotLabel(c.c, Cons(Sym(Question), Put(c.a, Cons(Sym(Colon), Put(c.b, rest)))));
    } else if c.Asg? {
      AssignTokens(AssignToken(c.aop), c.aop);
      NotLabel(c.l, Cons(AssignToken(c.aop), Put(c.r, rest)));
    } else {
      NotLabel(c.l, Cons(Sym(CommaSign), Put(c.r, rest)));
    }
  }

  lemma {:induction false} NotLabelPostfix(c: Cst, rest: seq<Token>)
    requires (c.Idx? || c.App? || c.Mem? || c.Pst?) && WellFormed(c)
    ensures Cur(Put(c, rest)).Name? ==> Cur(Rest(Put(c, rest))) != Sym(Colon)
    decreases c, 0
  {
    hide Level, LeafOf, First, Cur;
    if c.Idx? {
      NotLabel(c.base, Cons(Sym(LBracket), Put(c.index, Cons(Sym(RBracket), rest))));
    } else if c.App? {
      NotLabel(c.callee, Cons(Sym(LParen), PutArgs(c.args, rest)));
    } else if c.Mem? {
      NotLabel(c.base, Cons(Sym(if c.arrow then Arrow else Dot), Cons(Name(c.field), rest)));
    } else {
      NotLabel(c.e, Cons(Sym(if c.inc then PlusPlus else MinusMinus), rest));
    }
  }

  lemma ExpressionStarts(c: Cst)
    requires WellFormed(c)
    ensures !StartsDecl(First(c)) && !StartsStatement(First(c))
      && First(c) !in {Sym(LBrace), Sym(RBrace), Sym(Semi), Eof}
  {
    FirstOf(c);
  }

  lemma ExprStatementComplete(e: Cst, rest: seq<Token>)
    requires WellFormed(e)
    ensures ParseStatement(Put(e, Cons(Sym(Semi), rest))) == Ok(ExprStmt(Some(Erase(e))), rest)
  {
    hide ParseExpression, ParseItems, ParseKeyword, ParseVarDecl, Erase, Put, WellFormed, First;
    var more := Cons(Sym(Semi), rest);
    FirstIsCur(e, more);
    ExpressionStarts(e);
    NotLabel(e, more);
    ExpressionComplete(e, more);
  }

  /** A statement keyword decides the form of the statement. */
  lemma KeywordFirst(kw: Keyword, ts: seq<Token>)
    requires StartsStatement(Kw(kw))
    ensures ParseStatement(Cons(Kw(kw), ts)) == ParseKeyword(kw, ts)
  {
    hide ParseKeyword, ParseItems, ParseExpression, ParseVarDecl;
  }

  lemma {:induction false} IfComplete(s: Sst, rest: seq<Token>)
    requires s.SIf? && WellFormedStmt(s) && (OpenEnd(s) ==> Cur(rest) != Kw(KwElse))
    ensures ParseStatement(PutStmt(s, rest)) == Ok(EraseStmt(s), rest)
    decreases s, 0
  {
    hide ParseTest, ParseStatement, PutTest, WellFormed, Erase;
    hide Level, First, WellFormedItems, WellFormedDecls, StartsDecl, TypeKeyword, EraseDecls, EraseItems, PutItems,
      PutDecls, PutSpecs;
    var more := if s.els.Some? then Cons(Kw(KwElse), PutStmt(s.els.value, rest)) else rest;
    TestComplete(s.cond, PutStmt(s.thn, more));
    StatementComplete(s.thn, more);
    if s.els.Some? { StatementComplete(s.els.value, rest); }
    KeywordFirst(KwIf, PutTest(s.cond, PutStmt(s.thn, more)));
  }

  lemma {:induction false} LoopComplete(s: Sst, rest: seq<Token>)
    requires s.SLoop? && WellFormedStmt(s) && (OpenEnd(s) ==> Cur(rest) != Kw(KwElse))
    ensures ParseStatement(PutStmt(s, rest)) == Ok(EraseStmt(s), rest)
    decreases s, 0
  {
    hide ParseTest, ParseStatement, PutTest, WellFormed, Erase;
    hide Level, First, WellFormedItems, WellFormedDecls, StartsDecl, TypeKeyword, EraseDecls, EraseItems, PutItems,
      PutDecls, PutSpecs;
    TestComplete(s.cond, PutStmt(s.body, rest));
    StatementComplete(s.body, rest);
    KeywordFirst(if s.isSwitch then KwSwitch else KwWhile, PutTest(s.cond, PutStmt(s.body, rest)));
  }

  lemma {:induction false} DoComplete(s: Sst, rest: seq<Token>)
    requires s.SDo? && WellFormedStmt(s)
    ensures ParseStatement(PutStmt(s, rest)) == Ok(EraseStmt(s), rest)
    decreases s, 0
  {
    hide ParseTest, ParseStatement, PutTest, WellFormed, Erase, OpenEnd;
    var more := Cons(Kw(KwWhile), PutTest(s.cond, Cons(Sym(Semi), rest)));
    StatementComplete(s.body, more);
    TestComplete(s.cond, Cons(Sym(Semi), rest));
    KeywordFirst(KwDo, PutStmt(s.body, more));
  }

  lemma {:induction false} ForComplete(s: Sst, rest: seq<Token>)
    requires s.SFor? && WellFormedStmt(s) && (OpenEnd(s) ==> Cur(rest) != Kw(KwElse))
    ensures ParseStatement(PutStmt(s, rest)) == Ok(EraseStmt(s), rest)
    decreases s, 0
  {
    hide ParseOptional, ParseStatement, PutOpt, WellFormedOpt, EraseOpt;
    var ts3 := PutStmt(s.body, rest);
    var ts2 := PutOpt(s.post, Sym(RParen), ts3);
    var ts1 := PutOpt(s.test, Sym(Semi), ts2);
    OptionalComplete(s.init, Sym(Semi), ts1);
    OptionalComplete(s.test, Sym(Semi), ts2);
    OptionalComplete(s.post, Sym(RParen), ts3);
    StatementComplete(s.body, rest);
    KeywordFirst(KwFor, Cons(Sym(LParen), PutOpt(s.init, Sym(Semi), ts1)));
  }

  lemma {:induction false} CaseComplete(s: Sst, rest: seq<Token>)
    requires s.SCase? && WellFormedStmt(s) && (OpenEnd(s) ==> Cur(rest) != Kw(KwElse))
    ensures ParseStatement(PutStmt(s, rest)) == Ok(EraseStmt(s), rest)
    decreases s, 0
  {
    hide ParseConditional, ParseStatement, WellFormed, Erase, Put, Level;
    var more := Cons(Sym(Colon), PutStmt(s.body, rest));
    StatementComplete(s.body, rest);
    ConditionalComplete(s.value, more);
    KeywordFirst(KwCase, Put(s.value, more));
  }

  lemma {:induction false} DefaultComplete(s: Sst, rest: seq<Token>)
    requires s.SDefault? && WellFormedStmt(s) && (OpenEnd(s) ==> Cur(rest) != Kw(KwElse))
    ensures ParseStatement(PutStmt(s, rest)) == Ok(EraseStmt(s), rest)
    decreases s, 0
  {
    hide ParseStatement;
    StatementComplete(s.body, rest);
    KeywordFirst(KwDefault, Cons(Sym(Colon), PutStmt(s.body, rest)));
  }

  lemma JumpComplete(s: Sst, rest: seq<Token>)
    requires (s.SBreak? || s.SContinue? || s.SGoto?) && WellFormedStmt(s)
    ensures ParseStatement(PutStmt(s, rest)) == Ok(EraseStmt(s), rest)
  {
    hide ParseOptional, ParseStatement, PutOpt, WellFormedOpt, EraseOpt, PutDecls, PutSpecs, PutItems, Put, PutTest,
      Erase;
    hide Level, WellFormed, WellFormedDecls, WellFormedItems, EraseDeclaration, SpecifiedType, StartsDecl, TypeKeyword;
    var more := Cons(Sym(Semi), rest);
    if s.SBreak? { KeywordFirst(KwBreak, more); }
    else if s.SContinue? { KeywordFirst(KwContinue, more); }
    else { KeywordFirst(KwGoto, Cons(Name(s.name), more)); }
  }

  lemma ReturnComplete(s: Sst, rest: seq<Token>)
    requires s.SReturn? && WellFormedStmt(s)
    ensures ParseStatement(PutStmt(s, rest)) == Ok(EraseStmt(s), rest)
  {
    hide ParseOptional, ParseStatement, PutOpt, WellFormedOpt, EraseOpt, PutDecls, PutSpecs, PutItems, Put, PutTest,
      Erase;
    hide Level, WellFormed, WellFormedDecls, WellFormedItems, EraseDeclaration, SpecifiedType, StartsDecl, TypeKeyword;
    OptionalComplete(s.result, Sym(Semi), rest);
    KeywordFirst(KwReturn, PutOpt(s.result, Sym(Semi), rest));
  }

  lemma LabelFirst(name: string, ts: seq<Token>)
    requires ParseStatement(ts).Ok?
    ensures ParseStatement(Cons(Name(name), Cons(Sym(Colon), ts)))
         == Ok(Label(name, ParseStatement(ts).value), ParseStatement(ts).rest)
  {
    hide ParseItems, ParseKeyword, ParseVarDecl, ParseExpression;
  }

  lemma BlockFirst(ts: seq<Token>)
    ensures ParseStatement(Cons(Sym(LBrace), ts)) == ParseItems([], ts)
    ensures ParseStatement(Cons(Sym(Semi), ts)) == Ok(ExprStmt(None), ts)
  {
    hide ParseItems, ParseKeyword, ParseVarDecl, ParseExpression;
  }

  /**
   Every statement of the grammar is parsed to its tree, unless an `else` follows
   that an `if` at its end would take.
   */
  lemma {:induction false} StatementComplete(s: Sst, rest: seq<Token>)
    requires WellFormedStmt(s) && (OpenEnd(s) ==> Cur(rest) != Kw(KwElse))
    ensures ParseStatement(PutStmt(s, rest)) == Ok(EraseStmt(s), rest)
    decreases s, 1
  {
    hide ParseStatement, WellFormed, Erase, Put, ParseItems, PutItems, EraseItems, WellFormedItems, PutOpt, PutTest;
    hide WellFormedOpt, EraseOpt, PutSpecs, PutDecls, WellFormedDecls, EraseDecls, StartsDecl, TypeKeyword;
    if s.SNull? { BlockFirst(rest); }
    else if s.SExpr? { ExprStatementComplete(s.e, rest); }
    else if s.SBlock? {
      BlockFirst(PutItems(s.items, rest));
      ItemsComplete([], s.items, rest);
      assert [] + EraseItems(s.items) == EraseItems(s.items);
    }
    else if s.SIf? { IfComplete(s, rest); }
    else if s.SLoop? { LoopComplete(s, rest); }
    else if s.SDo? { DoComplete(s, rest); }
    else if s.SFor? { ForComplete(s, rest); }
    else if s.SCase? { CaseComplete(s, rest); }
    else if s.SDefault? { DefaultComplete(s, rest); }
    else if s.SLabel? {
      StatementComplete(s.body, rest);
      LabelFirst(s.name, PutStmt(s.body, rest));
    }
    else if s.SDecl? { DeclarationComplete(s, rest); }
    else if s.SReturn? { ReturnComplete(s, rest); }
    else { JumpComplete(s, rest); }
  }

  lemma {:induction false} ItemsComplete(acc: seq<Stmt>, items: seq<Sst>, rest: seq<Token>)
    requires WellFormedItems(items)
    ensures ParseItems(acc, PutItems(items, rest)) == Ok(Block(acc + EraseItems(items)), rest)
    decreases items, 2
  {
    hide ParseStatement, PutStmt, EraseStmt, WellFormedStmt;
    if items == [] {
      assert acc + [] == acc;
    } else {
      var more := PutItems(items[1..], rest);
      var s := EraseStmt(items[0]);
      StatementStarts(items[0], more);
      ItemsStart(items[1..], rest);
      StatementComplete(items[0], more);
      ItemsComplete(acc + [s], items[1..], rest);
      assert (acc + [s]) + EraseItems(items[1..]) == acc + EraseItems(items);
    }
  }

  /** No statement starts with a closing brace or `else`. */
  lemma StatementStarts(s: Sst, rest: seq<Token>)
    requires WellFormedStmt(s)
    ensures Cur(PutStmt(s, rest)) !in {Sym(RBrace), Eof, Kw(KwElse)}
  {
    hide Put, PutItems, WellFormed, WellFormedItems, PutDecls, PutOpt, PutTest, WellFormedDecls, First;
    if s.SExpr? {
      FirstIsCur(s.e, Cons(Sym(Semi), rest));
      FirstOf(s.e);
    }
  }

  lemma ItemsStart(items: seq<Sst>, rest: seq<Token>)
    requires WellFormedItems(items)
    ensures Cur(PutItems(items, rest)) != Kw(KwElse)
  {
    hide PutStmt, WellFormedStmt;
    if items != [] { StatementStarts(items[0], PutItems(items[1..], rest)); }
  }

  // ----- every successful parse read a statement of the grammar -----

  /** `s` is a derivation of what was read from `ts` up to `rest`, and took any `else` it could. */
  ghost predicate DerivesStmt(s: Sst, ts: seq<Token>, v: Stmt, rest: seq<Token>) {
    WellFormedStmt(s) && PutStmt(s, rest) == ts && EraseStmt(s) == v && (OpenEnd(s) ==> Cur(rest) != Kw(KwElse))
  }

  ghost predicate DerivedStmt(s: Sst, ts: seq<Token>, r: Parsed<Stmt>) {
    r.Ok? && DerivesStmt(s, ts, r.value, r.rest)
  }

  lemma TestSound(ts: seq<Token>) returns (c: Cst)
    requires ParseTest(ts).Ok?
    ensures WellFormed(c) && PutTest(c, ParseTest(ts).rest) == ts && Erase(c) == ParseTest(ts).value
  {
    hide ParseExpression, WellFormed, Put, Erase, Level;
    ConsCur(ts);
    c := ExpressionSound(Rest(ts));
    ConsCur(ParseExpression(Rest(ts)).rest);
  }

  lemma OptionalSound(end: Token, ts: seq<Token>) returns (c: Option<Cst>)
    requires end != Eof && ParseOptional(end, ts).Ok?
    ensures WellFormedOpt(c) && EraseOpt(c) == ParseOptional(end, ts).value
    ensures PutOpt(c, end, ParseOptional(end, ts).rest) == ts
  {
    hide ParseExpression, WellFormed, Put, Erase, Level;
    if Cur(ts) == end {
      ConsCur(ts);
      c := None;
    } else {
      var e := ExpressionSound(ts);
      ConsCur(ParseExpression(ts).rest);
      c := Some(e);
    }
  }

  lemma {:induction false} SpecifiersSound(ts: seq<Token>)
    ensures var (specs, rest) := Specifiers(ts);
            PutSpecs(specs, rest) == ts && (forall k :: k in specs ==> TypeKeyword(Kw(k)))
    ensures TypeKeyword(Cur(ts)) ==> Specifiers(ts).0 != [] && Specifiers(ts).0[0] == Cur(ts).kw
  {
    hide TypeKeyword;
    if TypeKeyword(Cur(ts)) {
      TypeIsKeyword(Cur(ts));
      ConsCur(ts);
      SpecifiersSound(Rest(ts));
    }
  }

  lemma DeclaratorSound(ct: CType, ts: seq<Token>) returns (d: Declarator)
    requires ParseDeclarator(ct, ts).Ok?
    ensures WellFormedOpt(d.initial) && (d.initial.Some? ==> Level(d.initial.value) >= 1)
    ensures ParseDeclarator(ct, ts).value == VarDecl(d.name, ct, EraseOpt(d.initial))
    ensures PutDecl(d, ParseDeclarator(ct, ts).rest) == ts
  {
    hide ParseAssignment, WellFormed, Put, Erase, Level;
    ConsCur(ts);
    if Cur(Rest(ts)) == Sym(EqSign) {
      ConsCur(Rest(ts));
      var e := AssignmentSound(Rest(Rest(ts)));
      d := Declarator(Cur(ts).text, Some(e));
    } else {
      d := Declarator(Cur(ts).text, None);
    }
  }

  lemma {:induction false} DeclaratorsSound(ct: CType, acc: seq<Stmt>, ts: seq<Token>) returns (ds: seq<Declarator>)
    requires ParseDeclarators(ct, acc, ts).Ok?
    ensures WellFormedDecls(ds) && PutDecls(ds, ParseDeclarators(ct, acc, ts).rest) == ts
    ensures ParseDeclarators(ct, acc, ts).value == acc + EraseDecls(ct, ds)
    decreases |ts|
  {
    hide ParseDeclarator, PutDecl, WellFormed, Erase, Level;
    var d := DeclaratorSound(ct, ts);
    var r := ParseDeclarator(ct, ts);
    ConsCur(r.rest);
    if Cur(r.rest) == Sym(CommaSign) {
      var more := DeclaratorsSound(ct, acc + [r.value], Rest(r.rest));
      ds := [d] + more;
      assert ds[1..] == more;
      assert acc + ([r.value] + EraseDecls(ct, more)) == (acc + [r.value]) + EraseDecls(ct, more);
    } else {
      ds := [d];
      assert EraseDecls(ct, ds) == [r.value];
    }
  }

  lemma DeclarationSound(ts: seq<Token>) returns (s: Sst)
    requires StartsDecl(Cur(ts)) && ParseVarDecl(ts).Ok?
    ensures DerivedStmt(s, ts, ParseVarDecl(ts))
  {
    hide ParseDeclarators, PutDecls, WellFormedDecls, EraseDecls, SpecifiedType, StartsDecl, TypeKeyword, PutSpecs,
      Specifiers;
    TypeIsKeyword(Cur(ts));
    SpecifiersSound(ts);
    var (specs, more) := Specifiers(ts);
    var ds := DeclaratorsSound(SpecifiedType(specs), [], more);
    assert [] + EraseDecls(SpecifiedType(specs), ds) == EraseDecls(SpecifiedType(specs), ds);
    s := SDecl(specs, ds);
  }

  lemma {:induction false} IfSound(ts: seq<Token>) returns (s: Sst)
    requires ParseIf(ts).Ok?
    ensures DerivedStmt(s, Cons(Kw(KwIf), ts), ParseIf(ts))
    decreases |ts|, 6
  {
    hide ParseTest, ParseStatement, PutTest, WellFormed, Erase;
    var c := TestSound(ts);
    var ts1 := ParseTest(ts).rest;
    var a := StatementSound(ts1);
    var ts2 := ParseStatement(ts1).rest;
    if Cur(ts2) == Kw(KwElse) {
      ConsCur(ts2);
      var b := StatementSound(Rest(ts2));
      s := SIf(c, a, Some(b));
    } else {
      s := SIf(c, a, None);
    }
  }

  lemma {:induction false} LoopSound(isSwitch: bool, ts: seq<Token>) returns (s: Sst)
    requires ParseLoop(isSwitch, ts).Ok?
    ensures DerivedStmt(s, Cons(Kw(if isSwitch then KwSwitch else KwWhile), ts), ParseLoop(isSwitch, ts))
    decreases |ts|, 6
  {
    hide ParseTest, ParseStatement, PutTest, WellFormed, Erase;
    var c := TestSound(ts);
    var b := StatementSound(ParseTest(ts).rest);
    s := SLoop(isSwitch, c, b);
  }

  lemma {:induction false} DoSound(ts: seq<Token>) returns (s: Sst)
    requires ParseDo(ts).Ok?
    ensures DerivedStmt(s, Cons(Kw(KwDo), ts), ParseDo(ts))
    decreases |ts|, 6
  {
    hide ParseTest, ParseStatement, PutTest, WellFormed, Erase;
    var b := StatementSound(ts);
    var ts1 := ParseStatement(ts).rest;
    ConsCur(ts1);
    var c := TestSound(Rest(ts1));
    ConsCur(ParseTest(Rest(ts1)).rest);
    s := SDo(b, c);
  }

  lemma {:induction false} ForSound(ts: seq<Token>) returns (s: Sst)
    requires ParseFor(ts).Ok?
    ensures DerivedStmt(s, Cons(Kw(KwFor), ts), ParseFor(ts))
    decreases |ts|, 6
  {
    hide ParseOptional, ParseStatement, PutOpt, WellFormedOpt, EraseOpt;
    ConsCur(ts);
    var i := OptionalSound(Sym(Semi), Rest(ts));
    var ts1 := ParseOptional(Sym(Semi), Rest(ts)).rest;
    var c := OptionalSound(Sym(Semi), ts1);
    var ts2 := ParseOptional(Sym(Semi), ts1).rest;
    var p := OptionalSound(Sym(RParen), ts2);
    var b := StatementSound(ParseOptional(Sym(RParen), ts2).rest);
    s := SFor(i, c, p, b);
  }

  lemma {:induction false} CaseSound(ts: seq<Token>) returns (s: Sst)
    requires ParseCase(ts).Ok?
    ensures DerivedStmt(s, Cons(Kw(KwCase), ts), ParseCase(ts))
    decreases |ts|, 6
  {
    hide ParseConditional, ParseStatement, WellFormed, Erase, Put, Level;
    var v := ConditionalSound(ts);
    var ts1 := ParseConditional(ts).rest;
    ConsCur(ts1);
    var b := StatementSound(Rest(ts1));
    s := SCase(v, b);
  }

  lemma {:induction false} DefaultSound(ts: seq<Token>) returns (s: Sst)
    requires ParseDefault(ts).Ok?
    ensures DerivedStmt(s, Cons(Kw(KwDefault), ts), ParseDefault(ts))
    decreases |ts|, 6
  {
    hide ParseStatement;
    ConsCur(ts);
    var b := StatementSound(Rest(ts));
    s := SDefault(b);
  }

  lemma JumpSound(kw: Keyword, ts: seq<Token>) returns (s: Sst)
    requires kw in {KwBreak, KwContinue, KwGoto} && ParseKeyword(kw, ts).Ok?
    ensures DerivedStmt(s, Cons(Kw(kw), ts), ParseKeyword(kw, ts))
  {
    hide ParseOptional, PutOpt, WellFormedOpt, EraseOpt, PutDecls, PutSpecs, PutItems, Put, PutTest, Erase, Level;
    hide WellFormed, WellFormedDecls, WellFormedItems, EraseDeclaration, SpecifiedType, StartsDecl, TypeKeyword;
    ConsCur(ts);
    if kw == KwBreak { s := SBreak; }
    else if kw == KwContinue { s := SContinue; }
    else {
      ConsCur(Rest(ts));
      s := SGoto(Cur(ts).text);
    }
  }

  lemma ReturnSound(ts: seq<Token>) returns (s: Sst)
    requires ParseKeyword(KwReturn, ts).Ok?
    ensures DerivedStmt(s, Cons(Kw(KwReturn), ts), ParseKeyword(KwReturn, ts))
  {
    hide ParseOptional, PutOpt, WellFormedOpt, EraseOpt, PutDecls, PutSpecs, PutItems, Put, PutTest, Erase, Level;
    hide WellFormed, WellFormedDecls, WellFormedItems, EraseDeclaration, SpecifiedType, StartsDecl, TypeKeyword;
    ConsCur(ts);
    var e := OptionalSound(Sym(Semi), ts);
    s := SReturn(e);
  }

  lemma {:induction false} KeywordSound(kw: Keyword, ts: seq<Token>) returns (s: Sst)
    requires StartsStatement(Kw(kw)) && ParseKeyword(kw, ts).Ok?
    ensures DerivedStmt(s, Cons(Kw(kw), ts), ParseKeyword(kw, ts))
    decreases |ts|, 7
  {
    hide ParseIf, ParseLoop, ParseDo, ParseFor, ParseCase, ParseDefault, DerivedStmt, ParseOptional;
    if kw == KwIf { s := IfSound(ts); }
    else if kw == KwWhile { s := LoopSound(false, ts); }
    else if kw == KwSwitch { s := LoopSound(true, ts); }
    else if kw == KwDo { s := DoSound(ts); }
    else if kw == KwFor { s := ForSound(ts); }
    else if kw == KwCase { s := CaseSound(ts); }
    else if kw == KwDefault { s := DefaultSound(ts); }
    else if kw == KwReturn { s := ReturnSound(ts); }
    else { s := JumpSound(kw, ts); }
  }

  /** Whatever the parser accepts is a statement of the grammar, and the tree returned is its tree. */
  lemma {:induction false} StatementSound(ts: seq<Token>) returns (s: Sst)
    requires ParseStatement(ts).Ok?
    ensures DerivedStmt(s, ts, ParseStatement(ts))
    decreases |ts|, 5
  {
    hide ParseVarDecl, ParseKeyword, ParseItems, ParseExpression, StartsDecl, DerivesStmt;
    ConsCur(ts);
    if StartsDecl(Cur(ts)) {
      s := DeclarationSound(ts);
    } else if StartsStatement(Cur(ts)) {
      s := KeywordSound(Cur(ts).kw, Rest(ts));
    } else if Cur(ts) == Sym(LBrace) {
      var items := ItemsSound([], Rest(ts));
      s := SBlock(items);
      MakeBlock(items, ParseItems([], Rest(ts)));
    } else if Cur(ts) == Sym(Semi) {
      s := SNull;
      MakeNull(Rest(ts));
    } else if Cur(ts).Name? && Cur(Rest(ts)) == Sym(Colon) {
      ConsCur(Rest(ts));
      var b := StatementSound(Rest(Rest(ts)));
      s := SLabel(Cur(ts).text, b);
      MakeLabel(Cur(ts).text, b, Rest(Rest(ts)), ParseStatement(Rest(Rest(ts))));
    } else {
      s := ExprStatementSound(ts);
    }
  }

  lemma MakeBlock(items: seq<Sst>, r: Parsed<Stmt>)
    requires WellFormedItems(items) && r.Ok? && r.value == Block([] + EraseItems(items))
    ensures DerivesStmt(SBlock(items), Cons(Sym(LBrace), PutItems(items, r.rest)), r.value, r.rest)
  {
    hide WellFormedItems, EraseItems, PutItems;
    assert [] + EraseItems(items) == EraseItems(items);
  }

  lemma MakeNull(rest: seq<Token>)
    ensures DerivesStmt(SNull, Cons(Sym(Semi), rest), ExprStmt(None), rest)
  {
  }

  lemma MakeLabel(name: string, b: Sst, ts: seq<Token>, r: Parsed<Stmt>)
    requires DerivedStmt(b, ts, r)
    ensures DerivesStmt(SLabel(name, b), Cons(Name(name), Cons(Sym(Colon), ts)), Label(name, r.value), r.rest)
  {
    hide PutStmt, EraseStmt, WellFormedStmt, OpenEnd, Cons, Cur;
    LabelShape(name, b, r.rest);
  }

  lemma LabelShape(name: string, b: Sst, rest: seq<Token>)
    requires WellFormedStmt(b)
    ensures PutStmt(SLabel(name, b), rest) == Cons(Name(name), Cons(Sym(Colon), PutStmt(b, rest)))
    ensures WellFormedStmt(SLabel(name, b)) && OpenEnd(SLabel(name, b)) == OpenEnd(b)
    ensures EraseStmt(SLabel(name, b)) == Label(name, EraseStmt(b))
  {
    hide Put, Erase, WellFormed, Level, PutItems, EraseItems, WellFormedItems, Cons, Cur;
  }

  lemma ExprStatementSound(ts: seq<Token>) returns (s: Sst)
    requires ParseExpression(ts).Ok? && Cur(ParseExpression(ts).rest) == Sym(Semi)
    ensures var r := ParseExpression(ts);
            DerivesStmt(s, ts, ExprStmt(Some(r.value)), Rest(r.rest))
  {
    hide ParseExpression, WellFormed, Erase, Put, Level;
    var e := ExpressionSound(ts);
    ConsCur(ParseExpression(ts).rest);
    s := SExpr(e);
  }

  lemma {:induction false} ItemsSound(acc: seq<Stmt>, ts: seq<Token>) returns (items: seq<Sst>)
    requires ParseItems(acc, ts).Ok?
    ensures WellFormedItems(items) && PutItems(items, ParseItems(acc, ts).rest) == ts
    ensures ParseItems(acc, ts).value == Block(acc + EraseItems(items))
    decreases |ts|, 6
  {
    hide ParseStatement, PutStmt, EraseStmt, WellFormedStmt;
    if Cur(ts) == Sym(RBrace) {
      ConsCur(ts);
      items := [];
      assert acc + [] == acc;
    } else {
      var s := StatementSound(ts);
      var r := ParseStatement(ts);
      var more := ItemsSound(acc + [r.value], r.rest);
      items := [s] + more;
      assert items[1..] == more;
      assert acc + ([r.value] + EraseItems(more)) == (acc + [r.value]) + EraseItems(more);
    }
  }

  /** The parser accepts exactly the statements of the grammar, so each `else` belongs to the nearest `if`. */
  lemma StatementLanguage(ts: seq<Token>, v: Stmt)
    ensures ParseStatement(ts) == Ok(v, []) <==> exists s :: DerivesStmt(s, ts, v, [])
  {
    hide ParseStatement;
    if ParseStatement(ts) == Ok(v, []) {
      var s := StatementSound(ts);
    }
    if s :| DerivesStmt(s, ts, v, []) {
      StatementComplete(s, []);
    }
  }
}
