/** Files of function definitions, from trees to text and back. */
module Source {
  import opened Options
  import opened Words
  import opened Ast
  import opened Tokens
  import opened Literals
  import opened Lexing
  import opened Respacing
  import opened Spelled
  import opened Parsing
  import opened Grammar
  import opened StmtGrammar
  import opened Printer
  import opened FileGrammar

  // ----- function definitions -----

  function PrintParams(ps: seq<Param>): seq<ParamForm> {
    if ps == [] then [] else [ParamForm(SpecsFor(ps[0].ptype), ps[0].name)] + PrintParams(ps[1..])
  }

  /** The derivation printed for a function definition. */
  function PrintFunction(f: Func): FuncForm
    requires PrintableStmts(f.body)
  {
    FuncForm(SpecsFor(f.result), f.name, if f.params == [] then NoParams else Listed(PrintParams(f.params)),
             PrintStmts(f.body))
  }

  /** The tokens of a function definition in front of others. */
  function PutFunction(f: Func, rest: seq<Token>): seq<Token>
    requires PrintableStmts(f.body)
  {
    PutFunc(PrintFunction(f), rest)
  }

  lemma SpecsAreTypes(ct: CType)
    ensures Specs(SpecsFor(ct)) && SpecifiedType(SpecsFor(ct)) == ct
  {
    hide SpecsFor, TypeKeyword, SpecifiedType, StartsDecl;
    SpecsGiveType(ct);
  }

  lemma {:induction false} ParamsDerive(ps: seq<Param>)
    ensures GoodParams(PrintParams(ps)) && EraseParams(PrintParams(ps)) == ps
    decreases |ps|
  {
    hide SpecsFor, SpecifiedType, Specs;
    if ps != [] {
      var p := ps[0];
      SpecsAreTypes(p.ptype);
      ParamsDerive(ps[1..]);
      OneParam(ParamForm(SpecsFor(p.ptype), p.name), PrintParams(ps[1..]), []);
      assert p == Param(p.name, p.ptype) && [p] + ps[1..] == ps;
    }
  }

  /** The printed form of a definition in which nothing dangles is a derivation of it. */
  lemma FunctionDerives(f: Func)
    requires PrintableStmts(f.body) && NoneDangling(f.body)
    ensures GoodFunc(PrintFunction(f)) && EraseFunc(PrintFunction(f)) == f
  {
    hide SpecsFor, SpecifiedType, Specs, PrintableStmts, PrintStmts, NoneDangling, WellFormedItems, EraseItems;
    hide GoodParams, EraseParams, PrintParams;
    SpecsAreTypes(f.result);
    ParamsDerive(f.params);
    PrintStmtsDerive(f.body);
    if f.params != [] { SomeParams(f.params); }
  }

  lemma SomeParams(ps: seq<Param>)
    requires ps != []
    ensures PrintParams(ps) != []
  {
  }

  /** A printed function definition is parsed to itself exactly when no branch in its body dangles. */
  lemma PrintedFunction(f: Func, rest: seq<Token>)
    requires PrintableStmts(f.body)
    ensures ParseFunction(PutFunction(f, rest)) == Ok(f, rest) <==> NoneDangling(f.body)
  {
    hide PrintFunction, PutFunc, EraseFunc, GoodFunc, ParseFunction, PrintableStmts, NoneDangling;
    if NoneDangling(f.body) {
      FunctionDerives(f);
      FunctionComplete(PrintFunction(f), rest);
    }
    if ParseFunction(PutFunction(f, rest)).Ok? { ParsedNoDangling(PutFunction(f, rest)); }
  }

  /** Whatever function the parser returns, no branch in its body dangles. */
  lemma ParsedNoDangling(ts: seq<Token>)
    requires ParseFunction(ts).Ok?
    ensures NoneDangling(ParseFunction(ts).value.body)
  {
    hide ParseFunction, NoneDangling, WellFormedItems, EraseItems, PutFunc;
    var d := FunctionSound(ts);
    ErasedItems(d.items);
  }

  // ----- files -----

  predicate PrintableUnit(fs: seq<Func>) { forall f :: f in fs ==> PrintableStmts(f.body) }

  /** No branch dangles in any function. */
  predicate UnitNoDangling(fs: seq<Func>) { forall f :: f in fs ==> NoneDangling(f.body) }

  function PutUnit(fs: seq<Func>): seq<Token>
    requires PrintableUnit(fs)
  {
    if fs == [] then [] else PutFunction(fs[0], PutUnit(fs[1..]))
  }

  lemma {:induction false} UnitComplete(acc: seq<Func>, fs: seq<Func>)
    requires PrintableUnit(fs) && UnitNoDangling(fs)
    ensures ParseUnit(acc, PutUnit(fs)) == Ok(acc + fs, [])
    decreases |fs|
  {
    hide ParseFunction, PutFunc, PrintFunction, NoneDangling, PrintableStmts;
    if fs == [] {
      assert acc + [] == acc;
    } else {
      PrintedFunction(fs[0], PutUnit(fs[1..]));
      FunctionStarts(PrintFunction(fs[0]), PutUnit(fs[1..]));
      UnitComplete(acc + [fs[0]], fs[1..]);
      assert (acc + [fs[0]]) + fs[1..] == acc + fs;
    }
  }

  lemma {:induction false} UnitSound(acc: seq<Func>, ts: seq<Token>)
    requires UnitNoDangling(acc) && ParseUnit(acc, ts).Ok?
    ensures UnitNoDangling(ParseUnit(acc, ts).value)
    decreases |ts|
  {
    hide ParseFunction, NoneDangling;
    if Cur(ts) != Eof {
      ParsedNoDangling(ts);
      UnitSound(acc + [ParseFunction(ts).value], ParseFunction(ts).rest);
    }
  }

  /** A printed file is parsed to its functions exactly when no branch dangles in any of them. */
  lemma PrintedUnit(fs: seq<Func>)
    requires PrintableUnit(fs)
    ensures ParseUnit([], PutUnit(fs)) == Ok(fs, []) <==> UnitNoDangling(fs)
  {
    hide ParseUnit, PutUnit, NoneDangling, PrintableUnit;
    if UnitNoDangling(fs) {
      UnitComplete([], fs);
      assert [] + fs == fs;
    }
    if ParseUnit([], PutUnit(fs)).Ok? { UnitSound([], PutUnit(fs)); }
  }

  // ----- all tokens of a printed program stand alone -----

  predicate AllLone(ts: seq<Token>) { ts == [] || (Lone(Cur(ts)) && AllLone(Rest(ts))) }

  lemma {:induction false} AllLoneIn(ts: seq<Token>)
    requires AllLone(ts)
    ensures forall t :: t in ts ==> Lone(t)
  {
    hide Lone;
    if ts != [] {
      AllLoneIn(Rest(ts));
      assert ts == [Cur(ts)] + Rest(ts);
    }
  }

  lemma OperatorsAreSyms(b: BinOp, a: Option<ArithOp>, u: UnOp)
    ensures BinToken(b).Sym? && AssignToken(a).Sym? && PrefixToken(u).Sym?
  {
  }

  /** Keywords, punctuators and operators need no condition. */
  lemma FixedLone()
    ensures forall p: Punct :: Lone(Sym(p))
    ensures forall k: Keyword :: Lone(Kw(k))
    ensures forall b: BinOp :: Lone(BinToken(b))
    ensures forall a: Option<ArithOp> :: Lone(AssignToken(a))
    ensures forall u: UnOp :: Lone(PrefixToken(u))
  {
    hide Lone, BinToken, AssignToken, PrefixToken;
    forall p: Punct ensures Lone(Sym(p)) { SymLone(p); }
    forall k: Keyword ensures Lone(Kw(k)) { KeywordLone(k); }
    forall b: BinOp ensures Lone(BinToken(b)) { OperatorsAreSyms(b, None, Plus); }
    forall a: Option<ArithOp> ensures Lone(AssignToken(a)) { OperatorsAreSyms(LogOr, a, Plus); }
    forall u: UnOp ensures Lone(PrefixToken(u)) { OperatorsAreSyms(LogOr, None, u); }
  }

  /** Names are identifiers, and floating constants are spelled as one token. */
  predicate Named(e: Expr) {
    match e
    case Ident(s) => IsIdentifier(s)
    case FloatLit(s) => Lone(FloatTok(s))
    case Binary(_, l, r) => Named(l) && Named(r)
    case Assign(_, l, r) => Named(l) && Named(r)
    case Conditional(c, a, b) => Named(c) && Named(a) && Named(b)
    case Comma(l, r) => Named(l) && Named(r)
    case Unary(_, x) => Named(x)
    case Postfix(_, x) => Named(x)
    case Index(b, i) => Named(b) && Named(i)
    case Call(f, args) => Named(f) && NamedAll(args)
    case Member(b, field, _) => Named(b) && IsIdentifier(field)
    case SizeOf(x) => Named(x)
    case _ => true
  }

  predicate NamedAll(es: seq<Expr>) { es == [] || (Named(es[0]) && NamedAll(es[1..])) }

  lemma LeafLone(e: Expr)
    requires Spellable(e) && Named(e)
    ensures Lone(LeafToken(e))
  {
    hide SpellInt, SpellChar, EscapeText, AllPlain, Lone, IsIdentifier;
    match e
    case IntLit(v, ct) => IntegerLone(v, Decimal, Suffix(ct));
    case FloatLit(_) =>
    case CharLit(code) => CharacterLone(code);
    case StrLit(bytes) => StringLone(bytes);
    case Ident(s) => NameLone(s);
  }

  lemma {:induction false} FitLone(e: Expr, k: nat, rest: seq<Token>)
    requires Printable(e) && Named(e) && AllLone(rest)
    ensures AllLone(Put(Fit(Print(e), k), rest))
    decreases e, 1
  {
    hide Printable, Print, Named, Lone, Level;
    FixedLone();
    PrintLone(e, rest);
    PrintLone(e, Cons(Sym(RParen), rest));
  }

  lemma {:induction false} BinaryLone(e: Expr, rest: seq<Token>)
    requires e.Binary? && Printable(e) && Named(e) && AllLone(rest)
    ensures AllLone(Put(Print(e), rest))
    decreases e, 0, 0
  {
    hide Lone, Level, Fit, BinToken, AssignToken, Production, LeafToken, First;
    FixedLone();
    var k := Production(e.bop);
    FitLone(e.rhs, k + 1, rest);
    FitLone(e.lhs, k, Cons(BinToken(e.bop), Put(Fit(Print(e.rhs), k + 1), rest)));
  }

  lemma {:induction false} AssignLone(e: Expr, rest: seq<Token>)
    requires e.Assign? && Printable(e) && Named(e) && AllLone(rest)
    ensures AllLone(Put(Print(e), rest))
    decreases e, 0, 0
  {
    hide Lone, Level, Fit, BinToken, AssignToken, Production, LeafToken, First;
    FixedLone();
    FitLone(e.rhs, 1, rest);
    FitLone(e.lhs, 13, Cons(AssignToken(e.aop), Put(Fit(Print(e.rhs), 1), rest)));
  }

  lemma {:induction false} ConditionalLone(e: Expr, rest: seq<Token>)
    requires e.Conditional? && Printable(e) && Named(e) && AllLone(rest)
    ensures AllLone(Put(Print(e), rest))
    decreases e, 0, 0
  {
    hide Lone, Level, Fit, BinToken, AssignToken, Production, LeafToken, First;
    FixedLone();
    FitLone(e.els, 2, rest);
    var more := Cons(Sym(Colon), Put(Fit(Print(e.els), 2), rest));
    PrintLone(e.thn, more);
    FitLone(e.cond, 3, Cons(Sym(Question), Put(Print(e.thn), more)));
  }

  lemma {:induction false} CommaLone(e: Expr, rest: seq<Token>)
    requires e.Comma? && Printable(e) && Named(e) && AllLone(rest)
    ensures AllLone(Put(Print(e), rest))
    decreases e, 0, 0
  {
    hide Lone, Level, Fit, BinToken, AssignToken, Production, LeafToken, First;
    FixedLone();
    FitLone(e.rhs, 1, rest);
    PrintLone(e.lhs, Cons(Sym(CommaSign), Put(Fit(Print(e.rhs), 1), rest)));
  }

  lemma {:induction false} UnaryLone(e: Expr, rest: seq<Token>)
    requires (e.Unary? || e.Postfix? || e.SizeOf?) && Printable(e) && Named(e) && AllLone(rest)
    ensures AllLone(Put(Print(e), rest))
    decreases e, 0, 0
  {
    hide Lone, Level, Fit, PrefixToken, First, Production, LeafToken;
    FixedLone();
    if e.Unary? { FitLone(e.operand, 13, rest); }
    else if e.Postfix? { FitLone(e.operand, 14, Cons(Sym(if e.inc then PlusPlus else MinusMinus), rest)); }
    else {
      PrintLone(e.operand, rest);
      PrintLone(e.operand, Cons(Sym(RParen), rest));
    }
  }

  lemma {:induction false} PostfixLone(e: Expr, rest: seq<Token>)
    requires (e.Index? || e.Call? || e.Member?) && Printable(e) && Named(e) && AllLone(rest)
    ensures AllLone(Put(Print(e), rest))
    decreases e, 0, 0
  {
    hide Lone, Level, Fit, IsIdentifier, Production, LeafToken, First;
    FixedLone();
    if e.Index? {
      PrintLone(e.index, Cons(Sym(RBracket), rest));
      FitLone(e.base, 14, Cons(Sym(LBracket), Put(Print(e.index), Cons(Sym(RBracket), rest))));
    } else if e.Call? {
      PrintAllLone(e.args, rest);
      FitLone(e.callee, 14, Cons(Sym(LParen), PutArgs(PrintAll(e.args), rest)));
    } else {
      NameLone(e.field);
      FitLone(e.base, 14, Cons(Sym(if e.arrow then Arrow else Dot), Cons(Name(e.field), rest)));
    }
  }

  lemma {:induction false} PrintLone(e: Expr, rest: seq<Token>)
    requires Printable(e) && Named(e) && AllLone(rest)
    ensures AllLone(Put(Print(e), rest))
    decreases e, 0, 1
  {
    hide Lone, LeafToken, IsIdentifier, Fit;
    if e.Binary? { BinaryLone(e, rest); }
    else if e.Assign? { AssignLone(e, rest); }
    else if e.Conditional? { ConditionalLone(e, rest); }
    else if e.Comma? { CommaLone(e, rest); }
    else if e.Unary? || e.Postfix? || e.SizeOf? { UnaryLone(e, rest); }
    else if e.Index? || e.Call? || e.Member? { PostfixLone(e, rest); }
    else { LeafLone(e); }
  }

  lemma {:induction false} PrintAllLone(es: seq<Expr>, rest: seq<Token>)
    requires PrintableAll(es) && NamedAll(es) && AllLone(rest)
    ensures AllLone(PutArgs(PrintAll(es), rest))
    decreases es, 2
  {
    hide Printable, Print, Named, Lone, Fit, Put;
    FixedLone();
    if es != [] {
      PrintAllLone(es[1..], rest);
      FitLone(es[0], 1, Cons(Sym(RParen), rest));
      FitLone(es[0], 1, Cons(Sym(CommaSign), PutArgs(PrintAll(es[1..]), rest)));
      assert PrintAll(es)[1..] == PrintAll(es[1..]);
    }
  }

  predicate NamedOpt(e: Option<Expr>) { e.Some? ==> Named(e.value) }

  predicate NamedStmt(s: Stmt) {
    match s
    case ExprStmt(e) => NamedOpt(e)
    case Block(ss) => NamedStmts(ss)
    case If(c, a, b) => Named(c) && NamedStmt(a) && (b.Some? ==> NamedStmt(b.value))
    case While(c, b) => Named(c) && NamedStmt(b)
    case Do(b, c) => NamedStmt(b) && Named(c)
    case For(i, c, p, b) => NamedOpt(i) && NamedOpt(c) && NamedOpt(p) && NamedStmt(b)
    case Switch(c, b) => Named(c) && NamedStmt(b)
    case Case(v, b) => Named(v) && NamedStmt(b)
    case Default(b) => NamedStmt(b)
    case Return(e) => NamedOpt(e)
    case Goto(n) => IsIdentifier(n)
    case Label(n, b) => IsIdentifier(n) && NamedStmt(b)
    case VarDecl(n, _, e) => IsIdentifier(n) && NamedOpt(e)
    case _ => true
  }

  predicate NamedStmts(ss: seq<Stmt>) { ss == [] || (NamedStmt(ss[0]) && NamedStmts(ss[1..])) }

  lemma OptLone(e: Option<Expr>, end: Token, rest: seq<Token>)
    requires PrintableOpt(e) && NamedOpt(e) && end.Sym? && AllLone(rest)
    ensures AllLone(PutOpt(PrintOpt(e), end, rest))
  {
    hide Printable, Print, Named, Lone, Put;
    FixedLone();
    if e.Some? { PrintLone(e.value, Cons(end, rest)); }
  }

  lemma TestLone(e: Expr, rest: seq<Token>)
    requires Printable(e) && Named(e) && AllLone(rest)
    ensures AllLone(PutTest(Print(e), rest))
  {
    hide Printable, Print, Named, Lone, Put;
    FixedLone();
    PrintLone(e, Cons(Sym(RParen), rest));
  }

  lemma {:induction false} SpecsLone(specs: seq<Keyword>, rest: seq<Token>)
    requires AllLone(rest)
    ensures AllLone(PutSpecs(specs, rest))
  {
    hide Lone;
    FixedLone();
    if specs != [] { SpecsLone(specs[1..], rest); }
  }

  lemma DeclLone(s: Stmt, rest: seq<Token>)
    requires s.VarDecl? && PrintableStmt(s) && NamedStmt(s) && AllLone(rest)
    ensures AllLone(PutStmt(PrintStmt(s), rest))
  {
    hide Printable, Print, Named, Lone, Put, SpecsFor, Fit, PutSpecs, PutDecl, IsIdentifier;
    var ds := PrintStmt(s).ds;
    FixedLone();
    DeclaratorLone(s, Cons(Sym(Semi), rest));
    SpecsLone(SpecsFor(s.declType), PutDecls(ds, rest));
  }

  lemma DeclaratorLone(s: Stmt, rest: seq<Token>)
    requires s.VarDecl? && PrintableStmt(s) && NamedStmt(s) && AllLone(rest)
    ensures AllLone(PutDecl(PrintStmt(s).ds[0], rest))
  {
    hide Printable, Print, Named, Lone, Put, SpecsFor, Fit, PutSpecs, IsIdentifier;
    FixedLone();
    NameLone(s.name);
    if s.initial.Some? {
      FitLone(s.initial.value, 1, rest);
      assert AllLone(Cons(Sym(EqSign), Put(Fit(Print(s.initial.value), 1), rest)));
    }
  }

  lemma {:induction false} LoopLone(s: Stmt, rest: seq<Token>)
    requires (s.While? || s.Switch? || s.Do? || s.For?) && PrintableStmt(s) && NamedStmt(s) && AllLone(rest)
    ensures AllLone(PutStmt(PrintStmt(s), rest))
    decreases s, 0, 0
  {
    hide Printable, Print, Named, Lone, Put, PutOpt, PutTest, PrintOpt, PrintableOpt, NamedOpt, PrintDecl, Fit,
      IsIdentifier;
    FixedLone();
    if s.Do? {
      var more := Cons(Sym(Semi), rest);
      TestLone(s.cond, more);
      StmtLone(s.body, Cons(Kw(KwWhile), PutTest(Print(s.cond), more)));
    } else if s.For? {
      StmtLone(s.body, rest);
      var ts3 := PutStmt(PrintStmt(s.body), rest);
      OptLone(s.post, Sym(RParen), ts3);
      var ts2 := PutOpt(PrintOpt(s.post), Sym(RParen), ts3);
      OptLone(s.test, Sym(Semi), ts2);
      OptLone(s.init, Sym(Semi), PutOpt(PrintOpt(s.test), Sym(Semi), ts2));
    } else {
      StmtLone(s.body, rest);
      TestLone(s.cond, PutStmt(PrintStmt(s.body), rest));
    }
  }

  lemma {:induction false} IfLone(s: Stmt, rest: seq<Token>)
    requires s.If? && PrintableStmt(s) && NamedStmt(s) && AllLone(rest)
    ensures AllLone(PutStmt(PrintStmt(s), rest))
    decreases s, 0, 0
  {
    hide Printable, Print, Named, Lone, Put, PutOpt, PutTest, PrintOpt, PrintableOpt, NamedOpt, PrintDecl, Fit,
      IsIdentifier;
    FixedLone();
    if s.els.Some? { StmtLone(s.els.value, rest); }
    var more := if s.els.Some? then Cons(Kw(KwElse), PutStmt(PrintStmt(s.els.value), rest)) else rest;
    StmtLone(s.thn, more);
    TestLone(s.cond, PutStmt(PrintStmt(s.thn), more));
  }

  lemma {:induction false} LabelledLone(s: Stmt, rest: seq<Token>)
    requires (s.Case? || s.Default? || s.Label?) && PrintableStmt(s) && NamedStmt(s) && AllLone(rest)
    ensures AllLone(PutStmt(PrintStmt(s), rest))
    decreases s, 0, 0
  {
    hide Printable, Print, Named, Lone, Put, PutOpt, PutTest, PrintOpt, PrintableOpt, NamedOpt, PrintDecl, Fit,
      IsIdentifier;
    FixedLone();
    StmtLone(s.body, rest);
    var more := Cons(Sym(Colon), PutStmt(PrintStmt(s.body), rest));
    if s.Case? { FitLone(s.value, 2, more); }
    if s.Label? { NameLone(s.name); }
  }

  lemma JumpLone(s: Stmt, rest: seq<Token>)
    requires (s.Goto? || s.Return? || s.Break? || s.Continue?) && PrintableStmt(s) && NamedStmt(s) && AllLone(rest)
    ensures AllLone(PutStmt(PrintStmt(s), rest))
  {
    hide Printable, Print, Named, Lone, Put, PutOpt, PutTest, PrintOpt, PrintableOpt, NamedOpt, PrintDecl, Fit,
      IsIdentifier;
    FixedLone();
    var more := Cons(Sym(Semi), rest);
    if s.Goto? {
      NameLone(s.name);
      assert AllLone(Cons(Name(s.name), more));
    }
    if s.Return? { OptLone(s.e, Sym(Semi), rest); }
  }

  lemma {:induction false} StmtLone(s: Stmt, rest: seq<Token>)
    requires PrintableStmt(s) && NamedStmt(s) && AllLone(rest)
    ensures AllLone(PutStmt(PrintStmt(s), rest))
    decreases s, 0, 1
  {
    hide PrintableStmts, NamedStmts, PrintStmts, Printable, Print, Named, Lone, AllLone;
    if s.ExprStmt? { ExprStmtLone(s, rest); }
    else if s.Block? {
      StmtsLone(s.stmts, rest);
      BraceLone(PutItems(PrintStmts(s.stmts), rest));
    }
    else if s.If? { IfLone(s, rest); }
    else if s.While? || s.Switch? || s.Do? || s.For? { LoopLone(s, rest); }
    else if s.Case? || s.Default? || s.Label? { LabelledLone(s, rest); }
    else if s.VarDecl? { DeclLone(s, rest); }
    else { JumpLone(s, rest); }
  }

  lemma BraceLone(rest: seq<Token>)
    requires AllLone(rest)
    ensures AllLone(Cons(Sym(LBrace), rest))
  {
    hide Lone;
    FixedLone();
  }

  lemma ExprStmtLone(s: Stmt, rest: seq<Token>)
    requires s.ExprStmt? && PrintableStmt(s) && NamedStmt(s) && AllLone(rest)
    ensures AllLone(PutStmt(PrintStmt(s), rest))
  {
    hide Printable, Print, Named, Lone, Put;
    FixedLone();
    if s.e.Some? { PrintLone(s.e.value, Cons(Sym(Semi), rest)); }
  }

  lemma {:induction false} StmtsLone(ss: seq<Stmt>, rest: seq<Token>)
    requires PrintableStmts(ss) && NamedStmts(ss) && AllLone(rest)
    ensures AllLone(PutItems(PrintStmts(ss), rest))
    decreases ss, 1
  {
    hide PrintableStmt, PrintStmt, NamedStmt, Lone, PutStmt;
    FixedLone();
    if ss != [] {
      StmtsLone(ss[1..], rest);
      StmtLone(ss[0], PutItems(PrintStmts(ss[1..]), rest));
      assert PrintStmts(ss)[1..] == PrintStmts(ss[1..]);
    }
  }

  predicate NamedFunction(f: Func) {
    IsIdentifier(f.name) && (forall p :: p in f.params ==> IsIdentifier(p.name)) && NamedStmts(f.body)
  }

  lemma {:induction false} ParamsLone(ps: seq<Param>, rest: seq<Token>)
    requires ps != [] && (forall p :: p in ps ==> IsIdentifier(p.name)) && AllLone(rest)
    ensures AllLone(PutListed(PrintParams(ps), rest))
    decreases |ps|
  {
    hide Lone, IsIdentifier, SpecsFor, PutSpecs;
    FixedLone();
    NameLone(ps[0].name);
    var forms := PrintParams(ps);
    assert forms[0] == ParamForm(SpecsFor(ps[0].ptype), ps[0].name) && forms[1..] == PrintParams(ps[1..]);
    if |ps| > 1 {
      SomeParams(ps[1..]);
      ParamsLone(ps[1..], rest);
    }
    SpecsLone(SpecsFor(ps[0].ptype), Cons(Name(ps[0].name), AfterParam(forms, rest)));
  }

  lemma FunctionLone(f: Func, rest: seq<Token>)
    requires PrintableStmts(f.body) && NamedFunction(f) && AllLone(rest)
    ensures AllLone(PutFunction(f, rest))
  {
    hide Lone, IsIdentifier, SpecsFor, PutSpecs, PutListed, PrintParams, PutItems, PrintStmts, PrintableStmts,
      NamedStmts;
    FixedLone();
    StmtsLone(f.body, rest);
    var body := Cons(Sym(LBrace), PutItems(PrintStmts(f.body), rest));
    if f.params != [] { ParamsLone(f.params, body); }
    var params := PutList(PrintFunction(f).params, body);
    assert AllLone(params);
    assert AllLone(Cons(Sym(LParen), params));
    NameLone(f.name);
    SpecsLone(SpecsFor(f.result), Cons(Name(f.name), Cons(Sym(LParen), params)));
  }

  predicate NamedUnit(fs: seq<Func>) { forall f :: f in fs ==> NamedFunction(f) }

  lemma {:induction false} UnitLone(fs: seq<Func>)
    requires PrintableUnit(fs) && NamedUnit(fs)
    ensures AllLone(PutUnit(fs))
    decreases |fs|
  {
    hide PutFunction, NamedFunction, PrintableStmts, Lone;
    if fs != [] {
      UnitLone(fs[1..]);
      FunctionLone(fs[0], PutUnit(fs[1..]));
    }
  }

  // ----- the whole way -----

  /** The text of a file: its tokens with single spaces. */
  function Text(fs: seq<Func>): string
    requires PrintableUnit(fs)
  {
    Join(PutUnit(fs))
  }

  /** The printed text lexes to the tokens of the file, and these parse back exactly when nothing dangles. */
  lemma TextReadsBack(fs: seq<Func>)
    requires PrintableUnit(fs) && NamedUnit(fs)
    ensures LexAll(Text(fs)) == Scan(PutUnit(fs), true)
    ensures ParseUnit([], LexAll(Text(fs)).tokens) == Ok(fs, []) <==> UnitNoDangling(fs)
  {
    hide LexAll, Lone, PutUnit, ParseUnit, PrintableUnit, NamedUnit, UnitNoDangling;
    UnitLone(fs);
    AllLoneIn(PutUnit(fs));
    JoinLexes(PutUnit(fs));
    PrintedUnit(fs);
  }
}
