/** Printing trees with as few parentheses as the grammar needs; the parser inverts it. */
module Printer {
  import opened Options
  import opened Words
  import opened Ast
  import opened Tokens
  import opened Literals
  import opened Parsing
  import opened Grammar
  import opened ExprGrammar
  import opened StmtGrammar

  // ----- leaves -----

  /** The suffix that gives a literal its type. */
  function Suffix(ct: CType): string {
    match ct
    case CInt(true) => "u"
    case CLong(true) => "ul"
    case CLong(false) => "l"
    case _ => ""
  }

  /** Integers below 2^63 of a type that can hold them, characters, and strings of printable or escapable bytes. */
  predicate Spellable(e: Expr) {
    match e
    case IntLit(v, ct) =>
      0 <= v < M64 / 2 && (ct in {CInt(true), CLong(true), CLong(false)} || (ct == CInt(false) && v <= 0x7fff_ffff))
    case FloatLit(_) => true
    case CharLit(code) => code < 256
    case StrLit(bytes) => AllPlain(bytes)
    case Ident(_) => true
    case _ => false
  }

  function LeafToken(e: Expr): Token
    requires Spellable(e)
  {
    match e
    case IntLit(v, ct) => IntTok(SpellInt(v, Decimal) + Suffix(ct))
    case FloatLit(s) => FloatTok(s)
    case CharLit(code) => CharTok(SpellChar(code))
    case StrLit(bytes) => StrTok("\"" + EscapeText(bytes) + "\"")
    case Ident(s) => Name(s)
  }

  lemma {:induction false} DecimalDigits(n: nat)
    ensures forall i :: 0 <= i < |Digits(n, 10, false)| ==> IsDigit(Digits(n, 10, false)[i])
  {
    if n > 0 {
      DecimalDigits(n / 10);
      DecimalDigit(n % 10);
    }
  }

  lemma DecimalDigit(d: nat)
    requires d < 10
    ensures IsDigit(DigitChar(d, false))
  {
  }

  lemma SpelledType(v: nat, ct: CType)
    requires Spellable(IntLit(v, ct))
    ensures IntType(v, SpellInt(v, Decimal) + Suffix(ct)) == ct
  {
    hide Digits;
    DecimalDigits(v);
    var d := SpellInt(v, Decimal);
    assert forall c :: c in d ==> IsDigit(c);
    var s := d + Suffix(ct);
    assert ct.CLong? ==> s[|s| - 1] == 'l' && 'l' in s;
    if ct.isUnsigned { assert s[|d|] == 'u' && 'u' in s; }
  }

  lemma LeafSpelled(e: Expr)
    requires Spellable(e)
    ensures LeafOf(LeafToken(e)) == Some(e)
  {
    hide DecodeInt, SpellInt, IntType, DecodeChar, SpellChar, DecodeStr, EscapeText, AllPlain;
    match e
    case IntLit(v, ct) =>
      SpelledType(v, ct);
      IntRoundTrip(v, Decimal, Suffix(ct));
    case CharLit(code) => CharRoundTrip(code);
    case StrLit(bytes) => EscapeRoundTrip(bytes);
    case _ =>
  }

  // ----- expressions -----

  predicate Printable(e: Expr) {
    match e
    case Binary(_, l, r) => Printable(l) && Printable(r)
    case Assign(_, l, r) => Printable(l) && Printable(r)
    case Conditional(c, a, b) => Printable(c) && Printable(a) && Printable(b)
    case Comma(l, r) => Printable(l) && Printable(r)
    case Unary(_, x) => Printable(x)
    case Postfix(_, x) => Printable(x)
    case Index(b, i) => Printable(b) && Printable(i)
    case Call(f, args) => Printable(f) && PrintableAll(args)
    case Member(b, _, _) => Printable(b)
    case SizeOf(x) => Printable(x)
    case _ => Spellable(e)
  }

  predicate PrintableAll(es: seq<Expr>) { es == [] || (Printable(es[0]) && PrintableAll(es[1..])) }

  /** Parentheses only around what binds less tightly than its place asks for. */
  function Fit(c: Cst, k: nat): Cst { if Level(c) >= k then c else Paren(c) }

  function Print(e: Expr): Cst
    requires Printable(e)
  {
    match e
    case Binary(op, l, r) =>
      var k := Production(op);
      Bin(op, Fit(Print(l), k), Fit(Print(r), k + 1))
    case Assign(op, l, r) => Asg(op, Fit(Print(l), 13), Fit(Print(r), 1))
    case Conditional(c, a, b) => Cnd(Fit(Print(c), 3), Print(a), Fit(Print(b), 2))
    case Comma(l, r) => Com(Print(l), Fit(Print(r), 1))
    case Unary(op, x) => Pre(op, Fit(Print(x), 13))
    case Postfix(inc, x) => Pst(Fit(Print(x), 14), inc)
    case Index(b, i) => Idx(Fit(Print(b), 14), Print(i))
    case Call(f, args) => App(Fit(Print(f), 14), PrintAll(args))
    case Member(b, field, arrow) => Mem(Fit(Print(b), 14), field, arrow)
    case SizeOf(x) =>
      var c := Print(x);
      if Level(c) >= 13 && First(c) != Sym(LParen) then Siz(c) else SizParen(c)
    case _ => Leaf(LeafToken(e))
  }

  function PrintAll(es: seq<Expr>): seq<Cst>
    requires PrintableAll(es)
  {
    if es == [] then [] else [Fit(Print(es[0]), 1)] + PrintAll(es[1..])
  }

  lemma FitKeeps(c: Cst, k: nat)
    requires WellFormed(c) && k <= 15
    ensures WellFormed(Fit(c, k)) && Level(Fit(c, k)) >= k && Erase(Fit(c, k)) == Erase(c)
  {
  }

  lemma {:induction false} BinaryDerives(e: Expr)
    requires e.Binary? && Printable(e)
    ensures WellFormed(Print(e)) && Erase(Print(e)) == e
    decreases e, 0
  {
    hide LeafOf, Spellable, LeafToken, Fit, First, Production;
    PrintDerives(e.lhs);
    PrintDerives(e.rhs);
    OperatorPrecedence(e.bop);
    var k := Production(e.bop);
    FitKeeps(Print(e.lhs), k);
    FitKeeps(Print(e.rhs), k + 1);
  }

  lemma {:induction false} AssignDerives(e: Expr)
    requires e.Assign? && Printable(e)
    ensures WellFormed(Print(e)) && Erase(Print(e)) == e
    decreases e, 0
  {
    hide LeafOf, Spellable, LeafToken, Fit, First, Production;
    PrintDerives(e.lhs);
    PrintDerives(e.rhs);
    FitKeeps(Print(e.lhs), 13);
    FitKeeps(Print(e.rhs), 1);
  }

  lemma {:induction false} ConditionalDerives(e: Expr)
    requires e.Conditional? && Printable(e)
    ensures WellFormed(Print(e)) && Erase(Print(e)) == e
    decreases e, 0
  {
    hide LeafOf, Spellable, LeafToken, Fit, First, Production;
    PrintDerives(e.cond);
    PrintDerives(e.thn);
    PrintDerives(e.els);
    FitKeeps(Print(e.cond), 3);
    FitKeeps(Print(e.els), 2);
  }

  lemma {:induction false} CommaDerives(e: Expr)
    requires e.Comma? && Printable(e)
    ensures WellFormed(Print(e)) && Erase(Print(e)) == e
    decreases e, 0
  {
    hide LeafOf, Spellable, LeafToken, Fit, First, Production;
    PrintDerives(e.lhs);
    PrintDerives(e.rhs);
    FitKeeps(Print(e.rhs), 1);
  }

  lemma {:induction false} UnaryDerives(e: Expr)
    requires (e.Unary? || e.Postfix? || e.SizeOf?) && Printable(e)
    ensures WellFormed(Print(e)) && Erase(Print(e)) == e
    decreases e, 0
  {
    hide LeafOf, Spellable, LeafToken, Fit, Production;
    PrintDerives(e.operand);
    FitKeeps(Print(e.operand), if e.Unary? then 13 else 14);
  }

  lemma {:induction false} PostfixDerives(e: Expr)
    requires (e.Index? || e.Call? || e.Member?) && Printable(e)
    ensures WellFormed(Print(e)) && Erase(Print(e)) == e
    decreases e, 0
  {
    hide LeafOf, Spellable, LeafToken, Fit, Production;
    if e.Call? {
      PrintDerives(e.callee);
      PrintAllDerives(e.args);
      FitKeeps(Print(e.callee), 14);
    } else {
      PrintDerives(e.base);
      FitKeeps(Print(e.base), 14);
      if e.Index? { PrintDerives(e.index); }
    }
  }

  lemma LeafDerives(e: Expr)
    requires (e.IntLit? || e.FloatLit? || e.CharLit? || e.StrLit? || e.Ident?) && Printable(e)
    ensures WellFormed(Print(e)) && Erase(Print(e)) == e
  {
    hide LeafOf, Spellable, LeafToken, Fit, First;
    LeafSpelled(e);
  }

  /** The printed form is a derivation of the tree. */
  lemma {:induction false} PrintDerives(e: Expr)
    requires Printable(e)
    ensures WellFormed(Print(e)) && Erase(Print(e)) == e
    decreases e, 1
  {
    hide Printable, Print, WellFormed, Erase;
    if e.Binary? { BinaryDerives(e); }
    else if e.Assign? { AssignDerives(e); }
    else if e.Conditional? { ConditionalDerives(e); }
    else if e.Comma? { CommaDerives(e); }
    else if e.Unary? || e.Postfix? || e.SizeOf? { UnaryDerives(e); }
    else if e.Index? || e.Call? || e.Member? { PostfixDerives(e); }
    else { LeafDerives(e); }
  }

  lemma {:induction false} PrintAllDerives(es: seq<Expr>)
    requires PrintableAll(es)
    ensures WellFormedArgs(PrintAll(es)) && EraseArgs(PrintAll(es)) == es
  {
    hide Printable, Print, WellFormed, Erase, Level, Fit;
    if es != [] {
      PrintDerives(es[0]);
      FitKeeps(Print(es[0]), 1);
      PrintAllDerives(es[1..]);
      assert PrintAll(es)[1..] == PrintAll(es[1..]);
      assert [es[0]] + es[1..] == es;
    }
  }

  /** Parsing the printed form of any tree gives the tree back and stops at the token that follows. */
  lemma PrintedExpression(e: Expr, rest: seq<Token>)
    requires Printable(e) && Extends(Cur(rest)) < 0
    ensures ParseExpression(Put(Print(e), rest)) == Ok(e, rest)
  {
    PrintDerives(e);
    ExpressionComplete(Print(e), rest);
  }

  // ----- statements -----

  function SpecsFor(ct: CType): seq<Keyword> {
    match ct
    case CVoid => [KwVoid]
    case CBool => [KwBool]
    case CChar(u) => if u then [KwUnsigned, KwChar] else [KwChar]
    case CShort(u) => if u then [KwUnsigned, KwShort] else [KwShort]
    case CInt(u) => if u then [KwUnsigned, KwInt] else [KwInt]
    case CLong(u) => if u then [KwUnsigned, KwLong] else [KwLong]
    case CFloat => [KwFloat]
    case CDouble => [KwDouble]
  }

  lemma SpecsGiveType(ct: CType)
    ensures SpecifiedType(SpecsFor(ct)) == ct && SpecsFor(ct) != [] && StartsDecl(Kw(SpecsFor(ct)[0]))
    ensures forall k :: k in SpecsFor(ct) ==> TypeKeyword(Kw(k))
  {
  }

  predicate PrintableOpt(e: Option<Expr>) { e.Some? ==> Printable(e.value) }

  predicate PrintableStmt(s: Stmt) {
    match s
    case ExprStmt(e) => PrintableOpt(e)
    case Block(ss) => PrintableStmts(ss)
    case If(c, a, b) => Printable(c) && PrintableStmt(a) && (b.Some? ==> PrintableStmt(b.value))
    case While(c, b) => Printable(c) && PrintableStmt(b)
    case Do(b, c) => PrintableStmt(b) && Printable(c)
    case For(i, c, p, b) => PrintableOpt(i) && PrintableOpt(c) && PrintableOpt(p) && PrintableStmt(b)
    case Switch(c, b) => Printable(c) && PrintableStmt(b)
    case Case(v, b) => Printable(v) && PrintableStmt(b)
    case Default(b) => PrintableStmt(b)
    case Return(e) => PrintableOpt(e)
    case Label(_, b) => PrintableStmt(b)
    case VarDecl(_, _, e) => PrintableOpt(e)
    case _ => true
  }

  predicate PrintableStmts(ss: seq<Stmt>) { ss == [] || (PrintableStmt(ss[0]) && PrintableStmts(ss[1..])) }

  /** Whether the statement ends in an `if` without `else`. */
  predicate EndsInIf(s: Stmt) {
    match s
    case If(_, _, None) => true
    case If(_, _, Some(b)) => EndsInIf(b)
    case While(_, b) => EndsInIf(b)
    case For(_, _, _, b) => EndsInIf(b)
    case Switch(_, b) => EndsInIf(b)
    case Case(_, b) => EndsInIf(b)
    case Default(b) => EndsInIf(b)
    case Label(_, b) => EndsInIf(b)
    case _ => false
  }

  /** No branch before an `else` ends in an `if` that would take it. */
  predicate NoDangling(s: Stmt) {
    match s
    case If(_, a, b) => NoDangling(a) && (b.Some? ==> !EndsInIf(a) && NoDangling(b.value))
    case Block(ss) => NoneDangling(ss)
    case While(_, b) => NoDangling(b)
    case Do(b, _) => NoDangling(b)
    case For(_, _, _, b) => NoDangling(b)
    case Switch(_, b) => NoDangling(b)
    case Case(_, b) => NoDangling(b)
    case Default(b) => NoDangling(b)
    case Label(_, b) => NoDangling(b)
    case _ => true
  }

  predicate NoneDangling(ss: seq<Stmt>) { ss == [] || (NoDangling(ss[0]) && NoneDangling(ss[1..])) }

  function PrintOpt(e: Option<Expr>): Option<Cst>
    requires PrintableOpt(e)
  {
    if e.Some? then Some(Print(e.value)) else None
  }

  function PrintStmt(s: Stmt): Sst
    requires PrintableStmt(s)
  {
    hide Printable, Print, Fit, PrintOpt;
    match s
    case ExprStmt(e) => if e.Some? then SExpr(Print(e.value)) else SNull
    case Block(ss) => SBlock(PrintStmts(ss))
    case If(c, a, b) => SIf(Print(c), PrintStmt(a), if b.Some? then Some(PrintStmt(b.value)) else None)
    case While(c, b) => SLoop(false, Print(c), PrintStmt(b))
    case Switch(c, b) => SLoop(true, Print(c), PrintStmt(b))
    case Do(b, c) => SDo(PrintStmt(b), Print(c))
    case For(i, c, p, b) => SFor(PrintOpt(i), PrintOpt(c), PrintOpt(p), PrintStmt(b))
    case Case(v, b) => SCase(Fit(Print(v), 2), PrintStmt(b))
    case Default(b) => SDefault(PrintStmt(b))
    case Return(e) => SReturn(PrintOpt(e))
    case Break => SBreak
    case Continue => SContinue
    case Goto(n) => SGoto(n)
    case Label(n, b) => SLabel(n, PrintStmt(b))
    case VarDecl(n, ct, e) => PrintDecl(n, ct, e)
  }

  function PrintDecl(name: string, ct: CType, e: Option<Expr>): Sst
    requires PrintableOpt(e)
  {
    SDecl(SpecsFor(ct), [Declarator(name, if e.Some? then Some(Fit(Print(e.value), 1)) else None)])
  }

  function PrintStmts(ss: seq<Stmt>): seq<Sst>
    requires PrintableStmts(ss)
  {
    if ss == [] then [] else [PrintStmt(ss[0])] + PrintStmts(ss[1..])
  }

  lemma PrintOptDerives(e: Option<Expr>)
    requires PrintableOpt(e)
    ensures WellFormedOpt(PrintOpt(e)) && EraseOpt(PrintOpt(e)) == e
  {
    hide WellFormed, Erase, Print, Printable;
    if e.Some? { PrintDerives(e.value); }
  }

  lemma {:induction false} SameEnd(s: Stmt)
    requires PrintableStmt(s)
    ensures OpenEnd(PrintStmt(s)) == EndsInIf(s)
  {
    hide Printable, PrintableOpt, Print, PrintOpt, SpecsFor, Fit;
    match s
    case If(_, a, b) => if b.Some? { SameEnd(b.value); }
    case While(_, b) => SameEnd(b);
    case For(_, _, _, b) => SameEnd(b);
    case Switch(_, b) => SameEnd(b);
    case Case(_, b) => SameEnd(b);
    case Default(b) => SameEnd(b);
    case Label(_, b) => SameEnd(b);
    case _ =>
  }

  lemma DeclarationDerives(s: Stmt)
    requires s.VarDecl? && PrintableStmt(s)
    ensures WellFormedStmt(PrintStmt(s)) && EraseStmt(PrintStmt(s)) == s
  {
    hide Printable, Print, SpecsFor, Fit, WellFormed, Erase, Level, StartsDecl, TypeKeyword, SpecifiedType;
    SpecsGiveType(s.declType);
    if s.initial.Some? {
      PrintDerives(s.initial.value);
      FitKeeps(Print(s.initial.value), 1);
    }
    assert EraseDecls(s.declType, PrintStmt(s).ds) == [s];
  }

  lemma {:induction false} PrintStmtDerives(s: Stmt)
    requires PrintableStmt(s) && NoDangling(s)
    ensures WellFormedStmt(PrintStmt(s)) && EraseStmt(PrintStmt(s)) == s
    decreases s, 1
  {
    hide *;
    if s.If? { IfDerives(s); }
    else if s.While? || s.Switch? || s.Do? || s.For? { LoopDerives(s); }
    else { OtherDerives(s); }
  }

  lemma {:induction false} IfDerives(s: Stmt)
    requires s.If? && PrintableStmt(s) && NoDangling(s)
    ensures WellFormedStmt(PrintStmt(s)) && EraseStmt(PrintStmt(s)) == s
    decreases s, 0
  {
    hide Printable, PrintableOpt, Print, PrintOpt, SpecsFor, Fit, WellFormed, Erase, WellFormedOpt, EraseOpt, Level;
    hide WellFormedDecls, EraseDecls, SpecifiedType, StartsDecl, TypeKeyword, OpenEnd, EndsInIf;
    PrintDerives(s.cond);
    PrintStmtDerives(s.thn);
    if s.els.Some? {
      PrintStmtDerives(s.els.value);
      SameEnd(s.thn);
    }
  }

  lemma {:induction false} LoopDerives(s: Stmt)
    requires (s.While? || s.Switch? || s.Do? || s.For?) && PrintableStmt(s) && NoDangling(s)
    ensures WellFormedStmt(PrintStmt(s)) && EraseStmt(PrintStmt(s)) == s
    decreases s, 0
  {
    hide Printable, PrintableOpt, Print, PrintOpt, SpecsFor, Fit, WellFormed, Erase, WellFormedOpt, EraseOpt, Level;
    hide WellFormedDecls, EraseDecls, SpecifiedType, StartsDecl, TypeKeyword, OpenEnd, EndsInIf;
    PrintStmtDerives(s.body);
    if s.For? {
      PrintOptDerives(s.init);
      PrintOptDerives(s.test);
      PrintOptDerives(s.post);
    } else {
      PrintDerives(s.cond);
    }
  }

  lemma {:induction false} OtherDerives(s: Stmt)
    requires !s.If? && !s.While? && !s.Switch? && !s.Do? && !s.For? && PrintableStmt(s) && NoDangling(s)
    ensures WellFormedStmt(PrintStmt(s)) && EraseStmt(PrintStmt(s)) == s
    decreases s, 0
  {
    hide Printable, PrintableOpt, Print, PrintOpt, SpecsFor, Fit, WellFormed, Erase, WellFormedOpt, EraseOpt, Level;
    hide WellFormedDecls, EraseDecls, SpecifiedType, StartsDecl, TypeKeyword, OpenEnd, EndsInIf;
    match s
    case ExprStmt(e) => if e.Some? { PrintExprStmt(s); }
    case Block(ss) => PrintStmtsDerive(ss);
    case Case(v, b) => PrintDerives(v); FitKeeps(Print(v), 2); PrintStmtDerives(b);
    case Default(b) => PrintStmtDerives(b);
    case Return(e) => PrintOptDerives(e);
    case Label(_, b) => PrintStmtDerives(b);
    case VarDecl(_, _, _) => DeclarationDerives(s);
    case _ =>
  }

  lemma PrintExprStmt(s: Stmt)
    requires s.ExprStmt? && s.e.Some? && PrintableStmt(s)
    ensures WellFormedStmt(PrintStmt(s)) && EraseStmt(PrintStmt(s)) == s
  {
    hide Printable, Print, WellFormed, Erase;
    PrintDerives(s.e.value);
  }

  lemma {:induction false} PrintStmtsDerive(ss: seq<Stmt>)
    requires PrintableStmts(ss) && NoneDangling(ss)
    ensures WellFormedItems(PrintStmts(ss)) && EraseItems(PrintStmts(ss)) == ss
    decreases ss, 2
  {
    hide PrintableStmt, PrintStmt, WellFormedStmt, EraseStmt, NoDangling;
    if ss != [] {
      PrintStmtDerives(ss[0]);
      PrintStmtsDerive(ss[1..]);
      assert PrintStmts(ss)[1..] == PrintStmts(ss[1..]);
      assert [ss[0]] + ss[1..] == ss;
    }
  }

  /** The tree of a well-formed statement has no dangling `if`. */
  lemma {:induction false} ErasedNoDangling(s: Sst)
    requires WellFormedStmt(s)
    ensures NoDangling(EraseStmt(s)) && EndsInIf(EraseStmt(s)) == OpenEnd(s)
  {
    hide WellFormed, Erase, WellFormedOpt, EraseOpt, Level, WellFormedDecls, EraseDecls, SpecifiedType, StartsDecl,
      TypeKeyword;
    match s
    case SBlock(items) => ErasedItems(items);
    case SIf(_, a, b) => ErasedNoDangling(a); if b.Some? { ErasedNoDangling(b.value); }
    case SLoop(_, _, b) => ErasedNoDangling(b);
    case SDo(b, _) => ErasedNoDangling(b);
    case SFor(_, _, _, b) => ErasedNoDangling(b);
    case SCase(_, b) => ErasedNoDangling(b);
    case SDefault(b) => ErasedNoDangling(b);
    case SLabel(_, b) => ErasedNoDangling(b);
    case SDecl(_, _) => ErasedDeclaration(s);
    case _ =>
  }

  lemma ErasedDeclaration(s: Sst)
    requires s.SDecl? && WellFormedStmt(s)
    ensures NoDangling(EraseStmt(s)) && !EndsInIf(EraseStmt(s))
  {
    hide WellFormed, Erase, WellFormedOpt, EraseOpt, Level, WellFormedDecls, EraseDecls, SpecifiedType, StartsDecl,
      TypeKeyword;
    var ct := SpecifiedType(s.specs);
    ErasedDecls(ct, s.ds);
    var r := EraseDecls(ct, s.ds);
    if |r| == 1 { assert r[0] in r; }
  }

  lemma {:induction false} ErasedDecls(ct: CType, ds: seq<Declarator>)
    requires ds == [] || WellFormedDecls(ds)
    ensures NoneDangling(EraseDecls(ct, ds))
    ensures forall d :: d in EraseDecls(ct, ds) ==> d.VarDecl?
    decreases |ds|
  {
    hide WellFormed, Erase, Level;
    if ds != [] {
      ErasedDecls(ct, ds[1..]);
      assert EraseDecls(ct, ds)[1..] == EraseDecls(ct, ds[1..]);
    }
  }

  lemma {:induction false} ErasedItems(items: seq<Sst>)
    requires WellFormedItems(items)
    ensures NoneDangling(EraseItems(items))
  {
    hide WellFormedStmt, EraseStmt, NoDangling;
    if items != [] {
      ErasedNoDangling(items[0]);
      ErasedItems(items[1..]);
      assert EraseItems(items)[1..] == EraseItems(items[1..]);
    }
  }

  /** The parser returns a printed statement exactly when none of its branches dangles. */
  lemma PrintedStatement(s: Stmt)
    requires PrintableStmt(s)
    ensures ParseStatement(PutStmt(PrintStmt(s), [])) == Ok(s, []) <==> NoDangling(s)
  {
    hide ParseStatement, NoDangling, PrintStmt, PrintableStmt, EraseStmt, WellFormedStmt, PutStmt;
    var ts := PutStmt(PrintStmt(s), []);
    if NoDangling(s) {
      PrintStmtDerives(s);
      StatementComplete(PrintStmt(s), []);
    }
    if ParseStatement(ts) == Ok(s, []) {
      var d := StatementSound(ts);
      ErasedNoDangling(d);
    }
  }
}
