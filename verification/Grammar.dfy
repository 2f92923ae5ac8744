/**
 The language the parser is for, given independently of it: derivation trees
 with parentheses kept, their tokens, and the syntax trees they denote.
 */
module Grammar {
  import opened Options
  import opened Words
  import opened Ast
  import opened Tokens
  import opened Parsing

  // ----- expressions -----

  datatype Cst =
    | Leaf(tok: Token)
    | Paren(e: Cst)
    | Idx(base: Cst, index: Cst)
    | App(callee: Cst, args: seq<Cst>)
    | Mem(base: Cst, field: string, arrow: bool)
    | Pst(e: Cst, inc: bool)
    | Pre(uop: UnOp, e: Cst)
    | Siz(e: Cst)
    | SizParen(e: Cst)
    | Bin(bop: BinOp, l: Cst, r: Cst)
    | Cnd(c: Cst, a: Cst, b: Cst)
    | Asg(aop: Option<ArithOp>, l: Cst, r: Cst)
    | Com(l: Cst, r: Cst)

  /**
   The production of an operator, numbered from the loosest to the tightest: logical OR (section 6.5.14
   of ISO C11), logical AND (6.5.13), inclusive OR (6.5.12), exclusive OR (6.5.11), AND (6.5.10),
   equality (6.5.9), relational (6.5.8), shift (6.5.7), additive (6.5.6), multiplicative (6.5.5).
   */
  function Production(op: BinOp): nat {
    match op
    case LogOr => 3
    case LogAnd => 4
    case Arithmetic(Bit(Or)) => 5
    case Arithmetic(Bit(Xor)) => 6
    case Arithmetic(Bit(And)) => 7
    case Comparison(Eq) => 8
    case Comparison(Ne) => 8
    case Comparison(Lt) => 9
    case Comparison(Gt) => 9
    case Comparison(Le) => 9
    case Comparison(Ge) => 9
    case Arithmetic(Shl) => 10
    case Arithmetic(Shr) => 10
    case Arithmetic(Add) => 11
    case Arithmetic(Sub) => 11
    case Arithmetic(Mul) => 12
    case Arithmetic(Div) => 12
    case Arithmetic(Rem) => 12
  }

  /** How tightly the outermost construct of an expression binds: expression 0, assignment 1, conditional 2. */
  function Level(c: Cst): nat {
    match c
    case Com(_, _) => 0
    case Asg(_, _, _) => 1
    case Cnd(_, _, _) => 2
    case Bin(op, _, _) => Production(op)
    case Pre(_, _) => 13
    case Siz(_) => 13
    case SizParen(_) => 13
    case Leaf(_) => 15
    case Paren(_) => 15
    case _ => 14
  }

  /** The level of the construct a token would continue an expression with, -1 if it cannot. */
  function Extends(t: Token): int {
    match t
    case Sym(CommaSign) => 0
    case Sym(EqSign) => 1
    case Sym(StarEq) => 1
    case Sym(SlashEq) => 1
    case Sym(PercentEq) => 1
    case Sym(PlusEq) => 1
    case Sym(MinusEq) => 1
    case Sym(ShlEq) => 1
    case Sym(ShrEq) => 1
    case Sym(AndEq) => 1
    case Sym(XorEq) => 1
    case Sym(OrEq) => 1
    case Sym(Question) => 2
    case Sym(OrOr) => 3
    case Sym(AndAnd) => 4
    case Sym(Pipe) => 5
    case Sym(Caret) => 6
    case Sym(Amp) => 7
    case Sym(EqEq) => 8
    case Sym(NotEq) => 8
    case Sym(Less) => 9
    case Sym(Greater) => 9
    case Sym(LessEq) => 9
    case Sym(GreaterEq) => 9
    case Sym(ShlOp) => 10
    case Sym(ShrOp) => 10
    case Sym(PlusSign) => 11
    case Sym(MinusSign) => 11
    case Sym(Star) => 12
    case Sym(Slash) => 12
    case Sym(Percent) => 12
    case Sym(LBracket) => 14
    case Sym(LParen) => 14
    case Sym(Dot) => 14
    case Sym(Arrow) => 14
    case Sym(PlusPlus) => 14
    case Sym(MinusMinus) => 14
    case _ => -1
  }

  /** The leftmost token. */
  function First(c: Cst): Token {
    match c
    case Leaf(t) => t
    case Paren(_) => Sym(LParen)
    case Idx(b, _) => First(b)
    case App(f, _) => First(f)
    case Mem(b, _, _) => First(b)
    case Pst(e, _) => First(e)
    case Pre(op, _) => PrefixToken(op)
    case Siz(_) => Kw(KwSizeof)
    case SizParen(_) => Kw(KwSizeof)
    case Bin(_, l, _) => First(l)
    case Cnd(c, _, _) => First(c)
    case Asg(_, l, _) => First(l)
    case Com(l, _) => First(l)
  }

  /**
   Derivations of section 6.5 of ISO C11, without casts and compound literals,
   except that any conditional expression may stand left of an assignment and
   that a parenthesis after `sizeof` encloses the operand.
   */
  predicate WellFormed(c: Cst) {
    match c
    case Leaf(t) => LeafOf(t).Some?
    case Paren(e) => WellFormed(e)
    case Idx(b, i) => WellFormed(b) && Level(b) >= 14 && WellFormed(i)
    case App(f, args) => WellFormed(f) && Level(f) >= 14 && WellFormedArgs(args)
    case Mem(b, _, _) => WellFormed(b) && Level(b) >= 14
    case Pst(e, _) => WellFormed(e) && Level(e) >= 14
    case Pre(_, e) => WellFormed(e) && Level(e) >= 13
    case Siz(e) => WellFormed(e) && Level(e) >= 13 && First(e) != Sym(LParen)
    case SizParen(e) => WellFormed(e)
    case Bin(_, l, r) => WellFormed(l) && Level(l) >= Level(c) && WellFormed(r) && Level(r) > Level(c)
    case Cnd(c, a, b) => WellFormed(c) && Level(c) >= 3 && WellFormed(a) && WellFormed(b) && Level(b) >= 2
    case Asg(_, l, r) => WellFormed(l) && Level(l) >= 2 && WellFormed(r) && Level(r) >= 1
    case Com(l, r) => WellFormed(l) && WellFormed(r) && Level(r) >= 1
  }

  predicate WellFormedArgs(args: seq<Cst>) {
    args == [] || (WellFormed(args[0]) && Level(args[0]) >= 1 && WellFormedArgs(args[1..]))
  }

  /** A token in front of others. */
  function Cons(t: Token, rest: seq<Token>): (r: seq<Token>)
    ensures Cur(r) == t && Rest(r) == rest && |r| == |rest| + 1
  {
    [t] + rest
  }

  /** The tokens of an expression in front of others. */
  function Put(c: Cst, rest: seq<Token>): seq<Token>
    decreases c
  {
    match c
    case Leaf(t) => Cons(t, rest)
    case Paren(e) => Cons(Sym(LParen), Put(e, Cons(Sym(RParen), rest)))
    case Idx(b, i) => Put(b, Cons(Sym(LBracket), Put(i, Cons(Sym(RBracket), rest))))
    case App(f, args) => Put(f, Cons(Sym(LParen), PutArgs(args, rest)))
    case Mem(b, field, arrow) => Put(b, Cons(Sym(if arrow then Arrow else Dot), Cons(Name(field), rest)))
    case Pst(e, inc) => Put(e, Cons(Sym(if inc then PlusPlus else MinusMinus), rest))
    case Pre(op, e) => Cons(PrefixToken(op), Put(e, rest))
    case Siz(e) => Cons(Kw(KwSizeof), Put(e, rest))
    case SizParen(e) => Cons(Kw(KwSizeof), Cons(Sym(LParen), Put(e, Cons(Sym(RParen), rest))))
    case Bin(op, l, r) => Put(l, Cons(BinToken(op), Put(r, rest)))
    case Cnd(c, a, b) => Put(c, Cons(Sym(Question), Put(a, Cons(Sym(Colon), Put(b, rest)))))
    case Asg(op, l, r) => Put(l, Cons(AssignToken(op), Put(r, rest)))
    case Com(l, r) => Put(l, Cons(Sym(CommaSign), Put(r, rest)))
  }

  /** Arguments with the commas between them and the closing parenthesis. */
  function PutArgs(args: seq<Cst>, rest: seq<Token>): seq<Token>
    decreases args
  {
    if args == [] then Cons(Sym(RParen), rest)
    else if |args| == 1 then Put(args[0], Cons(Sym(RParen), rest))
    else Put(args[0], Cons(Sym(CommaSign), PutArgs(args[1..], rest)))
  }

  /** The tree of an expression, parentheses forgotten. */
  function Erase(c: Cst): Expr
    requires WellFormed(c)
  {
    match c
    case Leaf(t) => LeafOf(t).value
    case Paren(e) => Erase(e)
    case Idx(b, i) => Index(Erase(b), Erase(i))
    case App(f, args) => Call(Erase(f), EraseArgs(args))
    case Mem(b, field, arrow) => Member(Erase(b), field, arrow)
    case Pst(e, inc) => Postfix(inc, Erase(e))
    case Pre(op, e) => Unary(op, Erase(e))
    case Siz(e) => SizeOf(Erase(e))
    case SizParen(e) => SizeOf(Erase(e))
    case Bin(op, l, r) => Binary(op, Erase(l), Erase(r))
    case Cnd(c, a, b) => Conditional(Erase(c), Erase(a), Erase(b))
    case Asg(op, l, r) => Assign(op, Erase(l), Erase(r))
    case Com(l, r) => Comma(Erase(l), Erase(r))
  }

  function EraseArgs(args: seq<Cst>): seq<Expr>
    requires WellFormedArgs(args)
  {
    if args == [] then [] else [Erase(args[0])] + EraseArgs(args[1..])
  }

  // ----- statements -----

  datatype Declarator = Declarator(name: string, initial: Option<Cst>)

  datatype Sst =
    | SNull
    | SExpr(e: Cst)
    | SBlock(items: seq<Sst>)
    | SIf(cond: Cst, thn: Sst, els: Option<Sst>)
    | SLoop(isSwitch: bool, cond: Cst, body: Sst)
    | SDo(body: Sst, cond: Cst)
    | SFor(init: Option<Cst>, test: Option<Cst>, post: Option<Cst>, body: Sst)
    | SCase(value: Cst, body: Sst)
    | SDefault(body: Sst)
    | SReturn(result: Option<Cst>)
    | SBreak
    | SContinue
    | SGoto(name: string)
    | SLabel(name: string, body: Sst)
    | SDecl(specs: seq<Keyword>, ds: seq<Declarator>)

  /** Whether an `else` after the statement would belong to an `if` inside it. */
  predicate OpenEnd(s: Sst) {
    match s
    case SIf(_, _, None) => true
    case SIf(_, _, Some(b)) => OpenEnd(b)
    case SLoop(_, _, b) => OpenEnd(b)
    case SFor(_, _, _, b) => OpenEnd(b)
    case SCase(_, b) => OpenEnd(b)
    case SDefault(b) => OpenEnd(b)
    case SLabel(_, b) => OpenEnd(b)
    case _ => false
  }

  predicate WellFormedOpt(e: Option<Cst>) { e.Some? ==> WellFormed(e.value) }

  predicate WellFormedDecls(ds: seq<Declarator>) {
    ds != []
    && (ds[0].initial.Some? ==> WellFormed(ds[0].initial.value) && Level(ds[0].initial.value) >= 1)
    && (|ds| > 1 ==> WellFormedDecls(ds[1..]))
  }

  /** Derivations of section 6.8 of ISO C11; no `if` with an `else` has a branch an `else` could extend. */
  predicate WellFormedStmt(s: Sst) {
    match s
    case SNull => true
    case SExpr(e) => WellFormed(e)
    case SBlock(items) => WellFormedItems(items)
    case SIf(c, a, b) =>
      WellFormed(c) && WellFormedStmt(a) && (b.Some? ==> !OpenEnd(a) && WellFormedStmt(b.value))
    case SLoop(_, c, b) => WellFormed(c) && WellFormedStmt(b)
    case SDo(b, c) => WellFormedStmt(b) && WellFormed(c)
    case SFor(i, c, p, b) => WellFormedOpt(i) && WellFormedOpt(c) && WellFormedOpt(p) && WellFormedStmt(b)
    case SCase(v, b) => WellFormed(v) && Level(v) >= 2 && WellFormedStmt(b)
    case SDefault(b) => WellFormedStmt(b)
    case SReturn(v) => WellFormedOpt(v)
    case SBreak => true
    case SContinue => true
    case SGoto(_) => true
    case SLabel(_, b) => WellFormedStmt(b)
    case SDecl(specs, ds) =>
      specs != [] && StartsDecl(Kw(specs[0])) && (forall k :: k in specs ==> TypeKeyword(Kw(k))) && WellFormedDecls(ds)
  }

  predicate WellFormedItems(items: seq<Sst>) {
    items == [] || (WellFormedStmt(items[0]) && WellFormedItems(items[1..]))
  }

  function PutOpt(e: Option<Cst>, end: Token, rest: seq<Token>): seq<Token> {
    if e.Some? then Put(e.value, Cons(end, rest)) else Cons(end, rest)
  }

  function PutTest(e: Cst, rest: seq<Token>): seq<Token> {
    Cons(Sym(LParen), Put(e, Cons(Sym(RParen), rest)))
  }

  function PutSpecs(specs: seq<Keyword>, rest: seq<Token>): seq<Token> {
    if specs == [] then rest else Cons(Kw(specs[0]), PutSpecs(specs[1..], rest))
  }

  function PutDecl(d: Declarator, rest: seq<Token>): seq<Token> {
    Cons(Name(d.name), if d.initial.Some? then Cons(Sym(EqSign), Put(d.initial.value, rest)) else rest)
  }

  function PutDecls(ds: seq<Declarator>, rest: seq<Token>): seq<Token> {
    if ds == [] then rest
    else if |ds| == 1 then PutDecl(ds[0], Cons(Sym(Semi), rest))
    else PutDecl(ds[0], Cons(Sym(CommaSign), PutDecls(ds[1..], rest)))
  }

  /** The tokens of a statement in front of others. */
  function PutStmt(s: Sst, rest: seq<Token>): seq<Token>
    decreases s
  {
    match s
    case SNull => Cons(Sym(Semi), rest)
    case SExpr(e) => Put(e, Cons(Sym(Semi), rest))
    case SBlock(items) => Cons(Sym(LBrace), PutItems(items, rest))
    case SIf(c, a, b) =>
      Cons(Kw(KwIf), PutTest(c, PutStmt(a, if b.Some? then Cons(Kw(KwElse), PutStmt(b.value, rest)) else rest)))
    case SLoop(sw, c, b) => Cons(Kw(if sw then KwSwitch else KwWhile), PutTest(c, PutStmt(b, rest)))
    case SDo(b, c) => Cons(Kw(KwDo), PutStmt(b, Cons(Kw(KwWhile), PutTest(c, Cons(Sym(Semi), rest)))))
    case SFor(i, c, p, b) =>
      Cons(Kw(KwFor), Cons(Sym(LParen),
        PutOpt(i, Sym(Semi), PutOpt(c, Sym(Semi), PutOpt(p, Sym(RParen), PutStmt(b, rest))))))
    case SCase(v, b) => Cons(Kw(KwCase), Put(v, Cons(Sym(Colon), PutStmt(b, rest))))
    case SDefault(b) => Cons(Kw(KwDefault), Cons(Sym(Colon), PutStmt(b, rest)))
    case SReturn(v) => Cons(Kw(KwReturn), PutOpt(v, Sym(Semi), rest))
    case SBreak => Cons(Kw(KwBreak), Cons(Sym(Semi), rest))
    case SContinue => Cons(Kw(KwContinue), Cons(Sym(Semi), rest))
    case SGoto(n) => Cons(Kw(KwGoto), Cons(Name(n), Cons(Sym(Semi), rest)))
    case SLabel(n, b) => Cons(Name(n), Cons(Sym(Colon), PutStmt(b, rest)))
    case SDecl(specs, ds) => PutSpecs(specs, PutDecls(ds, rest))
  }

  /** Statements with the closing brace. */
  function PutItems(items: seq<Sst>, rest: seq<Token>): seq<Token>
    decreases items
  {
    if items == [] then Cons(Sym(RBrace), rest) else PutStmt(items[0], PutItems(items[1..], rest))
  }

  function EraseOpt(e: Option<Cst>): Option<Expr>
    requires WellFormedOpt(e)
  {
    if e.Some? then Some(Erase(e.value)) else None
  }

  function EraseDecls(ct: CType, ds: seq<Declarator>): (r: seq<Stmt>)
    requires ds == [] || WellFormedDecls(ds)
    ensures |r| == |ds|
  {
    if ds == [] then [] else [VarDecl(ds[0].name, ct, EraseOpt(ds[0].initial))] + EraseDecls(ct, ds[1..])
  }

  /** The tree of a statement; several declarators become one block. */
  function EraseStmt(s: Sst): Stmt
    requires WellFormedStmt(s)
  {
    hide WellFormed, Erase, Level, WellFormedDecls, EraseDeclaration, SpecifiedType, StartsDecl, TypeKeyword;
    match s
    case SNull => ExprStmt(None)
    case SExpr(e) => ExprStmt(Some(Erase(e)))
    case SBlock(items) => Block(EraseItems(items))
    case SIf(c, a, b) => If(Erase(c), EraseStmt(a), if b.Some? then Some(EraseStmt(b.value)) else None)
    case SLoop(sw, c, b) => if sw then Switch(Erase(c), EraseStmt(b)) else While(Erase(c), EraseStmt(b))
    case SDo(b, c) => Do(EraseStmt(b), Erase(c))
    case SFor(i, c, p, b) => For(EraseOpt(i), EraseOpt(c), EraseOpt(p), EraseStmt(b))
    case SCase(v, b) => Case(Erase(v), EraseStmt(b))
    case SDefault(b) => Default(EraseStmt(b))
    case SReturn(v) => Return(EraseOpt(v))
    case SBreak => Break
    case SContinue => Continue
    case SGoto(n) => Goto(n)
    case SLabel(n, b) => Label(n, EraseStmt(b))
    case SDecl(specs, ds) => EraseDeclaration(SpecifiedType(specs), ds)
  }

  function EraseDeclaration(ct: CType, ds: seq<Declarator>): Stmt
    requires WellFormedDecls(ds)
  {
    var r := EraseDecls(ct, ds);
    if |r| == 1 then r[0] else Block(r)
  }

  function EraseItems(items: seq<Sst>): seq<Stmt>
    requires WellFormedItems(items)
  {
    if items == [] then [] else [EraseStmt(items[0])] + EraseItems(items[1..])
  }
}
