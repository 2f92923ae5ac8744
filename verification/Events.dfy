/**
 The names in a function, as a definition of their own. A function is read as the sequence of its braces,
 declarations and uses of names; a use belongs to the last declaration of its name before it whose block is
 still open there.
 */
module Events {
  import opened Options
  import opened Words
  import opened Ast
  import opened Typed

  datatype Event = Open | Close | Decl(name: string, ct: CType) | Use(name: string)

  // ----- the events of a tree, in the order of analysis -----

  function ExprEvents(e: Expr): seq<Event> {
    match e
    case Ident(name) => [Use(name)]
    case Binary(_, l, r) => ExprEvents(l) + ExprEvents(r)
    case Assign(_, l, r) => ExprEvents(l) + ExprEvents(r)
    case Conditional(c, a, b) => ExprEvents(c) + (ExprEvents(a) + ExprEvents(b))
    case Comma(l, r) => ExprEvents(l) + ExprEvents(r)
    case Postfix(_, x) => ExprEvents(x)
    case _ => []
  }

  function OptEvents(e: Option<Expr>): seq<Event> { if e.Some? then ExprEvents(e.value) else [] }

  /** A declaration stands before its initialiser; the condition of a `do` is analysed before its body. */
  function StmtEvents(s: Stmt): seq<Event>
    decreases s
  {
    match s
    case ExprStmt(e) => OptEvents(e)
    case Block(ss) => [Open] + (StmtsEvents(ss) + [Close])
    case If(c, t, None) => ExprEvents(c) + StmtEvents(t)
    case If(c, t, Some(els)) => ExprEvents(c) + (StmtEvents(t) + StmtEvents(els))
    case While(c, body) => ExprEvents(c) + StmtEvents(body)
    case Do(body, c) => ExprEvents(c) + StmtEvents(body)
    case For(i, c, p, body) =>
      [Open] + (OptEvents(i) + (OptEvents(c) + (OptEvents(p) + (StmtEvents(body) + [Close]))))
    case Return(e) => OptEvents(e)
    case VarDecl(name, ct, initial) => [Decl(name, ct)] + OptEvents(initial)
    case _ => []
  }

  function StmtsEvents(ss: seq<Stmt>): seq<Event>
    decreases ss
  {
    if ss == [] then [] else StmtEvents(ss[0]) + StmtsEvents(ss[1..])
  }

  function ParamEvents(ps: seq<Param>): seq<Event> {
    if ps == [] then [] else [Decl(ps[0].name, ps[0].ptype)] + ParamEvents(ps[1..])
  }

  /** The parameters have a scope of their own around the body. */
  function FuncEvents(f: Func): seq<Event> { [Open] + (ParamEvents(f.params) + ([Open] + StmtsEvents(f.body))) }

  // ----- the declaration a name stands for -----

  /** Braces opened minus braces closed. */
  function Level(ev: seq<Event>): int {
    if ev == [] then 0
    else
      Level(ev[..|ev| - 1]) + match ev[|ev| - 1]
        case Open => 1
        case Close => -1
        case _ => 0
  }

  /** The level before event `k`, seen from event `j`. */
  function Since(ev: seq<Event>, j: nat, k: nat): int
    requires j < k <= |ev|
  {
    Level(ev[j + 1..k])
  }

  /** The block that event `j` stands in is still open before event `i`. */
  ghost predicate StillOpen(ev: seq<Event>, j: nat, i: nat) {
    j < i <= |ev| && forall k :: j < k <= i ==> Since(ev, j, k) >= 0
  }

  predicate Declares(x: Event, name: string) { x.Decl? && x.name == name }

  /** Before event `i`, `name` stands for what event `j` declares. */
  ghost predicate StandsFor(ev: seq<Event>, j: nat, i: nat, name: string) {
    j < i <= |ev| && Declares(ev[j], name) && StillOpen(ev, j, i)
    && forall k :: j < k < i && Declares(ev[k], name) ==> !StillOpen(ev, k, i)
  }

  ghost predicate Bound(ev: seq<Event>, i: nat)
    requires i < |ev| && ev[i].Use?
  {
    exists j :: StandsFor(ev, j, i, ev[i].name)
  }

  ghost predicate AllBound(ev: seq<Event>) {
    forall i :: 0 <= i < |ev| && ev[i].Use? ==> Bound(ev, i)
  }

  /** The first use of a name no declaration stands for. */
  ghost predicate FirstUnbound(ev: seq<Event>, i: nat) {
    i < |ev| && ev[i].Use? && !Bound(ev, i) && forall k :: 0 <= k < i && ev[k].Use? ==> Bound(ev, k)
  }

  function Decls(ev: seq<Event>): nat {
    if ev == [] then 0 else Decls(ev[..|ev| - 1]) + if ev[|ev| - 1].Decl? then 1 else 0
  }

  /** Declarations and uses: the events that leave a name in the elaborated tree. */
  function Marks(ev: seq<Event>): nat {
    if ev == [] then 0 else Marks(ev[..|ev| - 1]) + if ev[|ev| - 1].Decl? || ev[|ev| - 1].Use? then 1 else 0
  }

  // ----- the names in an elaborated tree, in the same order -----

  datatype Named = Made(id: nat, ty: Ty) | Used(id: nat, ty: Ty)

  function ExprNames(t: TExpr): seq<Named> {
    match t
    case TLit(_, _) => []
    case TVar(id, ty) => [Used(id, ty)]
    case TCast(x, _) => ExprNames(x)
    case TArith(_, l, r) => ExprNames(l) + ExprNames(r)
    case TCompare(_, l, r) => ExprNames(l) + ExprNames(r)
    case TLogic(_, l, r) => ExprNames(l) + ExprNames(r)
    case TAssign(_, id, ty, rhs) => [Used(id, ty)] + ExprNames(rhs)
    case TPostfix(_, id, ty) => [Used(id, ty)]
    case TCond(c, a, b, _) => ExprNames(c) + (ExprNames(a) + ExprNames(b))
    case TComma(l, r) => ExprNames(l) + ExprNames(r)
  }

  function OptNames(t: Option<TExpr>): seq<Named> { if t.Some? then ExprNames(t.value) else [] }

  function StmtNames(t: TStmt): seq<Named>
    decreases t
  {
    match t
    case TEval(e) => OptNames(e)
    case TBlock(ts) => StmtsNames(ts)
    case TIf(c, thn, None) => ExprNames(c) + StmtNames(thn)
    case TIf(c, thn, Some(els)) => ExprNames(c) + (StmtNames(thn) + StmtNames(els))
    case TWhile(c, body) => ExprNames(c) + StmtNames(body)
    case TDo(body, c) => ExprNames(c) + StmtNames(body)
    case TFor(i, c, p, body) => OptNames(i) + (OptNames(c) + (OptNames(p) + StmtNames(body)))
    case TReturn(e) => ExprNames(e)
    case TBreak => []
    case TContinue => []
    case TDecl(id, ty, e) => [Made(id, ty)] + OptNames(e)
  }

  function StmtsNames(ts: seq<TStmt>): seq<Named>
    decreases ts
  {
    if ts == [] then [] else StmtNames(ts[0]) + StmtsNames(ts[1..])
  }

  function ParamNames(ps: seq<TParam>): seq<Named> {
    if ps == [] then [] else [Made(ps[0].id, ps[0].ty)] + ParamNames(ps[1..])
  }

  function FuncNames(t: TFunc): seq<Named> { ParamNames(t.params) + StmtsNames(t.body) }

  // ----- the forms analysis handles -----

  predicate ExprFragment(e: Expr) {
    match e
    case IntLit(_, ct) => Core(ct).Some?
    case CharLit(_) => true
    case Ident(_) => true
    case Binary(_, l, r) => ExprFragment(l) && ExprFragment(r)
    case Assign(_, l, r) => l.Ident? && ExprFragment(r)
    case Conditional(c, a, b) => ExprFragment(c) && ExprFragment(a) && ExprFragment(b)
    case Comma(l, r) => ExprFragment(l) && ExprFragment(r)
    case Postfix(_, x) => x.Ident?
    case _ => false
  }

  predicate OptFragment(e: Option<Expr>) { e.Some? ==> ExprFragment(e.value) }

  predicate StmtFragment(s: Stmt)
    decreases s
  {
    match s
    case ExprStmt(e) => OptFragment(e)
    case Block(ss) => StmtsFragment(ss)
    case If(c, t, els) => ExprFragment(c) && StmtFragment(t) && (els.Some? ==> StmtFragment(els.value))
    case While(c, body) => ExprFragment(c) && StmtFragment(body)
    case Do(body, c) => ExprFragment(c) && StmtFragment(body)
    case For(i, c, p, body) => OptFragment(i) && OptFragment(c) && OptFragment(p) && StmtFragment(body)
    case Return(e) => e.Some? && ExprFragment(e.value)
    case Break => true
    case Continue => true
    case VarDecl(_, ct, initial) => Core(ct).Some? && OptFragment(initial)
    case _ => false
  }

  predicate StmtsFragment(ss: seq<Stmt>)
    decreases ss
  {
    ss == [] || (StmtFragment(ss[0]) && StmtsFragment(ss[1..]))
  }

  predicate ParamsFragment(ps: seq<Param>) { forall p :: p in ps ==> Core(p.ptype).Some? }

  predicate FuncFragment(f: Func) { Core(f.result).Some? && ParamsFragment(f.params) && StmtsFragment(f.body) }
}
