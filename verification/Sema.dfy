/** Semantic analysis (sema.c): names are resolved, implicit conversions become casts. */
module Sema {
  import opened Options
  import opened Words
  import opened Ast
  import opened Typed
  import opened Scopes

  /** The compiler exits on an undeclared name; `Unsupported` is everything outside the modelled fragment. */
  datatype ElabError = Undeclared(name: string) | Unsupported

  datatype Result<+T> = Ok(value: T) | Err(error: ElabError) {
    predicate IsFailure() { Err? }
    function PropagateFailure<U>(): Result<U>
      requires Err?
    {
      Err(error)
    }
    function Extract(): T
      requires Ok?
    {
      value
    }
  }

  /** The common type of two `int` or `long` operands. */
  function Common(a: Ty, b: Ty): Ty { if a == Long || b == Long then Long else Int }

  function MakeCast(e: TExpr, to: Ty): TExpr { if TypeOf(e) == to then e else TCast(e, to) }

  function ElabIdent(name: string, ch: Chain): Result<TExpr> {
    match Lookup(ch, name)
    case None => Err(Undeclared(name))
    case Some(sym) =>
      if sym.isGlobal || sym.stype.Function? || Core(sym.stype.ctype).None? then Err(Unsupported)
      else Ok(TVar(sym.id, Core(sym.stype.ctype).value))
  }

  function ElabExpr(e: Expr, ch: Chain): Result<TExpr> {
    match e
    case IntLit(v, ct) => if Core(ct).Some? then Ok(TLit(v, Core(ct).value)) else Err(Unsupported)
    case CharLit(c) => Ok(TLit(c, Int))
    case Ident(name) => ElabIdent(name, ch)
    case Binary(bop, l, r) =>
      var x :- ElabExpr(l, ch);
      var y :- ElabExpr(r, ch);
      Ok(ElabBinary(bop, x, y))
    case Assign(aop, l, r) =>
      var x :- ElabExpr(l, ch);
      var y :- ElabExpr(r, ch);
      if x.TVar? then Ok(TAssign(aop, x.id, x.ty, MakeCast(y, x.ty))) else Err(Unsupported)
    case Conditional(c, a, b) =>
      var x :- ElabExpr(c, ch);
      var y :- ElabExpr(a, ch);
      var z :- ElabExpr(b, ch);
      var common := Common(TypeOf(y), TypeOf(z));
      Ok(TCond(x, MakeCast(y, common), MakeCast(z, common), common))
    case Comma(l, r) =>
      var x :- ElabExpr(l, ch);
      var y :- ElabExpr(r, ch);
      Ok(TComma(x, y))
    case Postfix(inc, x) =>
      var v :- ElabExpr(x, ch);
      if v.TVar? then Ok(TPostfix(inc, v.id, v.ty)) else Err(Unsupported)
    case _ => Err(Unsupported)
  }

  /** Shifts keep their operands as they are; all else is converted to the common type. */
  function ElabBinary(bop: BinOp, x: TExpr, y: TExpr): TExpr {
    var common := Common(TypeOf(x), TypeOf(y));
    match bop
    case Arithmetic(op) =>
      if IsShift(op) then TArith(op, x, y) else TArith(op, MakeCast(x, common), MakeCast(y, common))
    case Comparison(cmp) => TCompare(cmp, MakeCast(x, common), MakeCast(y, common))
    case LogAnd => TLogic(true, MakeCast(x, common), MakeCast(y, common))
    case LogOr => TLogic(false, MakeCast(x, common), MakeCast(y, common))
  }

  function ElabOpt(e: Option<Expr>, ch: Chain): Result<Option<TExpr>> {
    match e
    case None => Ok(None)
    case Some(x) => var y :- ElabExpr(x, ch); Ok(Some(y))
  }

  /** A statement elaborated, with the scopes and the local counter after it. */
  datatype Done<+T> = Done(node: T, ch: Chain, n: nat)

  /** `n` is the next local id, `rt` the type the function returns. */
  function ElabStmt(s: Stmt, ch: Chain, n: nat, rt: Ty): (r: Result<Done<TStmt>>)
    requires ch != []
    ensures r.Ok? ==> r.value.ch != [] && r.value.ch[1..] == ch[1..]
    decreases s
  {
    match s
    case ExprStmt(e) =>
      var x :- ElabOpt(e, ch);
      Ok(Done(TEval(x), ch, n))
    case Block(ss) =>
      var d :- ElabStmts(ss, [[]] + ch, n, rt);
      Ok(Done(TBlock(d.node), d.ch[1..], d.n))
    case If(c, t, els) =>
      var x :- ElabExpr(c, ch);
      var d :- ElabStmt(t, ch, n, rt);
      (match els
       case None => Ok(Done(TIf(x, d.node, None), d.ch, d.n))
       case Some(e) =>
         var f :- ElabStmt(e, d.ch, d.n, rt);
         Ok(Done(TIf(x, d.node, Some(f.node)), f.ch, f.n)))
    case While(c, body) =>
      var x :- ElabExpr(c, ch);
      var d :- ElabStmt(body, ch, n, rt);
      Ok(Done(TWhile(x, d.node), d.ch, d.n))
    case Do(body, c) =>
      var x :- ElabExpr(c, ch);
      var d :- ElabStmt(body, ch, n, rt);
      Ok(Done(TDo(d.node, x), d.ch, d.n))
    case For(i, c, p, body) =>
      var inner := [[]] + ch;
      var x :- ElabOpt(i, inner);
      var y :- ElabOpt(c, inner);
      var z :- ElabOpt(p, inner);
      var d :- ElabStmt(body, inner, n, rt);
      Ok(Done(TFor(x, y, z, d.node), d.ch[1..], d.n))
    case Return(Some(e)) =>
      var x :- ElabExpr(e, ch);
      Ok(Done(TReturn(MakeCast(x, rt)), ch, n))
    case Break => Ok(Done(TBreak, ch, n))
    case Continue => Ok(Done(TContinue, ch, n))
    case VarDecl(name, ct, initial) =>
      (match Core(ct)
       case None => Err(Unsupported)
       case Some(ty) =>
         var ch' := Declared(ch, Symbol(name, Object(ct), n, false));
         var x :- ElabOpt(initial, ch');
         Ok(Done(TDecl(n, ty, if x.Some? then Some(MakeCast(x.value, ty)) else None), ch', n + 1)))
    case _ => Err(Unsupported)
  }

  function ElabStmts(ss: seq<Stmt>, ch: Chain, n: nat, rt: Ty): (r: Result<Done<seq<TStmt>>>)
    requires ch != []
    ensures r.Ok? ==> r.value.ch != [] && r.value.ch[1..] == ch[1..]
    decreases ss
  {
    if ss == [] then Ok(Done([], ch, n))
    else
      var d :- ElabStmt(ss[0], ch, n, rt);
      var e :- ElabStmts(ss[1..], d.ch, d.n, rt);
      Ok(Done([d.node] + e.node, e.ch, e.n))
  }

  /** Parameters are declared in order and numbered from `i`. */
  function ElabParams(ps: seq<Param>, ch: Chain, i: nat): (r: Result<Done<seq<TParam>>>)
    requires ch != []
    ensures r.Ok? ==> r.value.ch != [] && r.value.ch[1..] == ch[1..]
  {
    if ps == [] then Ok(Done([], ch, i))
    else
      match Core(ps[0].ptype)
      case None => Err(Unsupported)
      case Some(ty) =>
        var d :- ElabParams(ps[1..], Declared(ch, Symbol(ps[0].name, Object(ps[0].ptype), i, false)), i + 1);
        Ok(Done([TParam(i, ty)] + d.node, d.ch, d.n))
  }

  /** A function definition below the global scope `globals`. */
  function ElabFunc(f: Func, globals: Scope): Result<TFunc> {
    match Core(f.result)
    case None => Err(Unsupported)
    case Some(rt) =>
      var ps :- ElabParams(f.params, [[]] + [globals], 0);
      var body :- ElabStmts(f.body, [[]] + ps.ch, ps.n, rt);
      Ok(TFunc(rt, ps.node, body.node))
  }

  /** The first pass: the functions of a file, declared in order after the `i` in `sc`. */
  function Globals(fs: seq<Func>, sc: Scope, i: nat): Scope
    decreases |fs|
  {
    if fs == [] then sc else Globals(fs[1..], [Symbol(fs[0].name, Function, i, true)] + sc, i + 1)
  }

  /** The scope every function of a file is analysed in: each sees all of them. */
  function FileScope(fs: seq<Func>): Scope { Globals(fs, [], 0) }

  /** The second pass: each function in the scope of the file. */
  function ElabAll(fs: seq<Func>, globals: Scope): (r: Result<seq<TFunc>>)
    ensures r.Ok? ==> |r.value| == |fs|
    decreases |fs|
  {
    if fs == [] then Ok([])
    else
      var t :- ElabFunc(fs[0], globals);
      var ts :- ElabAll(fs[1..], globals);
      Ok([t] + ts)
  }

  function ElabUnit(fs: seq<Func>): (r: Result<seq<TFunc>>)
    ensures r.Ok? ==> |r.value| == |fs|
  {
    ElabAll(fs, FileScope(fs))
  }
}
