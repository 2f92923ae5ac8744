/**
 The syntax trees of ast.c: what the parser returns and what semantic
 analysis (sema.c) turns them into.
 */
module Ast {
  import opened Options
  import opened Words

  /** Scalar types a declaration or a literal can name. */
  datatype CType =
    | CVoid | CBool
    | CChar(isUnsigned: bool) | CShort(isUnsigned: bool)
    | CInt(isUnsigned: bool) | CLong(isUnsigned: bool)
    | CFloat | CDouble

  datatype BinOp = Arithmetic(op: ArithOp) | Comparison(cmp: CmpOp) | LogAnd | LogOr

  datatype UnOp = Plus | Minus | Not | Complement | AddressOf | Deref | PreInc | PreDec

  datatype Expr =
    | IntLit(value: int, litType: CType)
    | FloatLit(spelling: string)
    | CharLit(code: nat)
    | StrLit(bytes: string)
    | Ident(name: string)
    | Binary(bop: BinOp, lhs: Expr, rhs: Expr)
    | Assign(aop: Option<ArithOp>, lhs: Expr, rhs: Expr)
    | Conditional(cond: Expr, thn: Expr, els: Expr)
    | Comma(lhs: Expr, rhs: Expr)
    | Unary(uop: UnOp, operand: Expr)
    | Postfix(inc: bool, operand: Expr)
    | Index(base: Expr, index: Expr)
    | Call(callee: Expr, args: seq<Expr>)
    | Member(base: Expr, field: string, arrow: bool)
    | SizeOf(operand: Expr)

  datatype Stmt =
    | ExprStmt(e: Option<Expr>)
    | Block(stmts: seq<Stmt>)
    | If(cond: Expr, thn: Stmt, els: Option<Stmt>)
    | While(cond: Expr, body: Stmt)
    | Do(body: Stmt, cond: Expr)
    | For(init: Option<Expr>, test: Option<Expr>, post: Option<Expr>, body: Stmt)
    | Switch(cond: Expr, body: Stmt)
    | Case(value: Expr, body: Stmt)
    | Default(body: Stmt)
    | Return(e: Option<Expr>)
    | Break
    | Continue
    | Goto(name: string)
    | Label(name: string, body: Stmt)
    | VarDecl(name: string, declType: CType, initial: Option<Expr>)

  datatype Param = Param(name: string, ptype: CType)
  datatype Func = Func(name: string, result: CType, params: seq<Param>, body: seq<Stmt>)

  /** The types code generation supports faithfully: signed `int` and `long`. */
  function Core(ct: CType): Option<Ty> {
    match ct
    case CInt(false) => Some(Int)
    case CLong(false) => Some(Long)
    case _ => None
  }
}

/**
 Elaborated trees: names resolved to local ids, implicit conversions made
 explicit, every node's type known.
 */
module Typed {
  import opened Options
  import opened Words

  datatype TExpr =
    | TLit(value: int, ty: Ty)
    | TVar(id: nat, ty: Ty)
    | TCast(e: TExpr, to: Ty)
    | TArith(op: ArithOp, l: TExpr, r: TExpr)
    | TCompare(cmp: CmpOp, l: TExpr, r: TExpr)
    | TLogic(isAnd: bool, l: TExpr, r: TExpr)
    | TAssign(aop: Option<ArithOp>, id: nat, ty: Ty, rhs: TExpr)
    | TPostfix(inc: bool, id: nat, ty: Ty)
    | TCond(c: TExpr, a: TExpr, b: TExpr, ty: Ty)
    | TComma(l: TExpr, r: TExpr)

  datatype TStmt =
    | TEval(e: Option<TExpr>)
    | TBlock(stmts: seq<TStmt>)
    | TIf(cond: TExpr, thn: TStmt, els: Option<TStmt>)
    | TWhile(cond: TExpr, body: TStmt)
    | TDo(body: TStmt, cond: TExpr)
    | TFor(init: Option<TExpr>, test: Option<TExpr>, post: Option<TExpr>, body: TStmt)
    | TReturn(value: TExpr)
    | TBreak
    | TContinue
    | TDecl(id: nat, ty: Ty, initial: Option<TExpr>)

  datatype TParam = TParam(id: nat, ty: Ty)
  datatype TFunc = TFunc(result: Ty, params: seq<TParam>, body: seq<TStmt>)

  function TypeOf(e: TExpr): Ty {
    match e
    case TLit(_, ty) => ty
    case TVar(_, ty) => ty
    case TCast(_, to) => to
    case TArith(_, l, _) => TypeOf(l)
    case TCompare(_, _, _) => Int
    case TLogic(_, _, _) => Int
    case TAssign(_, _, ty, _) => ty
    case TPostfix(_, _, ty) => ty
    case TCond(_, _, _, ty) => ty
    case TComma(_, r) => TypeOf(r)
  }

  predicate IsShift(op: ArithOp) { op.Shl? || op.Shr? }

  /** The types of the locals, indexed by id. */
  type Layout = seq<Ty>

  predicate HasLocal(lay: Layout, id: nat, ty: Ty) { id < |lay| && lay[id] == ty }

  /** Every operation gets operands of the type it works in. */
  predicate WellTyped(e: TExpr, lay: Layout) {
    match e
    case TLit(_, _) => true
    case TVar(id, ty) => HasLocal(lay, id, ty)
    case TCast(x, _) => WellTyped(x, lay)
    case TArith(op, l, r) =>
      WellTyped(l, lay) && WellTyped(r, lay) && (IsShift(op) || TypeOf(l) == TypeOf(r))
    case TCompare(_, l, r) => WellTyped(l, lay) && WellTyped(r, lay) && TypeOf(l) == TypeOf(r)
    case TLogic(_, l, r) => WellTyped(l, lay) && WellTyped(r, lay) && TypeOf(l) == TypeOf(r)
    case TAssign(_, id, ty, rhs) => HasLocal(lay, id, ty) && WellTyped(rhs, lay) && TypeOf(rhs) == ty
    case TPostfix(_, id, ty) => HasLocal(lay, id, ty)
    case TCond(c, a, b, ty) =>
      WellTyped(c, lay) && WellTyped(a, lay) && WellTyped(b, lay) && TypeOf(a) == ty && TypeOf(b) == ty
    case TComma(l, r) => WellTyped(l, lay) && WellTyped(r, lay)
  }

  predicate WellTypedOpt(e: Option<TExpr>, lay: Layout) { e.Some? ==> WellTyped(e.value, lay) }

  predicate WellTypedStmt(s: TStmt, lay: Layout, result: Ty) {
    match s
    case TEval(e) => WellTypedOpt(e, lay)
    case TBlock(ss) => WellTypedStmts(ss, lay, result)
    case TIf(c, t, els) =>
      WellTyped(c, lay) && WellTypedStmt(t, lay, result) && (els.Some? ==> WellTypedStmt(els.value, lay, result))
    case TWhile(c, body) => WellTyped(c, lay) && WellTypedStmt(body, lay, result)
    case TDo(body, c) => WellTyped(c, lay) && WellTypedStmt(body, lay, result)
    case TFor(i, c, p, body) =>
      WellTypedOpt(i, lay) && WellTypedOpt(c, lay) && WellTypedOpt(p, lay) && WellTypedStmt(body, lay, result)
    case TReturn(e) => WellTyped(e, lay) && TypeOf(e) == result
    case TBreak => true
    case TContinue => true
    case TDecl(id, ty, e) => HasLocal(lay, id, ty) && (e.Some? ==> WellTyped(e.value, lay) && TypeOf(e.value) == ty)
  }

  predicate WellTypedStmts(ss: seq<TStmt>, lay: Layout, result: Ty) {
    ss == [] || (WellTypedStmt(ss[0], lay, result) && WellTypedStmts(ss[1..], lay, result))
  }

  /** Every value a branch tests is an `int`: `jnz` and `cnew` read 32 bits only. */
  predicate IntTests(e: TExpr) {
    match e
    case TLit(_, _) => true
    case TVar(_, _) => true
    case TCast(x, _) => IntTests(x)
    case TArith(_, l, r) => IntTests(l) && IntTests(r)
    case TCompare(_, l, r) => IntTests(l) && IntTests(r)
    case TLogic(_, l, r) => IntTests(l) && IntTests(r) && TypeOf(l) == Int && TypeOf(r) == Int
    case TAssign(_, _, _, rhs) => IntTests(rhs)
    case TPostfix(_, _, _) => true
    case TCond(c, a, b, _) => IntTests(c) && IntTests(a) && IntTests(b) && TypeOf(c) == Int
    case TComma(l, r) => IntTests(l) && IntTests(r)
  }

  predicate IntTestsOpt(e: Option<TExpr>) { e.Some? ==> IntTests(e.value) }

  predicate IntTestsStmt(s: TStmt) {
    match s
    case TEval(e) => IntTestsOpt(e)
    case TBlock(ss) => IntTestsStmts(ss)
    case TIf(c, t, els) =>
      IntTests(c) && TypeOf(c) == Int && IntTestsStmt(t) && (els.Some? ==> IntTestsStmt(els.value))
    case TWhile(c, body) => IntTests(c) && TypeOf(c) == Int && IntTestsStmt(body)
    case TDo(body, c) => IntTests(c) && TypeOf(c) == Int && IntTestsStmt(body)
    case TFor(i, c, p, body) =>
      IntTestsOpt(i) && IntTestsOpt(c) && (c.Some? ==> TypeOf(c.value) == Int) && IntTestsOpt(p) && IntTestsStmt(body)
    case TReturn(e) => IntTests(e)
    case TBreak => true
    case TContinue => true
    case TDecl(_, _, e) => IntTestsOpt(e)
  }

  predicate IntTestsStmts(ss: seq<TStmt>) {
    ss == [] || (IntTestsStmt(ss[0]) && IntTestsStmts(ss[1..]))
  }

  /** The innermost loop around a statement. */
  datatype Enclosing = NoLoop | WhileLoop | OtherLoop

  /** `break` and `continue` occur only where the innermost loop is a `while`. */
  predicate WhileJumps(s: TStmt, inner: Enclosing) {
    match s
    case TBlock(ss) => WhileJumpsAll(ss, inner)
    case TIf(_, t, els) => WhileJumps(t, inner) && (els.Some? ==> WhileJumps(els.value, inner))
    case TWhile(_, body) => WhileJumps(body, WhileLoop)
    case TDo(body, _) => WhileJumps(body, OtherLoop)
    case TFor(_, _, _, body) => WhileJumps(body, OtherLoop)
    case TBreak => inner == WhileLoop
    case TContinue => inner == WhileLoop
    case _ => true
  }

  predicate WhileJumpsAll(ss: seq<TStmt>, inner: Enclosing) {
    ss == [] || (WhileJumps(ss[0], inner) && WhileJumpsAll(ss[1..], inner))
  }
}
