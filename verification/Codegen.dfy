/** The instruction sequences qbe.c prints for elaborated trees. */
module Codegen {
  import opened Options
  import opened Words
  import opened Typed
  import opened Il

  /** Emitted instructions, the temporary holding the result, the counter afterwards. */
  datatype Code = Code(instrs: seq<Instr>, res: nat, next: nat)

  function Convert(d: nat, to: Ty, s: nat, from: Ty): Instr {
    if to == from then Copy(T(d), to, T(s))
    else if to == Long then Extsw(T(d), T(s))
    else Copy(T(d), Int, T(s))
  }

  // ----- the shapes expressions are put together in -----

  function CastCode(c: Code, to: Ty, from: Ty): Code {
    Code(c.instrs + [Convert(c.next, to, c.res, from)], c.next, c.next + 1)
  }

  function ArithCode(op: ArithOp, ty: Ty, a: Code, b: Code): Code {
    Code(a.instrs + (b.instrs + [Bin(T(b.next), ty, op, T(a.res), T(b.res))]), b.next, b.next + 1)
  }

  function CompareCode(cmp: CmpOp, ty: Ty, a: Code, b: Code): Code {
    Code(a.instrs + (b.instrs + [Cmp(T(b.next), cmp, ty, T(a.res), T(b.res))]), b.next, b.next + 1)
  }

  function LogicTest(isAnd: bool, n: nat, res: nat): seq<Instr> {
    [Const(T(n + 1), Int, Truth(!isAnd)),
     if isAnd then Jnz(T(res), Lbl(ScRhs, n), Lbl(ScEnd, n)) else Jnz(T(res), Lbl(ScEnd, n), Lbl(ScRhs, n)),
     Mark(Lbl(ScRhs, n))]
  }

  function LogicEnd(n: nat, b: Code): seq<Instr> {
    [Cnew0(T(b.next), T(b.res)), Copy(T(n + 1), Int, T(b.next)), Mark(Lbl(ScEnd, n))]
  }

  /** `&&` and `||`: label id `n`, result `n + 1`. */
  function LogicCode(isAnd: bool, n: nat, a: Code, b: Code): Code {
    Code(a.instrs + (LogicTest(isAnd, n, a.res) + (b.instrs + LogicEnd(n, b))), n + 1, b.next + 1)
  }

  function AddressOf(n: nat, id: nat): seq<Instr> { [Copy(T(n), Long, V(id))] }

  function AssignEnd(ty: Ty, n: nat, c: Code): seq<Instr> { [Store(ty, T(c.res), T(n))] }

  function AssignCode(n: nat, id: nat, ty: Ty, c: Code): Code {
    Code(AddressOf(n, id) + (c.instrs + AssignEnd(ty, n, c)), c.res, c.next)
  }

  function CompoundEnd(op: ArithOp, ty: Ty, n: nat, c: Code): seq<Instr> {
    [Load(T(c.next), ty, T(n)), Bin(T(c.next + 1), ty, op, T(c.next), T(c.res)), Store(ty, T(c.next + 1), T(n))]
  }

  function CompoundCode(op: ArithOp, n: nat, id: nat, ty: Ty, c: Code): Code {
    Code(AddressOf(n, id) + (c.instrs + CompoundEnd(op, ty, n, c)), c.next + 1, c.next + 2)
  }

  function PostfixCode(inc: bool, n: nat, id: nat, ty: Ty): Code {
    Code([Copy(T(n), Long, V(id)), Load(T(n + 1), ty, T(n)), Const(T(n + 2), ty, 1),
          Bin(T(n + 3), ty, if inc then Add else Sub, T(n + 1), T(n + 2)),
          Store(ty, T(n + 3), T(n))],
         n + 1, n + 4)
  }

  function CondTest(x: Code): seq<Instr> {
    [Jnz(T(x.res), Lbl(CondThen, x.next), Lbl(CondElse, x.next)), Mark(Lbl(CondThen, x.next))]
  }

  function CondMiddle(x: Code, y: Code, ty: Ty): seq<Instr> {
    [Copy(T(x.next + 1), ty, T(y.res)), Jmp(Lbl(CondEnd, x.next)), Mark(Lbl(CondElse, x.next))]
  }

  function CondLast(x: Code, z: Code, ty: Ty): seq<Instr> {
    [Copy(T(x.next + 1), ty, T(z.res)), Mark(Lbl(CondEnd, x.next))]
  }

  /** `?:`: label id `x.next`, result `x.next + 1`. */
  function CondCode(x: Code, y: Code, z: Code, ty: Ty): Code {
    Code(x.instrs + (CondTest(x) + (y.instrs + (CondMiddle(x, y, ty) + (z.instrs + CondLast(x, z, ty))))),
         x.next + 1, z.next)
  }

  function CommaCode(a: Code, b: Code): Code { Code(a.instrs + b.instrs, b.res, b.next) }

  /** Code for `e` when the shared counter of temporaries and label ids stands at `n`. */
  function EmitExpr(e: TExpr, n: nat): (c: Code)
    ensures n <= c.res < c.next
  {
    match e
    case TLit(v, ty) => Code([Const(T(n), ty, v)], n, n + 1)
    case TVar(id, ty) => Code([Copy(T(n), Long, V(id)), Load(T(n + 1), ty, T(n))], n + 1, n + 2)
    case TCast(x, to) => CastCode(EmitExpr(x, n), to, TypeOf(x))
    case TArith(op, l, r) =>
      var a := EmitExpr(l, n);
      ArithCode(op, TypeOf(l), a, EmitExpr(r, a.next))
    case TCompare(cmp, l, r) =>
      var a := EmitExpr(l, n);
      CompareCode(cmp, TypeOf(l), a, EmitExpr(r, a.next))
    case TLogic(isAnd, l, r) =>
      var a := EmitExpr(l, n + 2);
      LogicCode(isAnd, n, a, EmitExpr(r, a.next))
    case TAssign(None, id, ty, rhs) => AssignCode(n, id, ty, EmitExpr(rhs, n + 1))
    case TAssign(Some(op), id, ty, rhs) => CompoundCode(op, n, id, ty, EmitExpr(rhs, n + 1))
    case TPostfix(inc, id, ty) => PostfixCode(inc, n, id, ty)
    case TCond(c, a, b, ty) =>
      var x := EmitExpr(c, n);
      var y := EmitExpr(a, x.next + 2);
      CondCode(x, y, EmitExpr(b, y.next), ty)
    case TComma(l, r) =>
      var a := EmitExpr(l, n);
      CommaCode(a, EmitExpr(r, a.next))
  }

  /** An absent expression emits nothing. */
  function EmitOpt(e: Option<TExpr>, n: nat): (c: Code)
    ensures n <= c.next
  {
    match e
    case None => Code([], n, n)
    case Some(x) => EmitExpr(x, n)
  }

  /** Jump targets of the innermost loop. */
  datatype LoopCtx = LoopCtx(breakId: nat, continueId: nat)

  /** `ok` is false when the compiler exits with an error. */
  datatype StmtCode = StmtCode(instrs: seq<Instr>, next: nat, ok: bool)

  /** The last statement always jumps or returns. */
  predicate EndsInTerminator(s: TStmt) {
    match s
    case TReturn(_) => true
    case TBreak => true
    case TContinue => true
    case TBlock(ss) => ss != [] && EndsInTerminator(ss[|ss| - 1])
    case _ => false
  }

  predicate ListEndsInTerminator(ss: seq<TStmt>) { ss != [] && EndsInTerminator(ss[|ss| - 1]) }

  // ----- the shapes statements are put together in -----

  function JumpUnless(closed: bool, l: Lbl): seq<Instr> { if closed then [] else [Jmp(l)] }

  function IfTest(x: Code, els: LabelKind): seq<Instr> {
    [Jnz(T(x.res), Lbl(IfThen, x.next), Lbl(els, x.next)), Mark(Lbl(IfThen, x.next))]
  }

  function IfCode(x: Code, y: StmtCode): StmtCode {
    StmtCode(x.instrs + (IfTest(x, IfEnd) + (y.instrs + [Mark(Lbl(IfEnd, x.next))])), y.next, y.ok)
  }

  /** `closed`: the then-branch ends in a terminator, so no jump over the else-branch is printed. */
  function IfElseCode(x: Code, y: StmtCode, z: StmtCode, closed: bool): StmtCode {
    StmtCode(x.instrs
             + (IfTest(x, IfElse)
                + (y.instrs
                   + (JumpUnless(closed, Lbl(IfEnd, x.next))
                      + ([Mark(Lbl(IfElse, x.next))]
                         + (z.instrs + [Mark(Lbl(IfEnd, x.next))]))))),
             z.next, y.ok && z.ok)
  }

  function WhileTest(n: nat, x: Code): seq<Instr> {
    [Jnz(T(x.res), Lbl(WhileBody, n), Lbl(WhileEnd, n)), Mark(Lbl(WhileBody, n))]
  }

  function WhileCode(n: nat, x: Code, y: StmtCode, closed: bool): StmtCode {
    StmtCode([Mark(Lbl(WhileCond, n))]
             + (x.instrs
                + (WhileTest(n, x)
                   + (y.instrs + (JumpUnless(closed, Lbl(WhileCond, n)) + [Mark(Lbl(WhileEnd, n))])))),
             y.next, y.ok)
  }

  function DoTest(n: nat, x: Code): seq<Instr> {
    [Jnz(T(x.res), Lbl(DoBody, n), Lbl(DoEnd, n)), Mark(Lbl(DoEnd, n))]
  }

  function DoCode(n: nat, y: StmtCode, x: Code): StmtCode {
    StmtCode([Mark(Lbl(DoBody, n))] + (y.instrs + ([Mark(Lbl(DoCond, n))] + (x.instrs + DoTest(n, x)))), x.next, y.ok)
  }

  function ForTest(n: nat, x: Code, tested: bool): seq<Instr> {
    (if tested then [Jnz(T(x.res), Lbl(ForBody, n), Lbl(ForEnd, n))] else []) + [Mark(Lbl(ForBody, n))]
  }

  function ForLast(n: nat): seq<Instr> { [Jmp(Lbl(ForCond, n)), Mark(Lbl(ForEnd, n))] }

  /** A `for` loop after its initialisation. */
  function ForLoop(n: nat, x: Code, tested: bool, y: StmtCode, z: Code): seq<Instr> {
    [Mark(Lbl(ForCond, n))]
    + (x.instrs
       + (ForTest(n, x, tested)
          + (y.instrs + ([Mark(Lbl(ForPost, n))] + (z.instrs + ForLast(n))))))
  }

  function ForCode(n: nat, w: Code, x: Code, tested: bool, y: StmtCode, z: Code): StmtCode {
    StmtCode(w.instrs + ForLoop(n, x, tested, y, z), z.next, y.ok)
  }

  function ReturnCode(x: Code, rt: Ty): StmtCode { StmtCode(x.instrs + [Ret(rt, T(x.res))], x.next, true) }

  /** Jump to a label of the innermost loop; the compiler exits when there is none. */
  function JumpCode(ctx: seq<LoopCtx>, n: nat, kind: LabelKind): StmtCode {
    if ctx == [] then StmtCode([], n, false)
    else
      var c := ctx[|ctx| - 1];
      StmtCode([Jmp(Lbl(kind, if kind == WhileEnd then c.breakId else c.continueId))], n, true)
  }

  function SeqCode(x: StmtCode, y: StmtCode): StmtCode {
    StmtCode(x.instrs + y.instrs, y.next, x.ok && y.ok)
  }

  /** Code for a statement in a function returning `rt`, inside the loops `ctx` (innermost last). */
  function EmitStmt(s: TStmt, n: nat, ctx: seq<LoopCtx>, rt: Ty): (c: StmtCode)
    ensures n <= c.next
    decreases s
  {
    match s
    case TEval(e) => var c := EmitOpt(e, n); StmtCode(c.instrs, c.next, true)
    case TBlock(ss) => EmitStmts(ss, n, ctx, rt)
    case TIf(c, t, els) =>
      var x := EmitExpr(c, n);
      var y := EmitStmt(t, x.next + 1, ctx, rt);
      if els.Some? then IfElseCode(x, y, EmitStmt(els.value, y.next, ctx, rt), EndsInTerminator(t))
      else IfCode(x, y)
    case TWhile(c, body) =>
      var x := EmitExpr(c, n + 1);
      WhileCode(n, x, EmitStmt(body, x.next, ctx + [LoopCtx(n, n)], rt), EndsInTerminator(body))
    case TDo(body, c) =>
      var y := EmitStmt(body, n + 1, ctx + [LoopCtx(n, n)], rt);
      DoCode(n, y, EmitExpr(c, y.next))
    case TFor(i, c, p, body) =>
      var w := EmitOpt(i, n + 1);
      var x := EmitOpt(c, w.next);
      var y := EmitStmt(body, x.next, ctx + [LoopCtx(n, n)], rt);
      ForCode(n, w, x, c.Some?, y, EmitOpt(p, y.next))
    case TReturn(e) => ReturnCode(EmitExpr(e, n), rt)
    case TBreak => JumpCode(ctx, n, WhileEnd)
    case TContinue => JumpCode(ctx, n, WhileCond)
    case TDecl(id, ty, None) => StmtCode([], n, true)
    case TDecl(id, ty, Some(x)) => var c := AssignCode(n, id, ty, EmitExpr(x, n + 1)); StmtCode(c.instrs, c.next, true)
  }

  function EmitStmts(ss: seq<TStmt>, n: nat, ctx: seq<LoopCtx>, rt: Ty): (c: StmtCode)
    ensures n <= c.next
    decreases ss
  {
    if ss == [] then StmtCode([], n, true)
    else
      var x := EmitStmt(ss[0], n, ctx, rt);
      SeqCode(x, EmitStmts(ss[1..], x.next, ctx, rt))
  }

  /** Each parameter gets a slot and is stored into it. */
  function EmitParams(ps: seq<TParam>): seq<Instr> {
    if ps == [] then []
    else [Alloc(ps[0].id, Size(ps[0].ty)), Store(ps[0].ty, P(ps[0].id), V(ps[0].id))] + EmitParams(ps[1..])
  }

  /** Each declaration directly in the body gets a slot. */
  function EmitLocals(ss: seq<TStmt>): seq<Instr> {
    if ss == [] then []
    else (if ss[0].TDecl? then [Alloc(ss[0].id, Size(ss[0].ty))] else []) + EmitLocals(ss[1..])
  }

  function Prologue(f: TFunc): seq<Instr> {
    [Mark(Lbl(Start, 0))] + (EmitParams(f.params) + EmitLocals(f.body))
  }

  /** The whole function; `None` when the compiler exits with an error. */
  function EmitFunc(f: TFunc): Option<seq<Instr>> {
    var c := EmitStmts(f.body, 0, [], f.result);
    if !c.ok then None
    else Some(Prologue(f)
              + (c.instrs
                 + (if ListEndsInTerminator(f.body) then [] else [RetConst(f.result, 0)])))
  }
}
