/** Operand classes of emitted code. */
module OperandClasses {
  import opened Options
  import opened Words
  import opened Typed
  import opened Il
  import opened Codegen
  import opened FuncSim

  // ----- operand classes -----

  /** One class for each temporary of a function, and the classes of its parameters. */
  datatype Classes = Classes(temps: map<nat, Ty>, params: seq<Ty>)

  /** `x` may stand where class `cls` is wanted: an `l` name where `w` is, never the reverse. */
  predicate Fits(g: Classes, x: Name, cls: Ty) {
    match x
    case T(n) => n in g.temps && (g.temps[n] == cls || cls == Int)
    case P(n) => n < |g.params| && (g.params[n] == cls || cls == Int)
    case V(_) => true
  }

  predicate Gives(g: Classes, d: Name, cls: Ty) { d.T? && d.n in g.temps && g.temps[d.n] == cls }

  /** The instruction gets operands of the classes QBE requires. */
  predicate Classed(g: Classes, i: Instr) {
    match i
    case Mark(_) => true
    case Const(d, cls, _) => Gives(g, d, cls)
    case Copy(d, cls, s) => Gives(g, d, cls) && Fits(g, s, cls)
    case Extsw(d, s) => Gives(g, d, Long) && Fits(g, s, Int)
    case Bin(d, cls, op, a, b) => Gives(g, d, cls) && Fits(g, a, cls) && Fits(g, b, SecondClass(op, cls))
    case Cmp(d, _, cls, a, b) => Gives(g, d, Int) && Fits(g, a, cls) && Fits(g, b, cls)
    case Cnew0(d, a) => Gives(g, d, Int) && Fits(g, a, Int)
    case Load(d, cls, a) => Gives(g, d, cls) && Fits(g, a, Long)
    case Store(cls, s, a) => Fits(g, s, cls) && Fits(g, a, Long)
    case Alloc(_, _) => true
    case Jnz(a, _, _) => Fits(g, a, Int)
    case Jmp(_) => true
    case Ret(cls, s) => Fits(g, s, cls)
    case RetConst(_, _) => true
  }

  predicate AllClassed(g: Classes, code: seq<Instr>) {
    forall i :: 0 <= i < |code| ==> Classed(g, code[i])
  }

  /** `g` has classes for temporaries of its span only. */
  predicate Within(g: map<nat, Ty>, lo: nat, hi: nat) { forall n :: n in g ==> lo <= n < hi }

  lemma Bigger(g: map<nat, Ty>, h: map<nat, Ty>, ps: seq<Ty>, code: seq<Instr>)
    requires AllClassed(Classes(g, ps), code) && forall n :: n in g ==> n in h && h[n] == g[n]
    ensures AllClassed(Classes(h, ps), code)
  {
    forall i | 0 <= i < |code| ensures Classed(Classes(h, ps), code[i]) {
      assert Classed(Classes(g, ps), code[i]);
    }
  }

  lemma ClassedAppend(g: Classes, x: seq<Instr>, y: seq<Instr>)
    requires AllClassed(g, x) && AllClassed(g, y)
    ensures AllClassed(g, x + y)
  {
  }

  /** Code of the span `lo..hi` with a class for every temporary, the result's being `ty`. */
  ghost predicate Typing(g: map<nat, Ty>, ps: seq<Ty>, code: seq<Instr>, res: nat, ty: Ty, lo: nat, hi: nat) {
    Within(g, lo, hi) && AllClassed(Classes(g, ps), code) && res in g && g[res] == ty
  }

  /** Elaborated expressions give well-classed code. */
  lemma {:induction false} ExprClassed(e: TExpr, n: nat, lay: Layout, ps: seq<Ty>) returns (g: map<nat, Ty>)
    requires WellTyped(e, lay)
    ensures Typing(g, ps, EmitExpr(e, n).instrs, EmitExpr(e, n).res, TypeOf(e), n, EmitExpr(e, n).next)
    decreases e, 1
  {
    hide *;
    if e.TLit? || e.TVar? || e.TPostfix? { g := PlainClassed(e, n, lay, ps); }
    else if e.TArith? || e.TCompare? || e.TLogic? || e.TComma? { g := TwoClassed(e, n, lay, ps); }
    else if e.TAssign? { g := AssignmentClassed(e, n, lay, ps); }
    else { g := OtherClassed(e, n, lay, ps); }
  }

  lemma PlainClassed(e: TExpr, n: nat, lay: Layout, ps: seq<Ty>) returns (g: map<nat, Ty>)
    requires (e.TLit? || e.TVar? || e.TPostfix?) && WellTyped(e, lay)
    ensures Typing(g, ps, EmitExpr(e, n).instrs, EmitExpr(e, n).res, TypeOf(e), n, EmitExpr(e, n).next)
  {
    hide AllClassed, PostfixCode;
    if e.TLit? {
      g := map[n := e.ty];
      LitClassed(e, n, ps);
    } else if e.TVar? {
      g := map[n := Long, n + 1 := e.ty];
      VarClassed(e, n, ps);
    } else {
      g := map[n := Long, n + 1 := e.ty, n + 2 := e.ty, n + 3 := e.ty];
      PostfixClassed(e.inc, n, e.id, e.ty, ps);
      PostfixEnds(e.inc, n, e.id, e.ty);
    }
  }

  lemma PostfixEnds(inc: bool, n: nat, id: nat, ty: Ty)
    ensures PostfixCode(inc, n, id, ty).res == n + 1 && PostfixCode(inc, n, id, ty).next == n + 4
  {
  }

  lemma {:induction false} TwoClassed(e: TExpr, n: nat, lay: Layout, ps: seq<Ty>) returns (g: map<nat, Ty>)
    requires (e.TArith? || e.TCompare? || e.TLogic? || e.TComma?) && WellTyped(e, lay)
    ensures Typing(g, ps, EmitExpr(e, n).instrs, EmitExpr(e, n).res, TypeOf(e), n, EmitExpr(e, n).next)
    decreases e, 0
  {
    hide ArithCode, CompareCode, LogicCode, CommaCode, AllClassed, Within, Typing;
    var first := if e.TLogic? then n + 2 else n;
    var c := EmitExpr(e.l, first);
    var d := EmitExpr(e.r, c.next);
    var h := ExprClassed(e.l, first, lay, ps);
    var k := ExprClassed(e.r, c.next, lay, ps);
    if e.TArith? {
      g := (h + k)[d.next := TypeOf(e.l)];
      ArithClassed(h, k, ps, e.op, TypeOf(e.l), TypeOf(e.r), c, d, n);
    } else if e.TCompare? {
      g := (h + k)[d.next := Int];
      CompareClassed(h, k, ps, e.cmp, TypeOf(e.l), c, d, n);
    } else if e.TLogic? {
      g := (h + k)[d.next := Int][n + 1 := Int];
      LogicClassed(h, k, ps, e.isAnd, TypeOf(e.l), TypeOf(e.r), c, d, n);
    } else {
      g := h + k;
      CommaClassed(h, k, ps, TypeOf(e.l), TypeOf(e.r), c, d, n);
    }
  }

  lemma {:induction false} AssignmentClassed(e: TExpr, n: nat, lay: Layout, ps: seq<Ty>) returns (g: map<nat, Ty>)
    requires e.TAssign? && WellTyped(e, lay)
    ensures Typing(g, ps, EmitExpr(e, n).instrs, EmitExpr(e, n).res, TypeOf(e), n, EmitExpr(e, n).next)
    decreases e, 0
  {
    hide AssignCode, CompoundCode, AllClassed, Within, Typing;
    var c := EmitExpr(e.rhs, n + 1);
    var h := ExprClassed(e.rhs, n + 1, lay, ps);
    if e.aop.Some? {
      g := h[n := Long][c.next := e.ty][c.next + 1 := e.ty];
      CompoundClassed(h, ps, e.aop.value, e.id, e.ty, c, n);
    } else {
      g := h[n := Long];
      AssignClassed(h, ps, e.id, e.ty, c, n);
    }
  }

  lemma {:induction false} OtherClassed(e: TExpr, n: nat, lay: Layout, ps: seq<Ty>) returns (g: map<nat, Ty>)
    requires (e.TCast? || e.TCond?) && WellTyped(e, lay)
    ensures Typing(g, ps, EmitExpr(e, n).instrs, EmitExpr(e, n).res, TypeOf(e), n, EmitExpr(e, n).next)
    decreases e, 0
  {
    hide CastCode, CondCode, AllClassed, Within, Typing;
    if e.TCast? {
      var c := EmitExpr(e.e, n);
      var h := ExprClassed(e.e, n, lay, ps);
      g := h[c.next := e.to];
      CastClassed(h, ps, c, e.to, TypeOf(e.e), n);
    } else {
      var x := EmitExpr(e.c, n);
      var y := EmitExpr(e.a, x.next + 2);
      var h := ExprClassed(e.c, n, lay, ps);
      var k := ExprClassed(e.a, x.next + 2, lay, ps);
      var m := ExprClassed(e.b, y.next, lay, ps);
      g := (h + k + m)[x.next + 1 := e.ty];
      CondClassed(h, k, m, ps, TypeOf(e.c), x, y, EmitExpr(e.b, y.next), e.ty, n);
    }
  }

  lemma LitClassed(e: TExpr, n: nat, ps: seq<Ty>)
    requires e.TLit?
    ensures AllClassed(Classes(map[n := e.ty], ps), EmitExpr(e, n).instrs)
  {
  }

  lemma VarClassed(e: TExpr, n: nat, ps: seq<Ty>)
    requires e.TVar?
    ensures AllClassed(Classes(map[n := Long, n + 1 := e.ty], ps), EmitExpr(e, n).instrs)
  {
  }

  lemma PostfixClassed(inc: bool, n: nat, id: nat, ty: Ty, ps: seq<Ty>)
    ensures AllClassed(Classes(map[n := Long, n + 1 := ty, n + 2 := ty, n + 3 := ty], ps),
      PostfixCode(inc, n, id, ty).instrs)
  {
  }

  lemma CastClassed(h: map<nat, Ty>, ps: seq<Ty>, c: Code, to: Ty, from: Ty, n: nat)
    requires Typing(h, ps, c.instrs, c.res, from, n, c.next) && n <= c.next
    ensures var z := CastCode(c, to, from); Typing(h[c.next := to], ps, z.instrs, z.res, to, n, z.next)
  {
    Bigger(h, h[c.next := to], ps, c.instrs);
  }

  lemma ArithClassed(h: map<nat, Ty>, k: map<nat, Ty>, ps: seq<Ty>, op: ArithOp, ty: Ty, ty': Ty, c: Code, d: Code,
                     n: nat)
    requires Typing(h, ps, c.instrs, c.res, ty, n, c.next) && Typing(k, ps, d.instrs, d.res, ty', c.next, d.next)
    requires n <= c.next <= d.next && (IsShift(op) || ty == ty')
    ensures var z := ArithCode(op, ty, c, d); Typing((h + k)[d.next := ty], ps, z.instrs, z.res, ty, n, z.next)
  {
    var g := (h + k)[d.next := ty];
    Bigger(h, g, ps, c.instrs);
    Bigger(k, g, ps, d.instrs);
  }

  lemma CompareClassed(h: map<nat, Ty>, k: map<nat, Ty>, ps: seq<Ty>, cmp: CmpOp, ty: Ty, c: Code, d: Code, n: nat)
    requires Typing(h, ps, c.instrs, c.res, ty, n, c.next) && Typing(k, ps, d.instrs, d.res, ty, c.next, d.next)
    requires n <= c.next <= d.next
    ensures var z := CompareCode(cmp, ty, c, d); Typing((h + k)[d.next := Int], ps, z.instrs, z.res, Int, n, z.next)
  {
    var g := (h + k)[d.next := Int];
    Bigger(h, g, ps, c.instrs);
    Bigger(k, g, ps, d.instrs);
  }

  lemma LogicClassed(h: map<nat, Ty>, k: map<nat, Ty>, ps: seq<Ty>, isAnd: bool, ty: Ty, ty': Ty, c: Code, d: Code,
                     n: nat)
    requires Typing(h, ps, c.instrs, c.res, ty, n + 2, c.next) && Typing(k, ps, d.instrs, d.res, ty', c.next, d.next)
    requires n + 2 <= c.next <= d.next
    ensures var z := LogicCode(isAnd, n, c, d);
      Typing((h + k)[d.next := Int][n + 1 := Int], ps, z.instrs, z.res, Int, n, z.next)
  {
    var g := (h + k)[d.next := Int][n + 1 := Int];
    Bigger(h, g, ps, c.instrs);
    Bigger(k, g, ps, d.instrs);
    ClassedAppend(Classes(g, ps), d.instrs, LogicEnd(n, d));
    ClassedAppend(Classes(g, ps), LogicTest(isAnd, n, c.res), d.instrs + LogicEnd(n, d));
  }

  lemma AssignClassed(h: map<nat, Ty>, ps: seq<Ty>, id: nat, ty: Ty, c: Code, n: nat)
    requires Typing(h, ps, c.instrs, c.res, ty, n + 1, c.next) && n < c.next
    ensures var z := AssignCode(n, id, ty, c); Typing(h[n := Long], ps, z.instrs, z.res, ty, n, z.next)
  {
    Bigger(h, h[n := Long], ps, c.instrs);
  }

  lemma CompoundClassed(h: map<nat, Ty>, ps: seq<Ty>, op: ArithOp, id: nat, ty: Ty, c: Code, n: nat)
    requires Typing(h, ps, c.instrs, c.res, ty, n + 1, c.next) && n < c.next
    ensures
      var z := CompoundCode(op, n, id, ty, c);
      Typing(h[n := Long][c.next := ty][c.next + 1 := ty], ps, z.instrs, z.res, ty, n, z.next)
  {
    var g := h[n := Long][c.next := ty][c.next + 1 := ty];
    Bigger(h, g, ps, c.instrs);
    ClassedAppend(Classes(g, ps), c.instrs, CompoundEnd(op, ty, n, c));
  }

  lemma CondClassed(h: map<nat, Ty>, k: map<nat, Ty>, m: map<nat, Ty>, ps: seq<Ty>, test: Ty, x: Code, y: Code, z: Code,
                    ty: Ty, n: nat)
    requires Typing(h, ps, x.instrs, x.res, test, n, x.next) && Typing(k, ps, y.instrs, y.res, ty, x.next + 2, y.next)
    requires Typing(m, ps, z.instrs, z.res, ty, y.next, z.next) && n <= x.next && x.next + 2 <= y.next <= z.next
    ensures var c := CondCode(x, y, z, ty); Typing((h + k + m)[x.next + 1 := ty], ps, c.instrs, c.res, ty, n, c.next)
  {
    var g := (h + k + m)[x.next + 1 := ty];
    Bigger(h, g, ps, x.instrs);
    Bigger(k, g, ps, y.instrs);
    Bigger(m, g, ps, z.instrs);
    var gs := Classes(g, ps);
    assert AllClassed(gs, CondTest(x)) && AllClassed(gs, CondMiddle(x, y, ty)) && AllClassed(gs, CondLast(x, z, ty));
    ClassedAppend(gs, z.instrs, CondLast(x, z, ty));
    ClassedAppend(gs, CondMiddle(x, y, ty), z.instrs + CondLast(x, z, ty));
    ClassedAppend(gs, y.instrs, CondMiddle(x, y, ty) + (z.instrs + CondLast(x, z, ty)));
    ClassedAppend(gs, CondTest(x), y.instrs + (CondMiddle(x, y, ty) + (z.instrs + CondLast(x, z, ty))));
  }

  lemma CommaClassed(h: map<nat, Ty>, k: map<nat, Ty>, ps: seq<Ty>, ty: Ty, ty': Ty, c: Code, d: Code, n: nat)
    requires Typing(h, ps, c.instrs, c.res, ty, n, c.next) && Typing(k, ps, d.instrs, d.res, ty', c.next, d.next)
    requires n <= c.next <= d.next
    ensures var z := CommaCode(c, d); Typing(h + k, ps, z.instrs, z.res, ty', n, z.next)
  {
    Bigger(h, h + k, ps, c.instrs);
    Bigger(k, h + k, ps, d.instrs);
  }

  /** Statement code of the span `lo..hi`, every temporary with a class. */
  ghost predicate StmtTyping(g: map<nat, Ty>, ps: seq<Ty>, code: seq<Instr>, lo: nat, hi: nat) {
    Within(g, lo, hi) && AllClassed(Classes(g, ps), code)
  }

  lemma OptClassed(e: Option<TExpr>, n: nat, lay: Layout, ps: seq<Ty>) returns (g: map<nat, Ty>)
    requires WellTypedOpt(e, lay)
    ensures StmtTyping(g, ps, EmitOpt(e, n).instrs, n, EmitOpt(e, n).next)
    ensures e.Some? ==> EmitOpt(e, n).res in g
  {
    g := map[];
    if e.Some? { g := ExprClassed(e.value, n, lay, ps); }
  }

  lemma {:induction false} StmtClassed(s: TStmt, n: nat, ctx: seq<LoopCtx>, lay: Layout, rt: Ty, ps: seq<Ty>)
    returns (g: map<nat, Ty>)
    requires WellTypedStmt(s, lay, rt)
    ensures StmtTyping(g, ps, EmitStmt(s, n, ctx, rt).instrs, n, EmitStmt(s, n, ctx, rt).next)
    decreases s
  {
    hide EmitExpr, EmitOpt, AllClassed, IfCode, IfElseCode, WhileCode, DoCode, ForCode, ReturnCode, WellTyped;
    var inside := ctx + [LoopCtx(n, n)];
    match s
    case TEval(e) => g := OptClassed(e, n, lay, ps);
    case TBlock(ss) => g := StmtsClassed(ss, n, ctx, lay, rt, ps);
    case TIf(c, t, els) =>
      var x := EmitExpr(c, n);
      var y := EmitStmt(t, x.next + 1, ctx, rt);
      var h := ExprClassed(c, n, lay, ps);
      var k := StmtClassed(t, x.next + 1, ctx, lay, rt, ps);
      if els.Some? {
        var m := StmtClassed(els.value, y.next, ctx, lay, rt, ps);
        g := h + k + m;
        IfElseClassed(h, k, m, ps, n, TypeOf(c), x, y, EmitStmt(els.value, y.next, ctx, rt), EndsInTerminator(t));
      } else {
        g := h + k;
        IfClassed(h, k, ps, n, TypeOf(c), x, y);
      }
    case TWhile(c, body) =>
      var x := EmitExpr(c, n + 1);
      var h := ExprClassed(c, n + 1, lay, ps);
      var k := StmtClassed(body, x.next, inside, lay, rt, ps);
      g := h + k;
      WhileClassed(h, k, ps, n, TypeOf(c), x, EmitStmt(body, x.next, inside, rt), EndsInTerminator(body));
    case TDo(body, c) =>
      var y := EmitStmt(body, n + 1, inside, rt);
      var k := StmtClassed(body, n + 1, inside, lay, rt, ps);
      var h := ExprClassed(c, y.next, lay, ps);
      g := k + h;
      DoClassed(k, h, ps, n, TypeOf(c), y, EmitExpr(c, y.next));
    case TFor(i, c, p, body) =>
      var w := EmitOpt(i, n + 1);
      var x := EmitOpt(c, w.next);
      var y := EmitStmt(body, x.next, inside, rt);
      var g0 := OptClassed(i, n + 1, lay, ps);
      var g1 := OptClassed(c, w.next, lay, ps);
      var g2 := StmtClassed(body, x.next, inside, lay, rt, ps);
      var g3 := OptClassed(p, y.next, lay, ps);
      g := g0 + g1 + g2 + g3;
      ForClassed(g0, g1, g2, g3, ps, n, w, x, c.Some?, y, EmitOpt(p, y.next));
    case TReturn(e) =>
      g := ExprClassed(e, n, lay, ps);
      ReturnClassed(g, ps, n, EmitExpr(e, n), rt);
    case TBreak => g := map[]; JumpClassed(ctx, n, WhileEnd, ps);
    case TContinue => g := map[]; JumpClassed(ctx, n, WhileCond, ps);
    case TDecl(id, ty, e) => g := DeclClassed(s, n, ctx, lay, rt, ps);
  }

  lemma DeclClassed(s: TStmt, n: nat, ctx: seq<LoopCtx>, lay: Layout, rt: Ty, ps: seq<Ty>) returns (g: map<nat, Ty>)
    requires s.TDecl? && WellTypedStmt(s, lay, rt)
    ensures StmtTyping(g, ps, EmitStmt(s, n, ctx, rt).instrs, n, EmitStmt(s, n, ctx, rt).next)
  {
    g := map[];
    if s.initial.Some? { g := ExprClassed(TAssign(None, s.id, s.ty, s.initial.value), n, lay, ps); }
  }

  lemma JumpClassed(ctx: seq<LoopCtx>, n: nat, kind: LabelKind, ps: seq<Ty>)
    ensures AllClassed(Classes(map[], ps), JumpCode(ctx, n, kind).instrs)
  {
  }

  lemma ReturnClassed(g: map<nat, Ty>, ps: seq<Ty>, n: nat, x: Code, rt: Ty)
    requires Typing(g, ps, x.instrs, x.res, rt, n, x.next)
    ensures StmtTyping(g, ps, ReturnCode(x, rt).instrs, n, ReturnCode(x, rt).next)
  {
  }

  lemma {:induction false} StmtsClassed(ss: seq<TStmt>, n: nat, ctx: seq<LoopCtx>, lay: Layout, rt: Ty, ps: seq<Ty>)
    returns (g: map<nat, Ty>)
    requires WellTypedStmts(ss, lay, rt)
    ensures StmtTyping(g, ps, EmitStmts(ss, n, ctx, rt).instrs, n, EmitStmts(ss, n, ctx, rt).next)
    decreases ss
  {
    g := map[];
    if ss != [] {
      var x := EmitStmt(ss[0], n, ctx, rt);
      var h := StmtClassed(ss[0], n, ctx, lay, rt, ps);
      var k := StmtsClassed(ss[1..], x.next, ctx, lay, rt, ps);
      g := h + k;
      SeqClassed(h, k, ps, n, x, EmitStmts(ss[1..], x.next, ctx, rt));
    }
  }

  lemma SeqClassed(h: map<nat, Ty>, k: map<nat, Ty>, ps: seq<Ty>, n: nat, x: StmtCode, y: StmtCode)
    requires StmtTyping(h, ps, x.instrs, n, x.next) && StmtTyping(k, ps, y.instrs, x.next, y.next)
      && n <= x.next <= y.next
    ensures StmtTyping(h + k, ps, SeqCode(x, y).instrs, n, y.next)
  {
    Bigger(h, h + k, ps, x.instrs);
    Bigger(k, h + k, ps, y.instrs);
  }

  lemma IfClassed(h: map<nat, Ty>, k: map<nat, Ty>, ps: seq<Ty>, n: nat, test: Ty, x: Code, y: StmtCode)
    requires Typing(h, ps, x.instrs, x.res, test, n, x.next) && StmtTyping(k, ps, y.instrs, x.next + 1, y.next)
      && n <= x.next < y.next
    ensures StmtTyping(h + k, ps, IfCode(x, y).instrs, n, IfCode(x, y).next)
  {
    var g := Classes(h + k, ps);
    Bigger(h, h + k, ps, x.instrs);
    Bigger(k, h + k, ps, y.instrs);
    ClassedAppend(g, y.instrs, [Mark(Lbl(IfEnd, x.next))]);
    ClassedAppend(g, IfTest(x, IfEnd), y.instrs + [Mark(Lbl(IfEnd, x.next))]);
  }

  lemma IfElseClassed(h: map<nat, Ty>, k: map<nat, Ty>, m: map<nat, Ty>, ps: seq<Ty>, n: nat, test: Ty, x: Code,
                      y: StmtCode, z: StmtCode, closed: bool)
    requires Typing(h, ps, x.instrs, x.res, test, n, x.next) && StmtTyping(k, ps, y.instrs, x.next + 1, y.next)
    requires StmtTyping(m, ps, z.instrs, y.next, z.next) && n <= x.next < y.next <= z.next
    ensures StmtTyping(h + k + m, ps, IfElseCode(x, y, z, closed).instrs, n, IfElseCode(x, y, z, closed).next)
  {
    var g := Classes(h + k + m, ps);
    Bigger(h, h + k + m, ps, x.instrs);
    Bigger(k, h + k + m, ps, y.instrs);
    Bigger(m, h + k + m, ps, z.instrs);
    var jmp, els, last := JumpUnless(closed, Lbl(IfEnd, x.next)), [Mark(Lbl(IfElse, x.next))],
      [Mark(Lbl(IfEnd, x.next))];
    ClassedAppend(g, z.instrs, last);
    ClassedAppend(g, els, z.instrs + last);
    ClassedAppend(g, jmp, els + (z.instrs + last));
    ClassedAppend(g, y.instrs, jmp + (els + (z.instrs + last)));
    ClassedAppend(g, IfTest(x, IfElse), y.instrs + (jmp + (els + (z.instrs + last))));
  }

  lemma WhileClassed(h: map<nat, Ty>, k: map<nat, Ty>, ps: seq<Ty>, n: nat, test: Ty, x: Code, y: StmtCode,
                     closed: bool)
    requires Typing(h, ps, x.instrs, x.res, test, n + 1, x.next) && StmtTyping(k, ps, y.instrs, x.next, y.next)
      && n < x.next <= y.next
    ensures StmtTyping(h + k, ps, WhileCode(n, x, y, closed).instrs, n, WhileCode(n, x, y, closed).next)
  {
    var g := Classes(h + k, ps);
    Bigger(h, h + k, ps, x.instrs);
    Bigger(k, h + k, ps, y.instrs);
    var top, jmp, last := [Mark(Lbl(WhileCond, n))], JumpUnless(closed, Lbl(WhileCond, n)), [Mark(Lbl(WhileEnd, n))];
    ClassedAppend(g, jmp, last);
    ClassedAppend(g, y.instrs, jmp + last);
    ClassedAppend(g, WhileTest(n, x), y.instrs + (jmp + last));
    ClassedAppend(g, x.instrs, WhileTest(n, x) + (y.instrs + (jmp + last)));
    ClassedAppend(g, top, x.instrs + (WhileTest(n, x) + (y.instrs + (jmp + last))));
  }

  lemma DoClassed(k: map<nat, Ty>, h: map<nat, Ty>, ps: seq<Ty>, n: nat, test: Ty, y: StmtCode, x: Code)
    requires StmtTyping(k, ps, y.instrs, n + 1, y.next) && Typing(h, ps, x.instrs, x.res, test, y.next, x.next)
      && n < y.next <= x.next
    ensures StmtTyping(k + h, ps, DoCode(n, y, x).instrs, n, DoCode(n, y, x).next)
  {
    var g := Classes(k + h, ps);
    Bigger(h, k + h, ps, x.instrs);
    Bigger(k, k + h, ps, y.instrs);
    var top, mid := [Mark(Lbl(DoBody, n))], [Mark(Lbl(DoCond, n))];
    ClassedAppend(g, x.instrs, DoTest(n, x));
    ClassedAppend(g, mid, x.instrs + DoTest(n, x));
    ClassedAppend(g, y.instrs, mid + (x.instrs + DoTest(n, x)));
    ClassedAppend(g, top, y.instrs + (mid + (x.instrs + DoTest(n, x))));
  }

  lemma ForClassed(g0: map<nat, Ty>, g1: map<nat, Ty>, g2: map<nat, Ty>, g3: map<nat, Ty>, ps: seq<Ty>, n: nat,
                   w: Code, x: Code, tested: bool, y: StmtCode, z: Code)
    requires StmtTyping(g0, ps, w.instrs, n + 1, w.next) && StmtTyping(g1, ps, x.instrs, w.next, x.next)
    requires StmtTyping(g2, ps, y.instrs, x.next, y.next) && StmtTyping(g3, ps, z.instrs, y.next, z.next)
    requires n < w.next <= x.next <= y.next <= z.next && (tested ==> x.res in g1)
    ensures StmtTyping(g0 + g1 + g2 + g3, ps, ForCode(n, w, x, tested, y, z).instrs, n,
      ForCode(n, w, x, tested, y, z).next)
  {
    var all := g0 + g1 + g2 + g3;
    var g := Classes(all, ps);
    Bigger(g0, all, ps, w.instrs);
    Bigger(g1, all, ps, x.instrs);
    Bigger(g2, all, ps, y.instrs);
    Bigger(g3, all, ps, z.instrs);
    var top, test, mid, last := [Mark(Lbl(ForCond, n))], ForTest(n, x, tested), [Mark(Lbl(ForPost, n))], ForLast(n);
    assert AllClassed(g, test);
    ClassedAppend(g, z.instrs, last);
    ClassedAppend(g, mid, z.instrs + last);
    ClassedAppend(g, y.instrs, mid + (z.instrs + last));
    ClassedAppend(g, test, y.instrs + (mid + (z.instrs + last)));
    ClassedAppend(g, x.instrs, test + (y.instrs + (mid + (z.instrs + last))));
    ClassedAppend(g, top, x.instrs + (test + (y.instrs + (mid + (z.instrs + last)))));
    ClassedAppend(g, w.instrs, ForLoop(n, x, tested, y, z));
  }

  lemma {:induction false} ParamsClassed(qs: seq<TParam>, g: Classes)
    requires forall i :: 0 <= i < |qs| ==> qs[i].id < |g.params| && g.params[qs[i].id] == qs[i].ty
    ensures AllClassed(g, EmitParams(qs))
  {
    if qs != [] { ParamsClassed(qs[1..], g); }
  }

  lemma {:induction false} LocalsClassed(ss: seq<TStmt>, g: Classes)
    ensures AllClassed(g, EmitLocals(ss))
  {
    if ss != [] { LocalsClassed(ss[1..], g); }
  }

  /**
   Main result on classes: every temporary of a well-formed function has one class, and every operand fits
   its place.
   */
  lemma FunctionClassed(f: TFunc) returns (g: Classes)
    requires WellFormed(f) && EmitFunc(f).Some?
    ensures g.params == ParamTypes(f.params) && AllClassed(g, EmitFunc(f).value)
  {
    hide WellTypedStmts, EmitStmts, EmitParams, EmitLocals;
    var ps := ParamTypes(f.params);
    var b := EmitStmts(f.body, 0, [], f.result);
    var temps := StmtsClassed(f.body, 0, [], LayoutOf(f), f.result, ps);
    g := Classes(temps, ps);
    ParamsClassed(f.params, g);
    LocalsClassed(f.body, g);
    ClassedAppend(g, EmitParams(f.params), EmitLocals(f.body));
    ClassedAppend(g, [Mark(Lbl(Start, 0))], EmitParams(f.params) + EmitLocals(f.body));
    ClassedAppend(g, b.instrs, Epilogue(f));
    ClassedAppend(g, Prologue(f), b.instrs + Epilogue(f));
  }
}
