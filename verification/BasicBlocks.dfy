/** Basic blocks of emitted code: where only a label follows a jump or return. */
module BasicBlocks {
  import opened Options
  import opened Words
  import opened Typed
  import opened Il
  import opened Codegen
  import opened FuncSim

  /** Ends a basic block. */
  predicate Ender(i: Instr) { i.Jmp? || i.Jnz? || i.Ret? || i.RetConst? }

  /** Begins with a label, or is empty. */
  predicate Opens(code: seq<Instr>) { code == [] || code[0].Mark? }

  /** Only a label follows the end of a block. */
  predicate Blocks(code: seq<Instr>) {
    code == [] || ((Ender(code[0]) ==> Opens(code[1..])) && Blocks(code[1..]))
  }

  predicate Ends(code: seq<Instr>) { code != [] && Ender(code[|code| - 1]) }

  /** `y` may follow `x`. */
  predicate Joins(x: seq<Instr>, y: seq<Instr>) { Ends(x) ==> Opens(y) }

  lemma {:induction false} BlocksAppend(x: seq<Instr>, y: seq<Instr>)
    ensures Blocks(x + y) <==> Blocks(x) && Blocks(y) && Joins(x, y)
    ensures Ends(x + y) <==> if y == [] then Ends(x) else Ends(y)
    ensures Opens(x + y) <==> if x == [] then Opens(y) else Opens(x)
  {
    if x == [] {
      assert x + y == y;
    } else {
      assert (x + y)[1..] == x[1..] + y;
      BlocksAppend(x[1..], y);
    }
  }

  lemma Alone(i: Instr)
    ensures Blocks([i]) && (Ends([i]) <==> Ender(i)) && (Opens([i]) <==> i.Mark?)
  {
  }

  lemma Pair(i: Instr, j: Instr)
    ensures Blocks([i, j]) <==> Ender(i) ==> j.Mark?
    ensures (Ends([i, j]) <==> Ender(j)) && (Opens([i, j]) <==> i.Mark?)
  {
    assert [i, j] == [i] + [j];
    BlocksAppend([i], [j]);
  }

  /** Code that is its own block structure and goes on after its end. */
  predicate Inner(code: seq<Instr>) { Blocks(code) && !Ends(code) }

  lemma InnerAppend(x: seq<Instr>, y: seq<Instr>)
    requires Inner(x) && Inner(y)
    ensures Inner(x + y)
  {
    BlocksAppend(x, y);
  }

  lemma {:induction false} ExprBlocks(e: TExpr, n: nat)
    ensures Inner(EmitExpr(e, n).instrs)
    decreases e, 1
  {
    hide *;
    if e.TLit? || e.TVar? || e.TPostfix? { PlainBlocks(e, n); }
    else if e.TArith? || e.TCompare? || e.TLogic? || e.TComma? { TwoBlocks(e, n); }
    else { OtherBlocks(e, n); }
  }

  lemma PlainBlocks(e: TExpr, n: nat)
    requires e.TLit? || e.TVar? || e.TPostfix?
    ensures Inner(EmitExpr(e, n).instrs)
  {
    StraightInner(EmitExpr(e, n).instrs);
  }

  lemma {:induction false} TwoBlocks(e: TExpr, n: nat)
    requires e.TArith? || e.TCompare? || e.TLogic? || e.TComma?
    ensures Inner(EmitExpr(e, n).instrs)
    decreases e, 0
  {
    hide Inner, ArithCode, CompareCode, LogicCode;
    var first := if e.TLogic? then n + 2 else n;
    var c := EmitExpr(e.l, first);
    ExprBlocks(e.l, first);
    ExprBlocks(e.r, c.next);
    if e.TLogic? { LogicBlocks(e.isAnd, n, c, EmitExpr(e.r, c.next)); }
    else if e.TComma? { InnerAppend(c.instrs, EmitExpr(e.r, c.next).instrs); }
    else { OperatorBlocks(c, EmitExpr(e.r, c.next)); }
  }

  lemma {:induction false} OtherBlocks(e: TExpr, n: nat)
    requires e.TCast? || e.TAssign? || e.TCond?
    ensures Inner(EmitExpr(e, n).instrs)
    decreases e, 0
  {
    hide Inner, CastCode, AssignCode, CompoundCode, CondCode;
    if e.TCast? {
      ExprBlocks(e.e, n);
      CastBlocks(EmitExpr(e.e, n), e.to, TypeOf(e.e));
    } else if e.TAssign? {
      ExprBlocks(e.rhs, n + 1);
      AssignBlocks(e.aop, n, e.id, e.ty, EmitExpr(e.rhs, n + 1));
    } else {
      var x := EmitExpr(e.c, n);
      var y := EmitExpr(e.a, x.next + 2);
      ExprBlocks(e.c, n);
      ExprBlocks(e.a, x.next + 2);
      ExprBlocks(e.b, y.next);
      CondBlocks(x, y, EmitExpr(e.b, y.next), e.ty);
    }
  }

  lemma CastBlocks(c: Code, to: Ty, from: Ty)
    requires Inner(c.instrs)
    ensures Inner(CastCode(c, to, from).instrs)
  {
    StraightInner([Convert(c.next, to, c.res, from)]);
    InnerAppend(c.instrs, [Convert(c.next, to, c.res, from)]);
  }

  lemma OperatorBlocks(c: Code, d: Code)
    requires Inner(c.instrs) && Inner(d.instrs)
    ensures forall op, ty :: Inner(ArithCode(op, ty, c, d).instrs)
    ensures forall cmp, ty :: Inner(CompareCode(cmp, ty, c, d).instrs)
  {
    forall op, ty ensures Inner(ArithCode(op, ty, c, d).instrs) {
      Three(c.instrs, d.instrs, [Bin(T(d.next), ty, op, T(c.res), T(d.res))]);
    }
    forall cmp, ty ensures Inner(CompareCode(cmp, ty, c, d).instrs) {
      Three(c.instrs, d.instrs, [Cmp(T(d.next), cmp, ty, T(c.res), T(d.res))]);
    }
  }

  lemma AssignBlocks(aop: Option<ArithOp>, n: nat, id: nat, ty: Ty, c: Code)
    requires Inner(c.instrs)
    ensures aop.None? ==> Inner(AssignCode(n, id, ty, c).instrs)
    ensures aop.Some? ==> Inner(CompoundCode(aop.value, n, id, ty, c).instrs)
  {
    StraightInner(AddressOf(n, id));
    Three(AddressOf(n, id), c.instrs, AssignEnd(ty, n, c));
    if aop.Some? { Three(AddressOf(n, id), c.instrs, CompoundEnd(aop.value, ty, n, c)); }
  }

  lemma {:induction false} StraightInner(c: seq<Instr>)
    requires forall i :: 0 <= i < |c| ==> !Ender(c[i])
    ensures Inner(c)
  {
    if c != [] { StraightInner(c[1..]); }
  }

  lemma Three(x: seq<Instr>, y: seq<Instr>, z: seq<Instr>)
    requires Inner(x) && Inner(y) && forall i :: 0 <= i < |z| ==> !Ender(z[i])
    ensures Inner(x + (y + z))
  {
    hide Inner;
    StraightInner(z);
    InnerAppend(y, z);
    InnerAppend(x, y + z);
  }

  lemma LogicBlocks(isAnd: bool, n: nat, c: Code, d: Code)
    requires Inner(c.instrs) && Inner(d.instrs)
    ensures Inner(LogicCode(isAnd, n, c, d).instrs)
  {
    var i, last := LogicTest(isAnd, n, c.res), LogicEnd(n, d);
    StraightInner(last);
    Pair(i[1], i[2]);
    assert i == [i[0]] + [i[1], i[2]];
    BlocksAppend([i[0]], [i[1], i[2]]);
    InnerAppend(d.instrs, last);
    InnerAppend(i, d.instrs + last);
    InnerAppend(c.instrs, i + (d.instrs + last));
  }

  lemma CondBlocks(x: Code, y: Code, z: Code, ty: Ty)
    requires Inner(x.instrs) && Inner(y.instrs) && Inner(z.instrs)
    ensures Inner(CondCode(x, y, z, ty).instrs)
  {
    var i0, i1, i2 := CondTest(x), CondMiddle(x, y, ty), CondLast(x, z, ty);
    Pair(i0[0], i0[1]);
    StraightInner(i2);
    Pair(i1[1], i1[2]);
    assert i1 == [i1[0]] + [i1[1], i1[2]];
    BlocksAppend([i1[0]], [i1[1], i1[2]]);
    InnerAppend(z.instrs, i2);
    InnerAppend(i1, z.instrs + i2);
    InnerAppend(y.instrs, i1 + (z.instrs + i2));
    InnerAppend(i0, y.instrs + (i1 + (z.instrs + i2)));
    InnerAppend(x.instrs, i0 + (y.instrs + (i1 + (z.instrs + i2))));
  }

  // ----- statements -----

  /** Emits no instruction. */
  predicate Silent(s: TStmt) {
    match s
    case TEval(e) => e.None?
    case TDecl(_, _, e) => e.None?
    case TBlock(ss) => SilentAll(ss)
    case _ => false
  }

  predicate SilentAll(ss: seq<TStmt>) { ss == [] || (Silent(ss[0]) && SilentAll(ss[1..])) }

  /** The code begins with a label, or there is none. */
  predicate StartsBlock(s: TStmt) {
    match s
    case TWhile(_, _) => true
    case TDo(_, _) => true
    case TFor(i, _, _, _) => i.None?
    case TBlock(ss) => StartsBlockAll(ss)
    case _ => Silent(s)
  }

  predicate StartsBlockAll(ss: seq<TStmt>) {
    ss == [] || if Silent(ss[0]) then StartsBlockAll(ss[1..]) else StartsBlock(ss[0])
  }

  /** The last instruction jumps or returns. */
  predicate Leaves(s: TStmt) {
    match s
    case TReturn(_) => true
    case TBreak => true
    case TContinue => true
    case TBlock(ss) => LeavesAll(ss)
    case _ => false
  }

  predicate LeavesAll(ss: seq<TStmt>) {
    ss != [] && if SilentAll(ss[1..]) then Leaves(ss[0]) else LeavesAll(ss[1..])
  }

  /** No code follows a jump or return before the next label. */
  predicate Clean(s: TStmt) {
    match s
    case TBlock(ss) => CleanAll(ss)
    case TIf(_, t, els) =>
      Clean(t) && (els.Some? ==> Clean(els.value) && (Leaves(t) ==> EndsInTerminator(t)))
    case TWhile(_, body) => Clean(body) && (Leaves(body) ==> EndsInTerminator(body))
    case TDo(body, _) => Clean(body)
    case TFor(_, _, _, body) => Clean(body)
    case _ => true
  }

  predicate CleanAll(ss: seq<TStmt>) {
    ss == [] || (Clean(ss[0]) && CleanAll(ss[1..]) && (Leaves(ss[0]) ==> StartsBlockAll(ss[1..])))
  }

  /** What the syntax says of the code. */
  ghost predicate Shaped(c: seq<Instr>, silent: bool, opens: bool, leaves: bool, clean: bool) {
    (c == [] <==> silent) && (Opens(c) <==> opens) && (Ends(c) <==> leaves) && (Blocks(c) <==> clean)
  }

  /** A statement that ends in a terminator leaves. */
  lemma {:induction false} TerminatorLeaves(s: TStmt)
    requires EndsInTerminator(s)
    ensures Leaves(s) && !Silent(s)
    decreases s
  {
    if s.TBlock? { TerminatorsLeave(s.stmts); }
  }

  lemma {:induction false} TerminatorsLeave(ss: seq<TStmt>)
    requires ListEndsInTerminator(ss)
    ensures LeavesAll(ss) && !SilentAll(ss)
    decreases ss
  {
    if |ss| == 1 {
      TerminatorLeaves(ss[0]);
      assert ss[1..] == [];
    } else {
      TerminatorsLeave(ss[1..]);
    }
  }

  /** Between two pieces that go on, with labels or jumps around. */
  lemma IfBlocks(x: Code, y: StmtCode)
    requires Inner(x.instrs)
    ensures var c := IfCode(x, y).instrs; c != [] && !Ends(c) && (Blocks(c) <==> Blocks(y.instrs))
    ensures x.instrs != [] && !Opens(x.instrs) ==> !Opens(IfCode(x, y).instrs)
  {
    var i, last := IfTest(x, IfEnd), [Mark(Lbl(IfEnd, x.next))];
    hide Blocks, Opens, Ends;
    Pair(i[0], i[1]);
    Alone(last[0]);
    BlocksAppend(y.instrs, last);
    BlocksAppend(i, y.instrs + last);
    BlocksAppend(x.instrs, i + (y.instrs + last));
  }

  lemma IfElseBlocks(x: Code, y: StmtCode, z: StmtCode, closed: bool)
    requires Inner(x.instrs) && (closed ==> Ends(y.instrs))
    ensures
      var c := IfElseCode(x, y, z, closed).instrs;
      c != [] && !Ends(c) && (Blocks(c) <==> Blocks(y.instrs) && Blocks(z.instrs) && (Ends(y.instrs) ==> closed))
    ensures x.instrs != [] && !Opens(x.instrs) ==> !Opens(IfElseCode(x, y, z, closed).instrs)
  {
    var i, jmp, els, last := IfTest(x, IfElse), JumpUnless(closed, Lbl(IfEnd, x.next)), [Mark(Lbl(IfElse, x.next))],
      [Mark(Lbl(IfEnd, x.next))];
    Pair(i[0], i[1]);
    Alone(els[0]);
    Alone(last[0]);
    if !closed { Alone(jmp[0]); }
    BlocksAppend(z.instrs, last);
    BlocksAppend(els, z.instrs + last);
    BlocksAppend(jmp, els + (z.instrs + last));
    BlocksAppend(y.instrs, jmp + (els + (z.instrs + last)));
    BlocksAppend(i, y.instrs + (jmp + (els + (z.instrs + last))));
    BlocksAppend(x.instrs, i + (y.instrs + (jmp + (els + (z.instrs + last)))));
  }

  lemma WhileBlocks(n: nat, x: Code, y: StmtCode, closed: bool)
    requires Inner(x.instrs) && (closed ==> Ends(y.instrs))
    ensures
      var c := WhileCode(n, x, y, closed).instrs;
      c != [] && Opens(c) && !Ends(c) && (Blocks(c) <==> Blocks(y.instrs) && (Ends(y.instrs) ==> closed))
  {
    var top, i, jmp, last := [Mark(Lbl(WhileCond, n))], WhileTest(n, x), JumpUnless(closed, Lbl(WhileCond, n)),
      [Mark(Lbl(WhileEnd, n))];
    Alone(top[0]);
    Pair(i[0], i[1]);
    Alone(last[0]);
    if !closed { Alone(jmp[0]); }
    BlocksAppend(jmp, last);
    BlocksAppend(y.instrs, jmp + last);
    BlocksAppend(i, y.instrs + (jmp + last));
    BlocksAppend(x.instrs, i + (y.instrs + (jmp + last)));
    BlocksAppend(top, x.instrs + (i + (y.instrs + (jmp + last))));
  }

  lemma DoBlocks(n: nat, y: StmtCode, x: Code)
    requires Inner(x.instrs)
    ensures var c := DoCode(n, y, x).instrs; c != [] && Opens(c) && !Ends(c) && (Blocks(c) <==> Blocks(y.instrs))
  {
    var top, mid := [Mark(Lbl(DoBody, n))], [Mark(Lbl(DoCond, n))];
    Alone(top[0]);
    Alone(mid[0]);
    Pair(DoTest(n, x)[0], DoTest(n, x)[1]);
    BlocksAppend(x.instrs, DoTest(n, x));
    BlocksAppend(mid, x.instrs + DoTest(n, x));
    BlocksAppend(y.instrs, mid + (x.instrs + DoTest(n, x)));
    BlocksAppend(top, y.instrs + (mid + (x.instrs + DoTest(n, x))));
  }

  /** Code that goes on leaves the blocks to what follows it. */
  lemma InnerBefore(x: seq<Instr>, y: seq<Instr>)
    requires Inner(x) && y != [] && !Ends(y)
    ensures x + y != [] && !Ends(x + y) && (Blocks(x + y) <==> Blocks(y))
    ensures Opens(x + y) <==> if x == [] then Opens(y) else Opens(x)
  {
    BlocksAppend(x, y);
  }

  lemma ForBodyBlocks(n: nat, y: StmtCode, z: Code)
    requires Inner(z.instrs)
    ensures
      var t := y.instrs + ([Mark(Lbl(ForPost, n))] + (z.instrs + ForLast(n)));
      t != [] && !Ends(t) && (Blocks(t) <==> Blocks(y.instrs))
  {
    var mid, last := [Mark(Lbl(ForPost, n))], ForLast(n);
    Pair(last[0], last[1]);
    Alone(mid[0]);
    hide Blocks, Opens, Ends, Inner, ForLast;
    InnerMeans(z.instrs);
    InnerBefore(z.instrs, last);
    BlocksAppend(mid, z.instrs + last);
    BlocksAppend(y.instrs, mid + (z.instrs + last));
  }

  lemma ForBlocks(n: nat, w: Code, x: Code, tested: bool, y: StmtCode, z: Code)
    requires Inner(w.instrs) && Inner(x.instrs) && Inner(z.instrs)
    ensures
      var c := ForCode(n, w, x, tested, y, z).instrs;
      c != [] && !Ends(c) && (Blocks(c) <==> Blocks(y.instrs)) && (Opens(c) <==> Opens(w.instrs))
  {
    hide Blocks, Ends, Inner, ForLast, ForTest;
    var top, test, t := [Mark(Lbl(ForCond, n))], ForTest(n, x, tested),
      y.instrs + ([Mark(Lbl(ForPost, n))] + (z.instrs + ForLast(n)));
    ForBodyBlocks(n, y, z);
    ForTestBlocks(n, x, tested);
    Alone(top[0]);
    MarkInner(Lbl(ForCond, n));
    InnerBefore(test, t);
    InnerBefore(x.instrs, test + t);
    InnerBefore(top, x.instrs + (test + t));
    InnerBefore(w.instrs, ForLoop(n, x, tested, y, z));
  }

  lemma MarkInner(l: Lbl)
    ensures Inner([Mark(l)])
  {
    Alone(Mark(l));
  }

  lemma ForTestBlocks(n: nat, x: Code, tested: bool)
    ensures Inner(ForTest(n, x, tested)) && (tested ==> !Opens(ForTest(n, x, tested)))
      && (!tested ==> Opens(ForTest(n, x, tested)))
  {
    var jnz, mark := Jnz(T(x.res), Lbl(ForBody, n), Lbl(ForEnd, n)), Mark(Lbl(ForBody, n));
    Pair(jnz, mark);
    Alone(mark);
    assert ForTest(n, x, tested) == if tested then [jnz, mark] else [mark];
  }

  /** Expression code is never empty and never starts with a label. */
  lemma {:induction false} ExprStarts(e: TExpr, n: nat)
    ensures EmitExpr(e, n).instrs != [] && !Opens(EmitExpr(e, n).instrs)
  {
    match e
    case TLit(_, _) =>
    case TVar(_, _) =>
    case TCast(x, _) => ExprStarts(x, n);
    case TArith(_, l, _) => ExprStarts(l, n);
    case TCompare(_, l, _) => ExprStarts(l, n);
    case TLogic(_, l, _) => ExprStarts(l, n + 2);
    case TAssign(_, _, _, _) =>
    case TPostfix(_, _, _) =>
    case TCond(c, _, _, _) => ExprStarts(c, n);
    case TComma(l, _) => ExprStarts(l, n);
  }

  lemma OptBlocks(e: Option<TExpr>, n: nat)
    ensures Inner(EmitOpt(e, n).instrs) && (Opens(EmitOpt(e, n).instrs) <==> e.None?)
      && (EmitOpt(e, n).instrs == [] <==> e.None?)
  {
    if e.Some? {
      ExprBlocks(e.value, n);
      ExprStarts(e.value, n);
    }
  }

  ghost predicate StmtShaped(s: TStmt, c: StmtCode) {
    c.ok ==> Shaped(c.instrs, Silent(s), StartsBlock(s), Leaves(s), Clean(s))
  }

  ghost predicate StmtsShaped(ss: seq<TStmt>, c: StmtCode) {
    c.ok ==> Shaped(c.instrs, SilentAll(ss), StartsBlockAll(ss), LeavesAll(ss), CleanAll(ss))
  }

  /** Main result on blocks: the syntax decides exactly when the code of a statement has well-formed blocks. */
  lemma {:induction false} StmtBlocks(s: TStmt, n: nat, ctx: seq<LoopCtx>, rt: Ty)
    ensures StmtShaped(s, EmitStmt(s, n, ctx, rt))
    decreases s, 1
  {
    hide *;
    if s.TEval? { EvalStmtBlocks(s, n, ctx, rt); }
    else if s.TBlock? { BlockStmtBlocks(s, n, ctx, rt); }
    else if s.TIf? { IfStmtBlocks(s, n, ctx, rt); }
    else if s.TWhile? { WhileStmtBlocks(s, n, ctx, rt); }
    else if s.TDo? { DoStmtBlocks(s, n, ctx, rt); }
    else if s.TFor? { ForStmtBlocks(s, n, ctx, rt); }
    else if s.TDecl? { DeclStmtBlocks(s, n, ctx, rt); }
    else { JumpStmtBlocks(s, n, ctx, rt); }
  }

  lemma EvalStmtBlocks(s: TStmt, n: nat, ctx: seq<LoopCtx>, rt: Ty)
    requires s.TEval?
    ensures StmtShaped(s, EmitStmt(s, n, ctx, rt))
  {
    hide Inner, Opens, Ends, Blocks, EmitExpr, EmitOpt;
    OptBlocks(s.e, n);
    InnerMeans(EmitOpt(s.e, n).instrs);
  }

  lemma {:induction false} BlockStmtBlocks(s: TStmt, n: nat, ctx: seq<LoopCtx>, rt: Ty)
    requires s.TBlock?
    ensures StmtShaped(s, EmitStmt(s, n, ctx, rt))
    decreases s, 0
  {
    hide Opens, Ends, Blocks;
    StmtsBlocks(s.stmts, n, ctx, rt);
  }

  lemma {:induction false} IfStmtBlocks(s: TStmt, n: nat, ctx: seq<LoopCtx>, rt: Ty)
    requires s.TIf?
    ensures StmtShaped(s, EmitStmt(s, n, ctx, rt))
    decreases s, 0
  {
    hide Inner, Opens, Ends, Blocks, EmitExpr, EmitOpt, EndsInTerminator;
    var x := EmitExpr(s.cond, n);
    var y := EmitStmt(s.thn, x.next + 1, ctx, rt);
    ExprBlocks(s.cond, n);
    ExprStarts(s.cond, n);
    StmtBlocks(s.thn, x.next + 1, ctx, rt);
    if s.els.None? {
      IfBlocks(x, y);
    } else {
      StmtBlocks(s.els.value, y.next, ctx, rt);
      if y.ok {
        if EndsInTerminator(s.thn) { TerminatorLeaves(s.thn); }
        IfElseBlocks(x, y, EmitStmt(s.els.value, y.next, ctx, rt), EndsInTerminator(s.thn));
      }
    }
  }

  lemma {:induction false} WhileStmtBlocks(s: TStmt, n: nat, ctx: seq<LoopCtx>, rt: Ty)
    requires s.TWhile?
    ensures StmtShaped(s, EmitStmt(s, n, ctx, rt))
    decreases s, 0
  {
    hide Inner, Opens, Ends, Blocks, EmitExpr, EmitOpt, EndsInTerminator;
    var x := EmitExpr(s.cond, n + 1);
    var y := EmitStmt(s.body, x.next, ctx + [LoopCtx(n, n)], rt);
    ExprBlocks(s.cond, n + 1);
    StmtBlocks(s.body, x.next, ctx + [LoopCtx(n, n)], rt);
    if y.ok {
      if EndsInTerminator(s.body) { TerminatorLeaves(s.body); }
      WhileBlocks(n, x, y, EndsInTerminator(s.body));
    }
  }

  lemma {:induction false} DoStmtBlocks(s: TStmt, n: nat, ctx: seq<LoopCtx>, rt: Ty)
    requires s.TDo?
    ensures StmtShaped(s, EmitStmt(s, n, ctx, rt))
    decreases s, 0
  {
    hide Inner, Opens, Ends, Blocks, EmitExpr, EmitOpt;
    var y := EmitStmt(s.body, n + 1, ctx + [LoopCtx(n, n)], rt);
    StmtBlocks(s.body, n + 1, ctx + [LoopCtx(n, n)], rt);
    ExprBlocks(s.cond, y.next);
    DoBlocks(n, y, EmitExpr(s.cond, y.next));
  }

  lemma {:induction false} ForStmtBlocks(s: TStmt, n: nat, ctx: seq<LoopCtx>, rt: Ty)
    requires s.TFor?
    ensures StmtShaped(s, EmitStmt(s, n, ctx, rt))
    decreases s, 0
  {
    hide Inner, Opens, Ends, Blocks, EmitExpr, EmitOpt;
    var w := EmitOpt(s.init, n + 1);
    var x := EmitOpt(s.test, w.next);
    var y := EmitStmt(s.body, x.next, ctx + [LoopCtx(n, n)], rt);
    OptBlocks(s.init, n + 1);
    OptBlocks(s.test, w.next);
    StmtBlocks(s.body, x.next, ctx + [LoopCtx(n, n)], rt);
    OptBlocks(s.post, y.next);
    ForBlocks(n, w, x, s.test.Some?, y, EmitOpt(s.post, y.next));
  }

  lemma DeclStmtBlocks(s: TStmt, n: nat, ctx: seq<LoopCtx>, rt: Ty)
    requires s.TDecl?
    ensures StmtShaped(s, EmitStmt(s, n, ctx, rt))
  {
    hide Inner, Opens, Ends, Blocks, EmitExpr, EmitOpt, AssignCode;
    if s.initial.None? {
      NoCode();
    } else {
      ExprBlocks(TAssign(None, s.id, s.ty, s.initial.value), n);
      ExprStarts(TAssign(None, s.id, s.ty, s.initial.value), n);
      DeclCode(s.id, s.ty, s.initial.value, n);
      InnerMeans(EmitStmt(s, n, ctx, rt).instrs);
    }
  }

  lemma JumpStmtBlocks(s: TStmt, n: nat, ctx: seq<LoopCtx>, rt: Ty)
    requires s.TReturn? || s.TBreak? || s.TContinue?
    ensures StmtShaped(s, EmitStmt(s, n, ctx, rt))
  {
    hide Inner, Opens, Ends, Blocks, EmitExpr, EmitOpt, ReturnCode;
    if s.TReturn? {
      ExprBlocks(s.value, n);
      ExprStarts(s.value, n);
      ReturnBlocks(EmitExpr(s.value, n), rt);
    } else {
      JumpBlocks(ctx, n, if s.TBreak? then WhileEnd else WhileCond);
    }
  }

  lemma DeclCode(id: nat, ty: Ty, e: TExpr, n: nat)
    ensures EmitExpr(TAssign(None, id, ty, e), n) == AssignCode(n, id, ty, EmitExpr(e, n + 1))
  {
  }

  lemma InnerMeans(c: seq<Instr>)
    requires Inner(c)
    ensures Blocks(c) && !Ends(c)
  {
  }

  lemma NoCode()
    ensures Shaped([], true, true, false, true)
  {
  }

  lemma ReturnBlocks(x: Code, rt: Ty)
    requires Inner(x.instrs) && x.instrs != [] && !Opens(x.instrs)
    ensures Shaped(ReturnCode(x, rt).instrs, false, false, true, true)
  {
    BlocksAppend(x.instrs, [Ret(rt, T(x.res))]);
  }

  lemma JumpBlocks(ctx: seq<LoopCtx>, n: nat, kind: LabelKind)
    ensures ctx != [] ==> Shaped(JumpCode(ctx, n, kind).instrs, false, false, true, true)
  {
  }

  lemma {:induction false} StmtsBlocks(ss: seq<TStmt>, n: nat, ctx: seq<LoopCtx>, rt: Ty)
    ensures StmtsShaped(ss, EmitStmts(ss, n, ctx, rt))
    decreases ss
  {
    hide Opens, Ends, Blocks;
    if ss == [] {
      NoCode();
    } else {
      var x := EmitStmt(ss[0], n, ctx, rt);
      var y := EmitStmts(ss[1..], x.next, ctx, rt);
      StmtBlocks(ss[0], n, ctx, rt);
      StmtsBlocks(ss[1..], x.next, ctx, rt);
      BlocksAppend(x.instrs, y.instrs);
      if x.ok && y.ok {
        if Silent(ss[0]) { SilentFacts(ss[0]); }
        if SilentAll(ss[1..]) { SilentRest(ss[1..]); }
      }
    }
  }

  lemma {:induction false} SilentFacts(s: TStmt)
    requires Silent(s)
    ensures StartsBlock(s) && !Leaves(s)
    decreases s
  {
    if s.TBlock? { SilentRest(s.stmts); }
  }

  lemma {:induction false} SilentRest(ss: seq<TStmt>)
    requires SilentAll(ss)
    ensures StartsBlockAll(ss) && !LeavesAll(ss)
    decreases ss
  {
    if ss != [] {
      SilentFacts(ss[0]);
      SilentRest(ss[1..]);
    }
  }

  // ----- functions -----

  /** No code follows a jump or return before the next label, the final `ret 0` included. */
  predicate CleanFunction(f: TFunc) {
    CleanAll(f.body) && (LeavesAll(f.body) ==> ListEndsInTerminator(f.body))
  }

  lemma {:induction false} ParamsInner(ps: seq<TParam>)
    ensures Inner(EmitParams(ps))
  {
    if ps != [] {
      ParamsInner(ps[1..]);
      StraightInner([Alloc(ps[0].id, Size(ps[0].ty)), Store(ps[0].ty, P(ps[0].id), V(ps[0].id))]);
      InnerAppend([Alloc(ps[0].id, Size(ps[0].ty)), Store(ps[0].ty, P(ps[0].id), V(ps[0].id))], EmitParams(ps[1..]));
    }
  }

  lemma {:induction false} LocalsInner(ss: seq<TStmt>)
    ensures Inner(EmitLocals(ss))
  {
    if ss != [] {
      LocalsInner(ss[1..]);
      InnerAppend(if ss[0].TDecl? then [Alloc(ss[0].id, Size(ss[0].ty))] else [], EmitLocals(ss[1..]));
    }
  }

  /** The code always ends in a jump or return; its blocks are well formed exactly for clean functions. */
  lemma FunctionBlocks(f: TFunc)
    requires EmitFunc(f).Some?
    ensures Ends(EmitFunc(f).value)
    ensures Blocks(EmitFunc(f).value) <==> CleanFunction(f)
  {
    hide EmitStmts, EmitParams, EmitLocals, CleanAll, LeavesAll, SilentAll, StartsBlockAll;
    var b := EmitStmts(f.body, 0, [], f.result).instrs;
    StmtsBlocks(f.body, 0, [], f.result);
    ParamsInner(f.params);
    LocalsInner(f.body);
    InnerAppend(EmitParams(f.params), EmitLocals(f.body));
    InnerAppend([Mark(Lbl(Start, 0))], EmitParams(f.params) + EmitLocals(f.body));
    if ListEndsInTerminator(f.body) { TerminatorsLeave(f.body); }
    BlocksAppend(b, Epilogue(f));
    BlocksAppend(Prologue(f), b + Epilogue(f));
  }

  /** In every list of statements only the last may end in a terminator. */
  predicate Tidy(s: TStmt) {
    match s
    case TBlock(ss) => TidyAll(ss)
    case TIf(_, t, els) => Tidy(t) && (els.Some? ==> Tidy(els.value))
    case TWhile(_, body) => Tidy(body)
    case TDo(body, _) => Tidy(body)
    case TFor(_, _, _, body) => Tidy(body)
    case _ => true
  }

  predicate TidyAll(ss: seq<TStmt>) {
    ss == [] || (Tidy(ss[0]) && TidyAll(ss[1..]) && (|ss| > 1 ==> !EndsInTerminator(ss[0])))
  }

  /** Code without statements after a terminator is clean, and there the terminator test is exact. */
  lemma {:induction false} TidyClean(s: TStmt)
    requires Tidy(s)
    ensures Clean(s) && (Leaves(s) <==> EndsInTerminator(s))
    decreases s
  {
    match s
    case TBlock(ss) => TidyCleanAll(ss);
    case TIf(_, t, els) =>
      TidyClean(t);
      if els.Some? { TidyClean(els.value); }
    case TWhile(_, body) => TidyClean(body);
    case TDo(body, _) => TidyClean(body);
    case TFor(_, _, _, body) => TidyClean(body);
    case _ =>
  }

  lemma {:induction false} TidyCleanAll(ss: seq<TStmt>)
    requires TidyAll(ss)
    ensures CleanAll(ss) && (LeavesAll(ss) <==> ListEndsInTerminator(ss))
    decreases ss
  {
    if ss != [] {
      TidyClean(ss[0]);
      TidyCleanAll(ss[1..]);
      if |ss| == 1 {
        assert ss[1..] == [];
      } else {
        assert ss[1..][|ss[1..]| - 1] == ss[|ss| - 1];
        if SilentAll(ss[1..]) { SilentRest(ss[1..]); }
      }
    }
  }

  /** Functions without statements after a terminator compile to well-formed blocks. */
  lemma TidyFunction(f: TFunc)
    requires EmitFunc(f).Some? && TidyAll(f.body)
    ensures Blocks(EmitFunc(f).value) && Ends(EmitFunc(f).value)
  {
    TidyCleanAll(f.body);
    FunctionBlocks(f);
  }

  /** When the terminator test says yes of a statement, the code emitted for it ends in a jump or return. */
  lemma TerminatorEnds(s: TStmt, n: nat, ctx: seq<LoopCtx>, rt: Ty)
    requires EndsInTerminator(s) && EmitStmt(s, n, ctx, rt).ok
    ensures Ends(EmitStmt(s, n, ctx, rt).instrs)
  {
    hide Ends, EmitStmt, EndsInTerminator;
    StmtBlocks(s, n, ctx, rt);
    TerminatorLeaves(s);
  }

  /** Without statements after a terminator the test is exact, and the code has well-formed blocks. */
  lemma TidyEnds(s: TStmt, n: nat, ctx: seq<LoopCtx>, rt: Ty)
    requires Tidy(s) && EmitStmt(s, n, ctx, rt).ok
    ensures Ends(EmitStmt(s, n, ctx, rt).instrs) <==> EndsInTerminator(s)
    ensures Blocks(EmitStmt(s, n, ctx, rt).instrs)
  {
    hide Ends, Blocks, EmitStmt, EndsInTerminator;
    StmtBlocks(s, n, ctx, rt);
    TidyClean(s);
  }
}
