/** The code emitted for a statement does what the statement does. */
module StmtSim {
  import opened Options
  import opened Words
  import opened Typed
  import opened Meaning
  import opened Il
  import opened Codegen
  import opened LowTests
  import opened ExprSim

  ghost predicate Halts(o: Origin, v: Val, r: Reached) {
    forall c :: c == Running(o.b, o.regs, o.mem) ==> Run(o.code, r.k, c) == Halted(v, r.mem)
  }

  ghost predicate GoesOn(o: Origin, r: Reached) {
    forall c :: c == Running(o.b, o.regs, o.mem) ==> Run(o.code, r.k, c).Running?
  }

  lemma Going(o: Origin, at: nat, r: Reached)
    requires Reaches(o, at, r)
    ensures GoesOn(o, r)
  {
  }

  /** Where `break` and `continue` go: the labels of the innermost loop when that is a `while`. */
  datatype Exits = Exits(brk: nat, cont: nat)

  ghost predicate ExitsAt(code: seq<Instr>, ctx: seq<LoopCtx>, inner: Enclosing, x: Exits) {
    inner == WhileLoop ==>
      ctx != [] && x.brk < |code| && x.cont < |code|
      && code[x.brk] == Mark(Lbl(WhileEnd, ctx[|ctx| - 1].breakId))
      && code[x.cont] == Mark(Lbl(WhileCond, ctx[|ctx| - 1].continueId))
  }

  /** After `p`, the run does what the outcome says; the code of the statement ends at `end`. */
  ghost predicate Follows(o: Origin, end: nat, x: Exits, p: Reached, out: Outcome, fuel: nat, rt: Ty, lay: Layout,
                          r: Reached)
  {
    match out
    case Normal(st) => Reaches(o, end, r) && Match(st, lay, r.regs, r.mem) && r.k >= p.k
    case Broke(st) => Reaches(o, x.brk, r) && Match(st, lay, r.regs, r.mem) && r.k >= p.k
    case Continued(st) => Reaches(o, x.cont, r) && Match(st, lay, r.regs, r.mem) && r.k >= p.k
    case Returned(v, st) => Halts(o, Enc(rt, v), r) && InRange(rt, v) && Match(st, lay, r.regs, r.mem)
    case Undefined => true
    case OutOfFuel => GoesOn(o, r) && r.k >= p.k + fuel
  }

  /** The run stands, after `p`, in a matching state of supported code. */
  ghost predicate Stands(o: Origin, at: nat, p: Reached, st: Meaning.Store, lay: Layout) {
    UniqueLabels(o.code) && Reaches(o, at, p) && Match(st, lay, p.regs, p.mem)
  }

  predicate Supported(s: TStmt, lay: Layout, rt: Ty, inner: Enclosing) {
    WellTypedStmt(s, lay, rt) && WhileJumps(s, inner)
  }

  predicate SupportedAll(ss: seq<TStmt>, lay: Layout, rt: Ty, inner: Enclosing) {
    WellTypedStmts(ss, lay, rt) && WhileJumpsAll(ss, inner)
  }

  /** A statement that ends in a terminator is never left normally. */
  lemma {:induction false} TerminatorNotNormal(s: TStmt, st: Meaning.Store, fuel: nat)
    requires EndsInTerminator(s)
    ensures !Exec(s, st, fuel).Normal?
    decreases s
  {
    if s.TBlock? { TerminatorsNotNormal(s.stmts, st, fuel); }
  }

  lemma {:induction false} TerminatorsNotNormal(ss: seq<TStmt>, st: Meaning.Store, fuel: nat)
    requires ListEndsInTerminator(ss)
    ensures !ExecAll(ss, st, fuel).Normal?
    decreases ss
  {
    var out := Exec(ss[0], st, fuel);
    if |ss| == 1 {
      TerminatorNotNormal(ss[0], st, fuel);
    } else if out.Normal? {
      TerminatorsNotNormal(ss[1..], out.st, fuel);
    }
  }

  // ----- expressions in statements -----

  /** An optional expression leaves the run at the end of its code. */
  lemma SimOpt(o: Origin, at: nat, p: Reached, e: Option<TExpr>, n: nat, lay: Layout, st: Meaning.Store)
    returns (r: Reached)
    requires Stands(o, at, p, st, lay) && At(o.code, at, EmitOpt(e, n).instrs)
    requires WellTypedOpt(e, lay) && EvalOpt(LowOpt(e), st).Some?
    ensures Stands(o, at + |EmitOpt(e, n).instrs|, r, EvalOpt(LowOpt(e), st).value.st, lay) && r.k >= p.k
    ensures e.Some? ==> Evaluates(o, at, p, e.value, n, lay, st, r)
  {
    match e
    case None => r := p;
    case Some(x) => r := SimExpr(o, at, p, x, n, lay, st);
  }

  /** A condition: its temporary holds a value whose test has the outcome of the test in `Low`. */
  lemma SimTest(o: Origin, at: nat, p: Reached, e: TExpr, n: nat, lay: Layout, st: Meaning.Store, v: Evaluated)
    returns (r: Reached, w: int)
    requires Stands(o, at, p, st, lay) && At(o.code, at, EmitExpr(e, n).instrs)
    requires WellTyped(e, lay) && Eval(Tested(Low(e)), st) == Some(v)
    ensures
      var c := EmitExpr(e, n);
      Yields(o, at + |c.instrs|, p, c.res, TypeOf(e), n, c.next, lay, Evaluated(w, v.st), r)
    ensures v.v == Seen(TypeOf(e), w)
  {
    hide Match, Frame, Reaches, UniqueLabels, Enc, At, EmitExpr, Eval, Low, Tested, Seen, WellTyped, InRange, TypeOf;
    TestedEval(Low(e), st);
    LowTypes(e);
    w := Eval(Low(e), st).value.v;
    r := SimExpr(o, at, p, e, n, lay, st);
  }

  lemma ChainRet(o: Origin, at: nat, p: Reached, ty: Ty, s: nat, v: int) returns (r: Reached)
    requires Reaches(o, at, p) && at < |o.code| && o.code[at] == Ret(ty, T(s))
    requires T(s) in p.regs && p.regs[T(s)] == Enc(ty, v)
    ensures r == p.(k := p.k + 1) && Halts(o, Enc(ty, v), r)
  {
    r := p.(k := p.k + 1);
    var c := Running(o.b, o.regs, o.mem);
    RunAdd(o.code, p.k, 1, c);
    assert Run(o.code, p.k, c) == Running(at, p.regs, p.mem);
    assert Run(o.code, 0, Halted(Enc(ty, v), p.mem)) == Halted(Enc(ty, v), p.mem);
  }

  /** A jump lands on the label defined at `to`. */
  lemma JumpTo(o: Origin, at: nat, p: Reached, to: nat) returns (r: Reached)
    requires UniqueLabels(o.code) && Reaches(o, at, p)
    requires at < |o.code| && to < |o.code| && o.code[to].Mark? && o.code[at] == Jmp(o.code[to].l)
    ensures r == p.(k := p.k + 1) && Reaches(o, to, r)
  {
    FindUnique(o.code, o.code[to].l, 0, to);
    r := ChainStep(o, at, p, to, p.regs, p.mem);
  }

  // ----- statements -----

  /** Main result for statements: the code does what the statement does, every test cast to `int`. */
  lemma {:induction false} SimStmt(o: Origin, at: nat, p: Reached, s: TStmt, n: nat, ctx: seq<LoopCtx>,
                                   inner: Enclosing, x: Exits,
                                   rt: Ty, lay: Layout, st: Meaning.Store, fuel: nat) returns (r: Reached)
    requires Stands(o, at, p, st, lay) && At(o.code, at, EmitStmt(s, n, ctx, rt).instrs)
    requires Supported(s, lay, rt, inner) && ExitsAt(o.code, ctx, inner, x)
    ensures Follows(o, at + |EmitStmt(s, n, ctx, rt).instrs|, x, p, Exec(LowStmt(s), st, fuel), fuel, rt, lay, r)
    decreases fuel, s, 4
  {
    hide At, EmitStmt, Exec, Match, Reaches, Halts, GoesOn, Enc, Stands, ExitsAt, WellTypedStmt,
      WhileJumps;
    if Exec(LowStmt(s), st, fuel).Undefined? { return p; }
    if s.TIf? { r := SimIf(o, at, p, s, n, ctx, inner, x, rt, lay, st, fuel); }
    else if s.TWhile? || s.TDo? || s.TFor? { r := SimLoop(o, at, p, s, n, ctx, inner, x, rt, lay, st, fuel); }
    else if s.TDecl? { r := SimDecl(o, at, p, s, n, ctx, x, rt, lay, st, fuel); }
    else { r := SimSimple(o, at, p, s, n, ctx, inner, x, rt, lay, st, fuel); }
  }

  lemma SimLoop(o: Origin, at: nat, p: Reached, s: TStmt, n: nat, ctx: seq<LoopCtx>, inner: Enclosing, x: Exits,
                rt: Ty, lay: Layout, st: Meaning.Store, fuel: nat) returns (r: Reached)
    requires (s.TWhile? || s.TDo? || s.TFor?) && Stands(o, at, p, st, lay)
      && At(o.code, at, EmitStmt(s, n, ctx, rt).instrs)
    requires Supported(s, lay, rt, inner) && !Exec(LowStmt(s), st, fuel).Undefined?
    ensures Follows(o, at + |EmitStmt(s, n, ctx, rt).instrs|, x, p, Exec(LowStmt(s), st, fuel), fuel, rt, lay, r)
    decreases fuel, s, 3
  {
    hide At, EmitStmt, Exec, Follows, Stands, WellTypedStmt;
    if s.TWhile? { r := SimWhile(o, at, p, s, n, ctx, x, rt, lay, st, fuel); }
    else if s.TDo? { r := SimDo(o, at, p, s, n, ctx, x, rt, lay, st, fuel); }
    else { r := SimFor(o, at, p, s, n, ctx, x, rt, lay, st, fuel); }
  }

  lemma SimSimple(o: Origin, at: nat, p: Reached, s: TStmt, n: nat, ctx: seq<LoopCtx>, inner: Enclosing, x: Exits,
                  rt: Ty, lay: Layout, st: Meaning.Store, fuel: nat) returns (r: Reached)
    requires s.TEval? || s.TBlock? || s.TReturn? || s.TBreak? || s.TContinue?
    requires Stands(o, at, p, st, lay) && At(o.code, at, EmitStmt(s, n, ctx, rt).instrs)
    requires Supported(s, lay, rt, inner) && ExitsAt(o.code, ctx, inner, x) && !Exec(LowStmt(s), st, fuel).Undefined?
    ensures Follows(o, at + |EmitStmt(s, n, ctx, rt).instrs|, x, p, Exec(LowStmt(s), st, fuel), fuel, rt, lay, r)
    decreases fuel, s, 3
  {
    hide At, EmitExpr, Match, Frame, Reaches, UniqueLabels, Enc;
    if s.TEval? { r := SimOpt(o, at, p, s.e, n, lay, st); }
    else if s.TBlock? { r := SimStmts(o, at, p, s.stmts, n, ctx, inner, x, rt, lay, st, fuel); }
    else if s.TReturn? { r := SimReturn(o, at, p, s.value, n, rt, lay, st); }
    else if s.TBreak? { r := SimJump(o, at, p, n, ctx, WhileEnd, x.brk); }
    else { r := SimJump(o, at, p, n, ctx, WhileCond, x.cont); }
  }

  lemma {:induction false} SimStmts(o: Origin, at: nat, p: Reached, ss: seq<TStmt>, n: nat, ctx: seq<LoopCtx>,
                                    inner: Enclosing, x: Exits,
                                    rt: Ty, lay: Layout, st: Meaning.Store, fuel: nat) returns (r: Reached)
    requires Stands(o, at, p, st, lay) && At(o.code, at, EmitStmts(ss, n, ctx, rt).instrs)
    requires SupportedAll(ss, lay, rt, inner) && ExitsAt(o.code, ctx, inner, x)
    ensures Follows(o, at + |EmitStmts(ss, n, ctx, rt).instrs|, x, p, ExecAll(LowStmts(ss), st, fuel), fuel, rt, lay, r)
    decreases fuel, ss, 2
  {
    hide At, EmitExpr, EmitStmt, Exec, Eval, WellTyped, WellTypedStmt, WhileJumps, Match, Frame,
      Reaches;
    hide UniqueLabels, Enc, ExitsAt, Halts, Typed.TypeOf;
    if ss == [] { return p; }
    LowHead(ss);
    var c := EmitStmt(ss[0], n, ctx, rt);
    var d := EmitStmts(ss[1..], c.next, ctx, rt);
    assert EmitStmts(ss, n, ctx, rt) == SeqCode(c, d);
    AtAppend(o.code, at, c.instrs, d.instrs);
    assert SupportedAll(ss[1..], lay, rt, inner);
    r := SimStmt(o, at, p, ss[0], n, ctx, inner, x, rt, lay, st, fuel);
    var out := Exec(LowStmt(ss[0]), st, fuel);
    if out.Normal? {
      r := SimStmts(o, at + |c.instrs|, r, ss[1..], c.next, ctx, inner, x, rt, lay, out.st, fuel);
    }
  }

  lemma SimReturn(o: Origin, at: nat, p: Reached, e: TExpr, n: nat, rt: Ty, lay: Layout, st: Meaning.Store)
    returns (r: Reached)
    requires Stands(o, at, p, st, lay) && At(o.code, at, ReturnCode(EmitExpr(e, n), rt).instrs)
    requires WellTyped(e, lay) && TypeOf(e) == rt && Eval(Low(e), st).Some?
    ensures Halts(o, Enc(rt, Eval(Low(e), st).value.v), r) && Match(Eval(Low(e), st).value.st, lay, r.regs, r.mem)
    ensures InRange(rt, Eval(Low(e), st).value.v)
  {
    var c := EmitExpr(e, n);
    var last := [Ret(rt, T(c.res))];
    AtAppend(o.code, at, c.instrs, last);
    assert o.code[at + |c.instrs| + 0] == last[0];
    r := SimExpr(o, at, p, e, n, lay, st);
    r := ChainRet(o, at + |c.instrs|, r, rt, c.res, Eval(Low(e), st).value.v);
  }

  lemma SimJump(o: Origin, at: nat, p: Reached, n: nat, ctx: seq<LoopCtx>, kind: LabelKind, to: nat)
    returns (r: Reached)
    requires UniqueLabels(o.code) && Reaches(o, at, p) && At(o.code, at, JumpCode(ctx, n, kind).instrs)
    requires ctx != [] && to < |o.code|
    requires
      o.code[to] == Mark(Lbl(kind, if kind == WhileEnd then ctx[|ctx| - 1].breakId else ctx[|ctx| - 1].continueId))
    ensures r == p.(k := p.k + 1) && Reaches(o, to, r)
  {
    assert o.code[at + 0] == JumpCode(ctx, n, kind).instrs[0];
    r := JumpTo(o, at, p, to);
  }

  lemma SimDecl(o: Origin, at: nat, p: Reached, s: TStmt, n: nat, ctx: seq<LoopCtx>, x: Exits,
                rt: Ty, lay: Layout, st: Meaning.Store, fuel: nat) returns (r: Reached)
    requires s.TDecl? && Stands(o, at, p, st, lay) && At(o.code, at, EmitStmt(s, n, ctx, rt).instrs)
    requires WellTypedStmt(s, lay, rt) && !Exec(LowStmt(s), st, fuel).Undefined?
    ensures Follows(o, at + |EmitStmt(s, n, ctx, rt).instrs|, x, p, Exec(LowStmt(s), st, fuel), fuel, rt, lay, r)
  {
    hide Match, Frame, Reaches, UniqueLabels, Enc, Eval, EmitExpr, WellTyped, TypeOf, InRange, Halts, GoesOn;
    match s.initial
    case None => r := p;
    case Some(e) =>
      var c := EmitExpr(e, n + 1);
      var v := Eval(Low(e), st).value;
      var last := AssignEnd(s.ty, n, c);
      r := SimRhs(o, at, p, s.id, e, last, n, lay, st);
      assert o.code[at + 1 + |c.instrs| + 0] == last[0];
      r := ChainStore(o, at + 1 + |c.instrs|, r, s.ty, c.res, v.v, n, s.id, v.st, lay);
  }

  // ----- if -----

  lemma SimIf(o: Origin, at: nat, p: Reached, s: TStmt, n: nat, ctx: seq<LoopCtx>, inner: Enclosing, x: Exits,
              rt: Ty, lay: Layout, st: Meaning.Store, fuel: nat) returns (r: Reached)
    requires s.TIf? && Stands(o, at, p, st, lay) && At(o.code, at, EmitStmt(s, n, ctx, rt).instrs)
    requires Supported(s, lay, rt, inner) && ExitsAt(o.code, ctx, inner, x) && !Exec(LowStmt(s), st, fuel).Undefined?
    ensures Follows(o, at + |EmitStmt(s, n, ctx, rt).instrs|, x, p, Exec(LowStmt(s), st, fuel), fuel, rt, lay, r)
    decreases fuel, s, 2
  {
    hide At, EmitExpr, Eval, WellTyped, Match, Frame, Reaches, UniqueLabels, Enc, EndsInTerminator, Follows,
      ExitsAt;
    hide Typed.TypeOf;
    var c := EmitExpr(s.cond, n);
    var y := EmitStmt(s.thn, c.next + 1, ctx, rt);
    var v := Eval(Tested(Low(s.cond)), st).value;
    if s.els.Some? {
      var z := EmitStmt(s.els.value, y.next, ctx, rt);
      assert EmitStmt(s, n, ctx, rt) == IfElseCode(c, y, z, EndsInTerminator(s.thn));
      r := SimIfElse(o, at, p, s, c, y, z, n, ctx, inner, x, rt, lay, st, v, fuel);
    } else {
      assert EmitStmt(s, n, ctx, rt) == IfCode(c, y);
      r := SimIfThen(o, at, p, s, c, y, n, ctx, inner, x, rt, lay, st, v, fuel);
    }
  }

  lemma IfLayout(code: seq<Instr>, at: nat, c: Code, y: StmtCode)
    requires At(code, at, IfCode(c, y).instrs)
    ensures
      var j := at + |c.instrs|;
      At(code, at, c.instrs) && At(code, j + 2, y.instrs) && j + 2 + |y.instrs| < |code|
      && code[j] == IfTest(c, IfEnd)[0] && code[j + 1] == IfTest(c, IfEnd)[1]
      && code[j + 2 + |y.instrs|] == Mark(Lbl(IfEnd, c.next))
  {
    var i, last := IfTest(c, IfEnd), [Mark(Lbl(IfEnd, c.next))];
    var j := at + |c.instrs|;
    AtAppend(code, at, c.instrs, i + (y.instrs + last));
    AtAppend(code, j, i, y.instrs + last);
    AtAppend(code, j + 2, y.instrs, last);
    assert code[j + 0] == i[0] && code[j + 1] == i[1] && code[j + 2 + |y.instrs| + 0] == last[0];
  }

  lemma SimIfThen(o: Origin, at: nat, p: Reached, s: TStmt, c: Code, y: StmtCode, n: nat, ctx: seq<LoopCtx>,
                  inner: Enclosing, x: Exits,
                  rt: Ty, lay: Layout, st: Meaning.Store, v: Evaluated, fuel: nat) returns (r: Reached)
    requires s.TIf? && Stands(o, at, p, st, lay) && At(o.code, at, IfCode(c, y).instrs)
      && ExitsAt(o.code, ctx, inner, x)
    requires c == EmitExpr(s.cond, n) && y == EmitStmt(s.thn, c.next + 1, ctx, rt)
      && Eval(Tested(Low(s.cond)), st) == Some(v)
    requires WellTyped(s.cond, lay) && Supported(s.thn, lay, rt, inner)
    ensures Follows(o, at + |IfCode(c, y).instrs|, x, p,
                    if v.v != 0 then Exec(LowStmt(s.thn), v.st, fuel) else Normal(v.st), fuel, rt, lay, r)
    decreases fuel, s, 1
  {
    hide At, EmitExpr, EmitStmt, Eval, Exec, Low, LowStmt, Tested, Seen, WellTyped, WellTypedStmt, WhileJumps,
      Typed.TypeOf,
      Enc, Match, Frame, Reaches, UniqueLabels;
    IfLayout(o.code, at, c, y);
    var j := at + |c.instrs|;
    var end := j + 2 + |y.instrs|;
    var ty := TypeOf(s.cond);
    var w: int;
    r, w := SimTest(o, at, p, s.cond, n, lay, st, v);
    if v.v != 0 {
      r := ChainJnz(o, j, r, c.res, ty, w, j + 1);
      r := SimStmt(o, j + 2, r, s.thn, c.next + 1, ctx, inner, x, rt, lay, v.st, fuel);
      if Exec(LowStmt(s.thn), v.st, fuel).Normal? { r := ChainMark(o, end, r); }
    } else {
      r := ChainJnz(o, j, r, c.res, ty, w, end);
    }
  }

  lemma IfElseLayout(code: seq<Instr>, at: nat, c: Code, y: StmtCode, z: StmtCode, closed: bool)
    requires At(code, at, IfElseCode(c, y, z, closed).instrs)
    ensures
      var j := at + |c.instrs|;
      var k := j + 2 + |y.instrs|;
      var m := k + if closed then 0 else 1;
      At(code, at, c.instrs) && At(code, j + 2, y.instrs) && At(code, m + 1, z.instrs)
      && m + 1 + |z.instrs| < |code|
      && code[j] == IfTest(c, IfElse)[0] && code[j + 1] == IfTest(c, IfElse)[1]
      && (!closed ==> code[k] == Jmp(Lbl(IfEnd, c.next)))
      && code[m] == Mark(Lbl(IfElse, c.next)) && code[m + 1 + |z.instrs|] == Mark(Lbl(IfEnd, c.next))
  {
    var i, jmp, els, last := IfTest(c, IfElse), JumpUnless(closed, Lbl(IfEnd, c.next)), [Mark(Lbl(IfElse, c.next))],
      [Mark(Lbl(IfEnd, c.next))];
    var j := at + |c.instrs|;
    var k := j + 2 + |y.instrs|;
    var m := k + |jmp|;
    AtAppend(code, at, c.instrs, i + (y.instrs + (jmp + (els + (z.instrs + last)))));
    AtAppend(code, j, i, y.instrs + (jmp + (els + (z.instrs + last))));
    AtAppend(code, j + 2, y.instrs, jmp + (els + (z.instrs + last)));
    AtAppend(code, k, jmp, els + (z.instrs + last));
    AtAppend(code, m, els, z.instrs + last);
    AtAppend(code, m + 1, z.instrs, last);
    assert code[j + 0] == i[0] && code[j + 1] == i[1] && code[m + 0] == els[0]
      && code[m + 1 + |z.instrs| + 0] == last[0];
    if !closed { assert code[k + 0] == jmp[0]; }
  }

  lemma SimIfElse(o: Origin, at: nat, p: Reached, s: TStmt, c: Code, y: StmtCode, z: StmtCode, n: nat,
                  ctx: seq<LoopCtx>, inner: Enclosing,
                  x: Exits, rt: Ty, lay: Layout, st: Meaning.Store, v: Evaluated, fuel: nat) returns (r: Reached)
    requires s.TIf? && s.els.Some? && Stands(o, at, p, st, lay) && ExitsAt(o.code, ctx, inner, x)
    requires At(o.code, at, IfElseCode(c, y, z, EndsInTerminator(s.thn)).instrs)
    requires c == EmitExpr(s.cond, n) && y == EmitStmt(s.thn, c.next + 1, ctx, rt)
      && z == EmitStmt(s.els.value, y.next, ctx, rt)
    requires Eval(Tested(Low(s.cond)), st) == Some(v)
    requires WellTyped(s.cond, lay)
    requires Supported(s.thn, lay, rt, inner) && Supported(s.els.value, lay, rt, inner)
    ensures Follows(o, at + |IfElseCode(c, y, z, EndsInTerminator(s.thn)).instrs|, x, p,
                    Exec(LowStmt(if v.v != 0 then s.thn else s.els.value), v.st, fuel), fuel, rt, lay, r)
    decreases fuel, s, 1
  {
    hide At, EmitExpr, EmitStmt, Eval, Exec, Low, LowStmt, Tested, Seen, WellTyped, WellTypedStmt, WhileJumps,
      Typed.TypeOf,
      Enc, EndsInTerminator, Match, Frame, Reaches, UniqueLabels;
    var closed := EndsInTerminator(s.thn);
    IfElseLayout(o.code, at, c, y, z, closed);
    if closed {
      LowTerminator(s.thn);
      TerminatorNotNormal(LowStmt(s.thn), v.st, fuel);
    }
    var j := at + |c.instrs|;
    var k := j + 2 + |y.instrs|;
    var m := k + if closed then 0 else 1;
    var end := m + 1 + |z.instrs|;
    var ty := TypeOf(s.cond);
    var w: int;
    r, w := SimTest(o, at, p, s.cond, n, lay, st, v);
    if v.v != 0 {
      r := ChainJnz(o, j, r, c.res, ty, w, j + 1);
      r := SimStmt(o, j + 2, r, s.thn, c.next + 1, ctx, inner, x, rt, lay, v.st, fuel);
      if Exec(LowStmt(s.thn), v.st, fuel).Normal? { r := ChainJmp(o, k, r, end); }
    } else {
      r := ChainJnz(o, j, r, c.res, ty, w, m);
      r := SimStmt(o, m + 1, r, s.els.value, y.next, ctx, inner, x, rt, lay, v.st, fuel);
      if Exec(LowStmt(s.els.value), v.st, fuel).Normal? { r := ChainMark(o, end, r); }
    }
  }

  // ----- while -----

  lemma WhileLayout(code: seq<Instr>, at: nat, n: nat, c: Code, y: StmtCode, closed: bool)
    requires At(code, at, WhileCode(n, c, y, closed).instrs)
    ensures
      var j := at + 1 + |c.instrs|;
      var k := j + 2 + |y.instrs|;
      var m := k + if closed then 0 else 1;
      At(code, at + 1, c.instrs) && At(code, j + 2, y.instrs) && m < |code|
      && code[at] == Mark(Lbl(WhileCond, n))
      && code[j] == WhileTest(n, c)[0] && code[j + 1] == WhileTest(n, c)[1]
      && (!closed ==> code[k] == Jmp(Lbl(WhileCond, n)))
      && code[m] == Mark(Lbl(WhileEnd, n))
  {
    var top, i, jmp, last := [Mark(Lbl(WhileCond, n))], WhileTest(n, c), JumpUnless(closed, Lbl(WhileCond, n)),
      [Mark(Lbl(WhileEnd, n))];
    var j := at + 1 + |c.instrs|;
    var k := j + 2 + |y.instrs|;
    AtAppend(code, at, top, c.instrs + (i + (y.instrs + (jmp + last))));
    AtAppend(code, at + 1, c.instrs, i + (y.instrs + (jmp + last)));
    AtAppend(code, j, i, y.instrs + (jmp + last));
    AtAppend(code, j + 2, y.instrs, jmp + last);
    AtAppend(code, k, jmp, last);
    assert code[at + 0] == top[0] && code[j + 0] == i[0] && code[j + 1] == i[1] && code[k + |jmp| + 0] == last[0];
    if !closed { assert code[k + 0] == jmp[0]; }
  }

  lemma WhileMeaning(s: TStmt, st: Meaning.Store, fuel: nat)
    requires s.TWhile?
    ensures fuel == 0 ==> Exec(s, st, fuel) == OutOfFuel
    ensures fuel > 0 ==>
      Exec(s, st, fuel) == match Eval(s.cond, st)
        case None => Undefined
        case Some(x) =>
          if x.v == 0 then Normal(x.st)
          else match Exec(s.body, x.st, fuel)
            case Normal(st') => Exec(s, st', fuel - 1)
            case Continued(st') => Exec(s, st', fuel - 1)
            case Broke(st') => Normal(st')
            case other => other
  {
    hide Eval;
  }

  lemma LowWhile(s: TStmt)
    requires s.TWhile?
    ensures LowStmt(s) == TWhile(Tested(Low(s.cond)), LowStmt(s.body))
  {
  }

  lemma WhileSupported(s: TStmt, lay: Layout, rt: Ty)
    requires s.TWhile? && WellTypedStmt(s, lay, rt) && WhileJumps(s, NoLoop)
    ensures WellTyped(s.cond, lay) && Supported(s.body, lay, rt, WhileLoop)
  {
    hide WellTyped, TypeOf;
  }

  lemma WhileEmitted(s: TStmt, n: nat, ctx: seq<LoopCtx>, rt: Ty)
    requires s.TWhile?
    ensures
      var c := EmitExpr(s.cond, n + 1);
      EmitStmt(s, n, ctx, rt)
        == WhileCode(n, c, EmitStmt(s.body, c.next, ctx + [LoopCtx(n, n)], rt), EndsInTerminator(s.body))
  {
    hide EmitExpr, EndsInTerminator;
  }

  lemma SimWhile(o: Origin, at: nat, p: Reached, s: TStmt, n: nat, ctx: seq<LoopCtx>, x: Exits,
                 rt: Ty, lay: Layout, st: Meaning.Store, fuel: nat) returns (r: Reached)
    requires s.TWhile? && Stands(o, at, p, st, lay) && At(o.code, at, EmitStmt(s, n, ctx, rt).instrs)
    requires WellTypedStmt(s, lay, rt) && WhileJumps(s, NoLoop) && !Exec(LowStmt(s), st, fuel).Undefined?
    ensures Follows(o, at + |EmitStmt(s, n, ctx, rt).instrs|, x, p, Exec(LowStmt(s), st, fuel), fuel, rt, lay, r)
    decreases fuel, s, 2
  {
    hide Low, Tested, LowStmt, At, EmitExpr, EmitStmt, Eval, Exec, WellTyped, WellTypedStmt, WhileJumps, WhileCode;
    hide Match, Frame, Reaches, UniqueLabels, Enc, EndsInTerminator, TypeOf;
    LowWhile(s);
    WhileMeaning(LowStmt(s), st, fuel);
    if fuel == 0 { Going(o, at, p); return p; }
    WhileSupported(s, lay, rt);
    WhileEmitted(s, n, ctx, rt);
    var c := EmitExpr(s.cond, n + 1);
    var y := EmitStmt(s.body, c.next, ctx + [LoopCtx(n, n)], rt);
    var closed := EndsInTerminator(s.body);
    var v := Eval(Tested(Low(s.cond)), st).value;
    WhileLayout(o.code, at, n, c, y, closed);
    r := WhileOnce(o, at, p, s, c, y, n, ctx, rt, lay, st, v, fuel);
    if v.v != 0 {
      var out := Exec(LowStmt(s.body), v.st, fuel);
      if out.Normal? || out.Continued? {
        r := SimStmt(o, at, r, s, n, ctx, NoLoop, x, rt, lay, out.st, fuel - 1);
      }
    }
  }

  /** What one iteration of a `while` loop amounts to, from its label at `at` to that label again or to the end. */
  ghost predicate WhileStep(o: Origin, at: nat, end: nat, p: Reached, v: Evaluated, out: Outcome, fuel: nat, rt: Ty,
                            lay: Layout, r: Reached)
  {
    if v.v == 0 then Reaches(o, end, r) && Match(v.st, lay, r.regs, r.mem) && r.k > p.k
    else if out.Normal? || out.Continued? then Reaches(o, at, r) && Match(out.st, lay, r.regs, r.mem) && r.k > p.k
    else if out.Broke? then Reaches(o, end, r) && Match(out.st, lay, r.regs, r.mem) && r.k > p.k
    else Follows(o, end, Exits(0, 0), p, out, fuel, rt, lay, r)
  }

  lemma WhileOnce(o: Origin, at: nat, p: Reached, s: TStmt, c: Code, y: StmtCode, n: nat, ctx: seq<LoopCtx>,
                  rt: Ty, lay: Layout, st: Meaning.Store, v: Evaluated, fuel: nat) returns (r: Reached)
    requires s.TWhile? && Stands(o, at, p, st, lay)
      && At(o.code, at, WhileCode(n, c, y, EndsInTerminator(s.body)).instrs)
    requires c == EmitExpr(s.cond, n + 1) && y == EmitStmt(s.body, c.next, ctx + [LoopCtx(n, n)], rt)
      && Eval(Tested(Low(s.cond)), st) == Some(v)
    requires WellTyped(s.cond, lay)
      && Supported(s.body, lay, rt, WhileLoop)
    ensures WhileStep(o, at, at + |WhileCode(n, c, y, EndsInTerminator(s.body)).instrs|, p, v,
      Exec(LowStmt(s.body), v.st, fuel),
      fuel, rt, lay, r)
    decreases fuel, s, 1
  {
    hide At, EmitExpr, EmitStmt, Eval, Exec, Low, LowStmt, Tested, Seen, WellTyped, WellTypedStmt, WhileJumps,
      Typed.TypeOf,
      Enc, EndsInTerminator, Match, Frame, Reaches, UniqueLabels;
    var closed := EndsInTerminator(s.body);
    WhileLayout(o.code, at, n, c, y, closed);
    if closed {
      LowTerminator(s.body);
      TerminatorNotNormal(LowStmt(s.body), v.st, fuel);
    }
    var j := at + 1 + |c.instrs|;
    var k := j + 2 + |y.instrs|;
    var m := k + if closed then 0 else 1;
    var inside := ctx + [LoopCtx(n, n)];
    var out := Exec(LowStmt(s.body), v.st, fuel);
    r := ChainMark(o, at, p);
    var ty := TypeOf(s.cond);
    var w: int;
    r, w := SimTest(o, at + 1, r, s.cond, n + 1, lay, st, v);
    if v.v == 0 {
      r := ChainJnz(o, j, r, c.res, ty, w, m);
    } else {
      r := ChainJnz(o, j, r, c.res, ty, w, j + 1);
      r := SimStmt(o, j + 2, r, s.body, c.next, inside, WhileLoop, Exits(m, at), rt, lay, v.st, fuel);
      if out.Normal? { r := JumpTo(o, k, r, at); }
      if out.Broke? { r := ChainMark(o, m, r); }
    }
  }

  // ----- do -----

  lemma DoLayout(code: seq<Instr>, at: nat, n: nat, y: StmtCode, c: Code)
    requires At(code, at, DoCode(n, y, c).instrs)
    ensures
      var j := at + 1 + |y.instrs|;
      var k := j + 1 + |c.instrs|;
      At(code, at + 1, y.instrs) && At(code, j + 1, c.instrs) && k + 1 < |code|
      && code[at] == Mark(Lbl(DoBody, n)) && code[j] == Mark(Lbl(DoCond, n))
      && code[k] == DoTest(n, c)[0] && code[k + 1] == DoTest(n, c)[1]
  {
    var top, mid, last := [Mark(Lbl(DoBody, n))], [Mark(Lbl(DoCond, n))], DoTest(n, c);
    var j := at + 1 + |y.instrs|;
    AtAppend(code, at, top, y.instrs + (mid + (c.instrs + last)));
    AtAppend(code, at + 1, y.instrs, mid + (c.instrs + last));
    AtAppend(code, j, mid, c.instrs + last);
    AtAppend(code, j + 1, c.instrs, last);
    var k := j + 1 + |c.instrs|;
    assert code[at + 0] == top[0] && code[j + 0] == mid[0] && code[k + 0] == last[0] && code[k + 1] == last[1];
  }

  /** Without `break` and `continue` for it, a loop body is left normally or for good. */
  lemma {:induction false} NoJumpsOut(s: TStmt, inner: Enclosing, st: Meaning.Store, fuel: nat)
    requires WhileJumps(s, inner) && inner != WhileLoop
    ensures !Exec(s, st, fuel).Broke? && !Exec(s, st, fuel).Continued?
    decreases fuel, s, 1
  {
    match s
    case TBlock(ss) => NoJumpsOutAll(ss, inner, st, fuel);
    case TIf(c, t, els) =>
      if Eval(c, st).Some? {
        var x := Eval(c, st).value;
        if x.v != 0 { NoJumpsOut(t, inner, x.st, fuel); }
        else if els.Some? { NoJumpsOut(els.value, inner, x.st, fuel); }
      }
    case TWhile(c, body) =>
      if fuel > 0 && Eval(c, st).Some? {
        var out := Exec(body, Eval(c, st).value.st, fuel);
        if out.Normal? || out.Continued? { NoJumpsOut(s, inner, out.st, fuel - 1); }
      }
    case TDo(body, c) =>
      if fuel > 0 {
        NoJumpsOut(body, OtherLoop, st, fuel);
        var out := Exec(body, st, fuel);
        if out.Normal? && Eval(c, out.st).Some? { NoJumpsOut(s, inner, Eval(c, out.st).value.st, fuel - 1); }
      }
    case TFor(i, _, _, _) =>
      if EvalOpt(i, st).Some? { NoJumpsOutFor(s, EvalOpt(i, st).value.st, fuel); }
    case _ =>
  }

  lemma {:induction false} NoJumpsOutFor(s: TStmt, st: Meaning.Store, fuel: nat)
    requires s.TFor? && WhileJumps(s.body, OtherLoop)
    ensures !ExecFor(s, st, fuel).Broke? && !ExecFor(s, st, fuel).Continued?
    decreases fuel, s, 0
  {
    if fuel > 0 && EvalOpt(s.test, st).Some? {
      var x := EvalOpt(s.test, st).value;
      NoJumpsOut(s.body, OtherLoop, x.st, fuel);
      var out := Exec(s.body, x.st, fuel);
      if out.Normal? && EvalOpt(s.post, out.st).Some? {
        NoJumpsOutFor(s, EvalOpt(s.post, out.st).value.st, fuel - 1);
      }
    }
  }

  lemma {:induction false} NoJumpsOutAll(ss: seq<TStmt>, inner: Enclosing, st: Meaning.Store, fuel: nat)
    requires WhileJumpsAll(ss, inner) && inner != WhileLoop
    ensures !ExecAll(ss, st, fuel).Broke? && !ExecAll(ss, st, fuel).Continued?
    decreases fuel, ss, 1
  {
    if ss != [] {
      NoJumpsOut(ss[0], inner, st, fuel);
      var out := Exec(ss[0], st, fuel);
      if out.Normal? { NoJumpsOutAll(ss[1..], inner, out.st, fuel); }
    }
  }

  lemma SimDo(o: Origin, at: nat, p: Reached, s: TStmt, n: nat, ctx: seq<LoopCtx>, x: Exits,
              rt: Ty, lay: Layout, st: Meaning.Store, fuel: nat) returns (r: Reached)
    requires s.TDo? && Stands(o, at, p, st, lay) && At(o.code, at, EmitStmt(s, n, ctx, rt).instrs)
    requires WellTypedStmt(s, lay, rt) && WhileJumps(s, NoLoop) && !Exec(LowStmt(s), st, fuel).Undefined?
    ensures Follows(o, at + |EmitStmt(s, n, ctx, rt).instrs|, x, p, Exec(LowStmt(s), st, fuel), fuel, rt, lay, r)
    decreases fuel, s, 2
  {
    hide At, EmitExpr, Eval, WellTyped, Match, Frame, Reaches, UniqueLabels, Enc;
    if fuel == 0 { Going(o, at, p); return p; }
    var y := EmitStmt(s.body, n + 1, ctx + [LoopCtx(n, n)], rt);
    var c := EmitExpr(s.cond, y.next);
    assert EmitStmt(s, n, ctx, rt) == DoCode(n, y, c);
    LowJumps(s.body, OtherLoop);
    NoJumpsOut(LowStmt(s.body), OtherLoop, st, fuel);
    var out := Exec(LowStmt(s.body), st, fuel);
    r := DoOnce(o, at, p, s, c, y, n, ctx, rt, lay, st, fuel);
    if out.Normal? {
      var v := Eval(Tested(Low(s.cond)), out.st).value;
      if v.v != 0 {
        r := SimStmt(o, at, r, s, n, ctx, NoLoop, x, rt, lay, v.st, fuel - 1);
      }
    }
  }

  /** One iteration of a `do` loop: back to its first label, or past the end. */
  lemma DoOnce(o: Origin, at: nat, p: Reached, s: TStmt, c: Code, y: StmtCode, n: nat, ctx: seq<LoopCtx>,
               rt: Ty, lay: Layout, st: Meaning.Store, fuel: nat) returns (r: Reached)
    requires s.TDo? && Stands(o, at, p, st, lay) && At(o.code, at, DoCode(n, y, c).instrs)
    requires y == EmitStmt(s.body, n + 1, ctx + [LoopCtx(n, n)], rt) && c == EmitExpr(s.cond, y.next)
    requires WellTyped(s.cond, lay)
      && Supported(s.body, lay, rt, OtherLoop)
    requires var out := Exec(LowStmt(s.body), st, fuel);
      !out.Undefined? && !out.Broke? && !out.Continued? && (out.Normal? ==> Eval(Tested(Low(s.cond)), out.st).Some?)
    ensures
      var out := Exec(LowStmt(s.body), st, fuel);
      if out.Normal? then
        var v := Eval(Tested(Low(s.cond)), out.st).value;
        Reaches(o, if v.v == 0 then at + |DoCode(n, y, c).instrs| else at, r) && Match(v.st, lay, r.regs, r.mem)
          && r.k > p.k
      else Follows(o, 0, Exits(0, 0), p, out, fuel, rt, lay, r)
    decreases fuel, s, 1
  {
    hide At, EmitExpr, EmitStmt, Eval, Exec, Low, LowStmt, Tested, Seen, WellTyped, WellTypedStmt, WhileJumps,
      Typed.TypeOf,
      Enc, Match, Frame, Reaches, UniqueLabels;
    DoLayout(o.code, at, n, y, c);
    var out := Exec(LowStmt(s.body), st, fuel);
    var j := at + 1 + |y.instrs|;
    var k := j + 1 + |c.instrs|;
    r := ChainMark(o, at, p);
    r := SimStmt(o, at + 1, r, s.body, n + 1, ctx + [LoopCtx(n, n)], OtherLoop, Exits(0, 0), rt, lay, st, fuel);
    if out.Normal? {
      var v := Eval(Tested(Low(s.cond)), out.st).value;
      r := ChainMark(o, j, r);
      var ty := TypeOf(s.cond);
      var w: int;
      r, w := SimTest(o, j + 1, r, s.cond, y.next, lay, out.st, v);
      if v.v == 0 { r := ChainJnz(o, k, r, c.res, ty, w, k + 1); }
      else { r := BranchBack(o, k, r, c.res, ty, w, at); }
    }
  }

  /** A branch taken lands on the label defined at `to`. */
  lemma BranchBack(o: Origin, at: nat, p: Reached, x: nat, ty: Ty, v: int, to: nat) returns (r: Reached)
    requires UniqueLabels(o.code) && Reaches(o, at, p)
    requires at < |o.code| && to < |o.code| && o.code[at].Jnz? && o.code[at].a == T(x)
      && o.code[to] == Mark(o.code[at].thn)
    requires T(x) in p.regs && p.regs[T(x)] == Enc(ty, v) && InRange(ty, v) && Seen(ty, v) != 0
    ensures r == p.(k := p.k + 1) && Reaches(o, to, r)
  {
    hide Read, Seen, Enc;
    ReadHalf(p.regs, T(x), ty, v);
    FindUnique(o.code, o.code[to].l, 0, to);
    r := ChainStep(o, at, p, to, p.regs, p.mem);
  }

  // ----- for -----

  lemma ForLayout(code: seq<Instr>, at: nat, n: nat, c: Code, tested: bool, y: StmtCode, z: Code)
    requires At(code, at, ForLoop(n, c, tested, y, z))
    ensures
      var j := at + 1 + |c.instrs|;
      var k := j + if tested then 1 else 0;
      var m := k + 1 + |y.instrs|;
      var e := m + 1 + |z.instrs|;
      At(code, at + 1, c.instrs) && At(code, k + 1, y.instrs) && At(code, m + 1, z.instrs) && e + 1 < |code|
      && code[at] == Mark(Lbl(ForCond, n))
      && (tested ==> code[j] == Jnz(T(c.res), Lbl(ForBody, n), Lbl(ForEnd, n)))
      && code[k] == Mark(Lbl(ForBody, n)) && code[m] == Mark(Lbl(ForPost, n))
      && code[e] == Jmp(Lbl(ForCond, n)) && code[e + 1] == Mark(Lbl(ForEnd, n))
  {
    var top, i, mid, last := [Mark(Lbl(ForCond, n))], ForTest(n, c, tested), [Mark(Lbl(ForPost, n))], ForLast(n);
    var j := at + 1 + |c.instrs|;
    var m := j + |i| + |y.instrs|;
    var e := m + 1 + |z.instrs|;
    AtAppend(code, at, top, c.instrs + (i + (y.instrs + (mid + (z.instrs + last)))));
    AtAppend(code, at + 1, c.instrs, i + (y.instrs + (mid + (z.instrs + last))));
    AtAppend(code, j, i, y.instrs + (mid + (z.instrs + last)));
    AtAppend(code, j + |i|, y.instrs, mid + (z.instrs + last));
    AtAppend(code, m, mid, z.instrs + last);
    AtAppend(code, m + 1, z.instrs, last);
    assert code[at + 0] == top[0] && code[j + 0] == i[0] && code[m + 0] == mid[0] && code[e + 0] == last[0]
      && code[e + 1] == last[1];
    if tested { assert code[j + 1] == i[1]; }
  }

  lemma SimFor(o: Origin, at: nat, p: Reached, s: TStmt, n: nat, ctx: seq<LoopCtx>, x: Exits,
               rt: Ty, lay: Layout, st: Meaning.Store, fuel: nat) returns (r: Reached)
    requires s.TFor? && Stands(o, at, p, st, lay) && At(o.code, at, EmitStmt(s, n, ctx, rt).instrs)
    requires WellTypedStmt(s, lay, rt) && WhileJumps(s, NoLoop) && !Exec(LowStmt(s), st, fuel).Undefined?
    ensures Follows(o, at + |EmitStmt(s, n, ctx, rt).instrs|, x, p, Exec(LowStmt(s), st, fuel), fuel, rt, lay, r)
    decreases fuel, s, 2
  {
    hide At, EmitExpr, Eval, WellTyped, Match, Frame, Reaches, UniqueLabels, Enc, Typed.TypeOf;
    var w := EmitOpt(s.init, n + 1);
    var c := EmitOpt(s.test, w.next);
    var y := EmitStmt(s.body, c.next, ctx + [LoopCtx(n, n)], rt);
    var z := EmitOpt(s.post, y.next);
    assert EmitStmt(s, n, ctx, rt) == ForCode(n, w, c, s.test.Some?, y, z);
    AtAppend(o.code, at, w.instrs, ForLoop(n, c, s.test.Some?, y, z));
    r := SimOpt(o, at, p, s.init, n + 1, lay, st);
    r := SimForLoop(o, at + |w.instrs|, r, s, n, w.next, c, y, z, ctx, x, rt, lay, EvalOpt(LowOpt(s.init), st).value.st,
      fuel);
  }

  lemma SimForLoop(o: Origin, at: nat, p: Reached, s: TStmt, n: nat, m: nat, c: Code, y: StmtCode, z: Code,
                   ctx: seq<LoopCtx>, x: Exits,
                   rt: Ty, lay: Layout, st: Meaning.Store, fuel: nat) returns (r: Reached)
    requires s.TFor? && Stands(o, at, p, st, lay) && At(o.code, at, ForLoop(n, c, s.test.Some?, y, z))
    requires c == EmitOpt(s.test, m) && y == EmitStmt(s.body, c.next, ctx + [LoopCtx(n, n)], rt)
      && z == EmitOpt(s.post, y.next)
    requires WellTypedOpt(s.test, lay)
    requires WellTypedOpt(s.post, lay) && Supported(s.body, lay, rt, OtherLoop)
    ensures Follows(o, at + |ForLoop(n, c, s.test.Some?, y, z)|, x, p, ExecFor(LowStmt(s), st, fuel), fuel, rt, lay, r)
    decreases fuel, s, 1
  {
    hide At, EmitOpt, EmitStmt, EvalOpt, WellTypedOpt, WellTypedStmt, WhileJumps, Enc, Match,
      Frame, Reaches, UniqueLabels, Exec;
    if fuel == 0 { Going(o, at, p); return p; }
    if EvalOpt(LowTest(s.test), st).None? { return p; }
    var v := EvalOpt(LowTest(s.test), st).value;
    var k := at + 1 + |c.instrs| + (if s.test.Some? then 1 else 0);
    r := ForEntry(o, at, p, s, n, m, c, y, z, rt, lay, st, v);
    if v.v != 0 {
      LowJumps(s.body, OtherLoop);
      NoJumpsOut(LowStmt(s.body), OtherLoop, v.st, fuel);
      var out := Exec(LowStmt(s.body), v.st, fuel);
      if !out.Normal? || EvalOpt(LowOpt(s.post), out.st).Some? {
        r := ForOnce(o, at, k, r, s, n, c, y, z, ctx, rt, lay, v.st, fuel);
      }
      if out.Normal? && EvalOpt(LowOpt(s.post), out.st).Some? {
        r := SimForLoop(o, at, r, s, n, m, c, y, z, ctx, x, rt, lay, EvalOpt(LowOpt(s.post), out.st).value.st,
          fuel - 1);
      }
    }
  }

  /** The body of a `for` loop, then its last expression and the jump back. */
  lemma ForOnce(o: Origin, at: nat, k: nat, p: Reached, s: TStmt, n: nat, c: Code, y: StmtCode, z: Code,
                ctx: seq<LoopCtx>,
                rt: Ty, lay: Layout, st: Meaning.Store, fuel: nat) returns (r: Reached)
    requires s.TFor? && k == at + 1 + |c.instrs| + (if s.test.Some? then 1 else 0)
    requires Stands(o, k + 1, p, st, lay) && At(o.code, at, ForLoop(n, c, s.test.Some?, y, z))
    requires y == EmitStmt(s.body, c.next, ctx + [LoopCtx(n, n)], rt) && z == EmitOpt(s.post, y.next)
    requires WellTypedOpt(s.post, lay) && Supported(s.body, lay, rt, OtherLoop)
    requires var out := Exec(LowStmt(s.body), st, fuel);
      !out.Broke? && !out.Continued? && (out.Normal? ==> EvalOpt(LowOpt(s.post), out.st).Some?)
    ensures
      var out := Exec(LowStmt(s.body), st, fuel);
      if out.Normal? then Reaches(o, at, r) && Match(EvalOpt(LowOpt(s.post), out.st).value.st, lay, r.regs, r.mem)
      && r.k > p.k
      else Follows(o, 0, Exits(0, 0), p, out, fuel, rt, lay, r)
    decreases fuel, s, 0
  {
    hide At, EmitOpt, EmitStmt, EvalOpt, Exec, WellTypedOpt, WellTypedStmt, WhileJumps, Enc,
      Match, Frame, Reaches, UniqueLabels;
    ForLayout(o.code, at, n, c, s.test.Some?, y, z);
    var out := Exec(LowStmt(s.body), st, fuel);
    var l := k + 1 + |y.instrs|;
    r := SimStmt(o, k + 1, p, s.body, c.next, ctx + [LoopCtx(n, n)], OtherLoop, Exits(0, 0), rt, lay, st, fuel);
    if out.Normal? {
      r := ChainMark(o, l, r);
      r := SimOpt(o, l + 1, r, s.post, y.next, lay, out.st);
      r := JumpTo(o, l + 1 + |z.instrs|, r, at);
    }
  }

  /** The test of a `for` loop: into the body, or past the end. */
  lemma ForEntry(o: Origin, at: nat, p: Reached, s: TStmt, n: nat, m: nat, c: Code, y: StmtCode, z: Code,
                 rt: Ty, lay: Layout, st: Meaning.Store, v: Evaluated) returns (r: Reached)
    requires s.TFor? && Stands(o, at, p, st, lay) && At(o.code, at, ForLoop(n, c, s.test.Some?, y, z))
    requires c == EmitOpt(s.test, m) && EvalOpt(LowTest(s.test), st) == Some(v)
    requires WellTypedOpt(s.test, lay)
    ensures r.k > p.k && Match(v.st, lay, r.regs, r.mem)
    ensures Reaches(o, if v.v == 0 then at + |ForLoop(n, c, s.test.Some?, y, z)|
                       else at + 1 + |c.instrs| + (if s.test.Some? then 1 else 0) + 1, r)
  {
    hide Match, Frame, Reaches, UniqueLabels, Enc, At, EmitExpr, Eval, Low, Tested, Seen, WellTyped, TypeOf, InRange;
    var tested := s.test.Some?;
    ForLayout(o.code, at, n, c, tested, y, z);
    var j := at + 1 + |c.instrs|;
    var k := j + if tested then 1 else 0;
    var e := k + 1 + |y.instrs| + 1 + |z.instrs|;
    r := ChainMark(o, at, p);
    if tested {
      var ty := TypeOf(s.test.value);
      var w: int;
      r, w := SimTest(o, at + 1, r, s.test.value, m, lay, st, v);
      r := ChainJnz(o, j, r, c.res, ty, w, if v.v != 0 then k else e + 1);
    } else {
      r := ChainMark(o, k, r);
    }
  }
}
