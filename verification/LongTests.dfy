/** When a test of a `long` has the outcome C prescribes: the branch instruction looks at 32 bits only. */
module LongTests {
  import opened Options
  import opened Words
  import opened Typed
  import opened Meaning
  import opened Il
  import opened Codegen
  import opened ExprSim
  import opened StmtSim
  import opened FuncSim
  import opened LowTests

  /** A test that reads 32 bits of `v` has the outcome C prescribes. */
  predicate TestKept(v: int) { v == 0 || v % M32 != 0 }

  lemma LongHalf(v: int)
    requires InRange(Long, v)
    ensures Bits(Long, v) % M32 == v % M32
  {
    LowHalf(v);
  }

  lemma SeenLong(v: int)
    ensures Seen(Long, v) != 0 <==> v % M32 != 0
    ensures TestKept(v) <==> (Seen(Long, v) != 0 <==> v != 0)
  {
    hide Wrap;
    ZeroBits(v);
  }

  /** A `jnz` on a `long` takes the branch C takes exactly unless the value is a nonzero multiple of 2^32. */
  lemma LongBranch(code: seq<Instr>, c: Config, a: Name, thn: Lbl, els: Lbl, v: int)
    requires c.Running? && c.pc < |code| && code[c.pc] == Jnz(a, thn, els)
    requires InRange(Long, v) && a in c.regs && c.regs[a] == Enc(Long, v)
    requires FindFrom(code, thn, 0) != FindFrom(code, els, 0)
    ensures Step(code, c) == Goto(code, if v != 0 then thn else els, c.regs, c.mem) <==> TestKept(v)
  {
    hide Bits, FindFrom;
    LongHalf(v);
  }

  /** Likewise for the comparison with zero that `&&` and `||` end with. */
  lemma LongCompare(code: seq<Instr>, c: Config, d: Name, a: Name, v: int)
    requires c.Running? && c.pc < |code| && code[c.pc] == Cnew0(d, a)
    requires InRange(Long, v) && a in c.regs && c.regs[a] == Enc(Long, v)
    ensures Step(code, c) == Define(c, d, Enc(Int, Truth(v != 0))) <==> TestKept(v)
  {
    hide Bits;
    LongHalf(v);
    TruthBits();
    var r := Step(code, c);
    assert r.Running? && d in r.regs;
    assert Define(c, d, Enc(Int, Truth(v != 0))).regs[d] == Enc(Int, Truth(v != 0));
  }

  lemma TruthBits()
    ensures Bits(Int, Truth(true)) != Bits(Int, Truth(false))
  {
  }

  /** C gives `e` the value `v`, and no test inside `e` keeps the code from finding it. */
  ghost predicate FoundAsC(e: TExpr, st: Meaning.Store, v: Evaluated) {
    Eval(e, st) == Some(v) && Eval(Low(e), st) == Some(v)
  }

  /** So it is when `e` tests no `long`. */
  lemma IntFound(e: TExpr, st: Meaning.Store)
    requires IntTests(e) && Eval(e, st).Some?
    ensures FoundAsC(e, st, Eval(e, st).value)
  {
    LowSame(e);
  }

  // ----- expressions -----

  /** The run stands at the end of the code for `e`, the temporary of its result holding a value of its type. */
  ghost predicate Ends(o: Origin, at: nat, e: TExpr, n: nat, r: Reached) {
    var c := EmitExpr(e, n);
    Reaches(o, at + |c.instrs|, r) && T(c.res) in r.regs
  }

  lemma EncSame(ty: Ty, v: int, w: int)
    requires InRange(ty, v) && InRange(ty, w)
    ensures Enc(ty, v) == Enc(ty, w) <==> v == w
  {
    SignedBits(ty, v);
    SignedBits(ty, w);
  }

  /** When `l && r` or `l || r` come out as C says: `x` and `y` are what C gives the operands. */
  predicate LogicKept(isAnd: bool, x: int, y: int) {
    if TestKept(x) then (x != 0) != isAnd || TestKept(y)
    else if isAnd then y == 0 else y % M32 != 0
  }

  /**
   The code of `l && r` and `l || r` on `long` leaves the value C gives exactly when each value C tests is zero
   or no multiple of 2^32 or, the left one being misread, the right one happens to give the same result.
   */
  lemma LongLogic(o: Origin, at: nat, p: Reached, e: TExpr, n: nat, lay: Layout, st: Meaning.Store, x: Evaluated,
                  y: Evaluated)
    returns (r: Reached)
    requires e.TLogic? && WellTyped(e, lay) && TypeOf(e.l) == Long
    requires Stands(o, at, p, st, lay) && At(o.code, at, EmitExpr(e, n).instrs)
    requires FoundAsC(e.l, st, x) && FoundAsC(e.r, x.st, y)
    ensures Ends(o, at, e, n, r) && Eval(e, st).Some?
    ensures r.regs[T(EmitExpr(e, n).res)] == Enc(Int, Eval(e, st).value.v) <==> LogicKept(e.isAnd, x.v, y.v)
  {
    hide Match, Frame, Reaches, UniqueLabels, Enc, At, EmitExpr, Low, InRange, LogicKept, LogicValue, Eval, FoundAsC;
    LogicFound(e, st, x, y);
    r := SimExpr(o, at, p, e, n, lay, st);
    TruthInRange();
    LogicIsTruth(e.isAnd, x.v != 0, y.v != 0);
    EncSame(Int, Eval(Low(e), st).value.v, Eval(e, st).value.v);
    LogicCases(e.isAnd, x.v, y.v);
  }

  lemma LogicFound(e: TExpr, st: Meaning.Store, x: Evaluated, y: Evaluated)
    requires e.TLogic? && TypeOf(e.l) == TypeOf(e.r) == Long && FoundAsC(e.l, st, x) && FoundAsC(e.r, x.st, y)
    ensures Eval(e, st).Some? && Eval(e, st).value.v == LogicValue(e.isAnd, x.v != 0, y.v != 0)
    ensures
      Eval(Low(e), st).Some? && Eval(Low(e), st).value.v == LogicValue(e.isAnd, x.v % M32 != 0, y.v % M32 != 0)
  {
    hide Low, Seen, TypeOf;
    LogicMeaning(e, st);
    SeenLong(x.v);
    SeenLong(y.v);
  }

  lemma LogicIsTruth(isAnd: bool, x: bool, y: bool)
    ensures InRange(Int, LogicValue(isAnd, x, y))
  {
  }

  /** What C and the code make of two operands. */
  function LogicValue(isAnd: bool, x: bool, y: bool): int {
    if x != isAnd then Truth(!isAnd) else Truth(y)
  }

  lemma LogicCases(isAnd: bool, x: int, y: int)
    ensures
      LogicValue(isAnd, x % M32 != 0, y % M32 != 0) == LogicValue(isAnd, x != 0, y != 0) <==> LogicKept(isAnd, x, y)
  {
  }

  /** A misread operand alone does not make the result wrong: 2^32 `&&` 0 is 0 in C and in the code. */
  lemma LogicRightAnyway()
    ensures
      var e := TLogic(true, TLit(M32, Long), TLit(0, Long));
      !TestKept(M32) && Eval(Low(e), map[]) == Eval(e, map[]) == Some(Evaluated(0, map[]))
  {
  }

  /** The code of `?:` on a `long` leaves the value C gives exactly when the test is kept or both arms agree. */
  lemma LongCond(o: Origin, at: nat, p: Reached, e: TExpr, n: nat, lay: Layout, st: Meaning.Store, x: Evaluated,
                 y: Evaluated, z: Evaluated)
    returns (r: Reached)
    requires e.TCond? && WellTyped(e, lay) && TypeOf(e.c) == Long
    requires Stands(o, at, p, st, lay) && At(o.code, at, EmitExpr(e, n).instrs)
    requires FoundAsC(e.c, st, x) && FoundAsC(e.a, x.st, y) && FoundAsC(e.b, x.st, z)
    ensures Ends(o, at, e, n, r) && Eval(e, st).Some?
    ensures r.regs[T(EmitExpr(e, n).res)] == Enc(e.ty, Eval(e, st).value.v) <==> TestKept(x.v) || y.v == z.v
  {
    hide Match, Frame, Reaches, UniqueLabels, Enc, At, EmitExpr, Low, Seen, InRange, TestKept, Eval;
    CondMeaning(e, st);
    CondInC(e, st);
    SeenLong(x.v);
    r := SimExpr(o, at, p, e, n, lay, st);
    MatchStore(st, lay, p.regs, p.mem);
    EvalInRange(e, st, lay);
    EncSame(e.ty, Eval(Low(e), st).value.v, Eval(e, st).value.v);
  }

  lemma CondInC(e: TExpr, st: Meaning.Store)
    requires e.TCond? && Eval(e.c, st).Some?
    ensures var x := Eval(e.c, st).value; Eval(e, st) == Eval(if x.v != 0 then e.a else e.b, x.st)
  {
  }

  // ----- statements -----

  /**
   The run stands, in a state that matches, where the code for a true test begins or where that for a
   false one does; it is the one C chooses exactly when the value is zero or no multiple of 2^32.
   */
  ghost predicate Branches(o: Origin, yes: nat, no: nat, p: Reached, v: Evaluated, lay: Layout, r: Reached) {
    Reaches(o, if v.v % M32 != 0 then yes else no, r) && Match(v.st, lay, r.regs, r.mem) && r.k > p.k
    && (Reaches(o, if v.v != 0 then yes else no, r) <==> TestKept(v.v))
  }

  lemma OnePlace(o: Origin, i: nat, j: nat, r: Reached)
    requires Reaches(o, i, r) && Reaches(o, j, r)
    ensures i == j
  {
    var c := Running(o.b, o.regs, o.mem);
    assert Run(o.code, r.k, c) == Running(i, r.regs, r.mem);
  }

  /** From the start of a condition to the branch its test takes. */
  lemma LongTest(o: Origin, at: nat, p: Reached, e: TExpr, n: nat, lay: Layout, st: Meaning.Store, v: Evaluated,
                 yes: nat, no: nat)
    returns (r: Reached)
    requires Stands(o, at, p, st, lay) && At(o.code, at, EmitExpr(e, n).instrs)
    requires WellTyped(e, lay) && TypeOf(e) == Long && FoundAsC(e, st, v)
    requires at + |EmitExpr(e, n).instrs| < |o.code| && 0 < yes <= |o.code| && 0 < no <= |o.code| && yes != no
    requires o.code[yes - 1].Mark? && o.code[no - 1].Mark?
    requires o.code[at + |EmitExpr(e, n).instrs|] == Jnz(T(EmitExpr(e, n).res), o.code[yes - 1].l, o.code[no - 1].l)
    ensures Branches(o, yes, no, p, v, lay, r)
  {
    hide Match, Frame, Reaches, UniqueLabels, Enc, At, EmitExpr, Eval, Low, Seen, WellTyped, TypeOf, InRange;
    SeenLong(v.v);
    var q := SimExpr(o, at, p, e, n, lay, st);
    var to := if v.v % M32 != 0 then yes - 1 else no - 1;
    r := ChainJnz(o, at + |EmitExpr(e, n).instrs|, q, EmitExpr(e, n).res, Long, v.v, to);
    if v.v != 0 && v.v % M32 == 0 && Reaches(o, yes, r) { OnePlace(o, yes, no, r); }
  }

  /** Where the code of the branches of an `if` begins; without `else`, the end of the statement. */
  function IfPlaces(s: TStmt, at: nat, n: nat, ctx: seq<LoopCtx>, rt: Ty): (nat, nat)
    requires s.TIf?
  {
    var c := EmitExpr(s.cond, n);
    var y := EmitStmt(s.thn, c.next + 1, ctx, rt);
    var yes := at + |c.instrs| + 2;
    (yes, yes + |y.instrs| + if s.els.Some? && !EndsInTerminator(s.thn) then 2 else 1)
  }

  /** An `if` on a `long` takes the branch C takes exactly when the value is zero or no multiple of 2^32. */
  lemma LongIf(o: Origin, at: nat, p: Reached, s: TStmt, n: nat, ctx: seq<LoopCtx>, rt: Ty, lay: Layout,
               st: Meaning.Store, v: Evaluated)
    returns (r: Reached)
    requires s.TIf? && Stands(o, at, p, st, lay) && At(o.code, at, EmitStmt(s, n, ctx, rt).instrs)
    requires WellTyped(s.cond, lay) && TypeOf(s.cond) == Long && FoundAsC(s.cond, st, v)
    ensures Branches(o, IfPlaces(s, at, n, ctx, rt).0, IfPlaces(s, at, n, ctx, rt).1, p, v, lay, r)
  {
    hide Match, Frame, Reaches, UniqueLabels, Enc, At, EmitExpr, EmitStmt, FoundAsC, WellTyped, IfPlaces, TypeOf,
      Branches;
    var (yes, no) := IfPlaces(s, at, n, ctx, rt);
    IfTested(o.code, at, s, n, ctx, rt);
    r := LongTest(o, at, p, s.cond, n, lay, st, v, yes, no);
  }

  /** The branch of an `if` names the labels just before the code of its two sides. */
  lemma IfTested(code: seq<Instr>, at: nat, s: TStmt, n: nat, ctx: seq<LoopCtx>, rt: Ty)
    requires s.TIf? && At(code, at, EmitStmt(s, n, ctx, rt).instrs)
    ensures
      var c := EmitExpr(s.cond, n);
      var (yes, no) := IfPlaces(s, at, n, ctx, rt);
      At(code, at, c.instrs) && 0 < yes < no <= |code| && at + |c.instrs| < |code|
      && code[yes - 1].Mark? && code[no - 1].Mark?
      && code[at + |c.instrs|] == Jnz(T(c.res), code[yes - 1].l, code[no - 1].l)
  {
    hide At, EmitExpr, EndsInTerminator;
    var c := EmitExpr(s.cond, n);
    var y := EmitStmt(s.thn, c.next + 1, ctx, rt);
    if s.els.Some? {
      IfElseLayout(code, at, c, y, EmitStmt(s.els.value, y.next, ctx, rt), EndsInTerminator(s.thn));
    } else {
      IfLayout(code, at, c, y);
    }
  }

  /** Likewise for the test of a `while`: into the body, or past the loop. */
  lemma LongWhile(o: Origin, at: nat, p: Reached, s: TStmt, n: nat, ctx: seq<LoopCtx>, rt: Ty, lay: Layout,
                  st: Meaning.Store, v: Evaluated)
    returns (r: Reached)
    requires s.TWhile? && Stands(o, at, p, st, lay) && At(o.code, at, EmitStmt(s, n, ctx, rt).instrs)
    requires WellTyped(s.cond, lay) && TypeOf(s.cond) == Long && FoundAsC(s.cond, st, v)
    ensures
      Branches(o, at + 3 + |EmitExpr(s.cond, n + 1).instrs|, at + |EmitStmt(s, n, ctx, rt).instrs|, p, v, lay, r)
  {
    hide Match, Frame, Reaches, UniqueLabels, Enc, At, EmitExpr, EmitStmt, FoundAsC, WellTyped, EndsInTerminator,
      TypeOf;
    WhileEmitted(s, n, ctx, rt);
    var c := EmitExpr(s.cond, n + 1);
    var y := EmitStmt(s.body, c.next, ctx + [LoopCtx(n, n)], rt);
    WhileLayout(o.code, at, n, c, y, EndsInTerminator(s.body));
    var q := ChainMark(o, at, p);
    r := LongTest(o, at + 1, q, s.cond, n + 1, lay, st, v, at + 3 + |c.instrs|, at + |EmitStmt(s, n, ctx, rt).instrs|);
  }

  /** Likewise for a `do`, once its body is done: back into the body, or past the loop. */
  lemma LongDo(o: Origin, at: nat, p: Reached, s: TStmt, n: nat, ctx: seq<LoopCtx>, rt: Ty, lay: Layout,
               st: Meaning.Store, st': Meaning.Store, v: Evaluated, fuel: nat)
    returns (r: Reached)
    requires s.TDo? && Stands(o, at, p, st, lay) && At(o.code, at, EmitStmt(s, n, ctx, rt).instrs)
    requires WellTypedStmt(s, lay, rt) && WhileJumps(s.body, OtherLoop) && TypeOf(s.cond) == Long
    requires Exec(s.body, st, fuel) == Exec(LowStmt(s.body), st, fuel) == Normal(st') && FoundAsC(s.cond, st', v)
    ensures Branches(o, at + 1, at + |EmitStmt(s, n, ctx, rt).instrs|, p, v, lay, r)
  {
    hide Match, Frame, Reaches, UniqueLabels, Enc, At, EmitExpr, EmitStmt, FoundAsC, WellTyped, TypeOf, Exec, LowStmt;
    DoEmitted(s, n, ctx, rt);
    var inside := ctx + [LoopCtx(n, n)];
    var y := EmitStmt(s.body, n + 1, inside, rt);
    var c := EmitExpr(s.cond, y.next);
    DoLayout(o.code, at, n, y, c);
    var j := at + 1 + |y.instrs|;
    var q := ChainMark(o, at, p);
    q := SimStmt(o, at + 1, q, s.body, n + 1, inside, OtherLoop, Exits(0, 0), rt, lay, st, fuel);
    q := ChainMark(o, j, q);
    r := LongTest(o, j + 1, q, s.cond, y.next, lay, st', v, at + 1, at + |EmitStmt(s, n, ctx, rt).instrs|);
  }

  lemma DoEmitted(s: TStmt, n: nat, ctx: seq<LoopCtx>, rt: Ty)
    requires s.TDo?
    ensures
      var y := EmitStmt(s.body, n + 1, ctx + [LoopCtx(n, n)], rt);
      EmitStmt(s, n, ctx, rt) == DoCode(n, y, EmitExpr(s.cond, y.next))
  {
    hide EmitExpr;
  }

  /** Likewise for a `for`, its initialisation done: into the body, or past the loop. */
  lemma LongFor(o: Origin, at: nat, p: Reached, s: TStmt, n: nat, ctx: seq<LoopCtx>, rt: Ty, lay: Layout,
                st: Meaning.Store, i: Evaluated, v: Evaluated)
    returns (r: Reached)
    requires s.TFor? && Stands(o, at, p, st, lay) && At(o.code, at, EmitStmt(s, n, ctx, rt).instrs)
    requires WellTypedOpt(s.init, lay) && EvalOpt(s.init, st) == EvalOpt(LowOpt(s.init), st) == Some(i)
    requires s.test.Some? && WellTyped(s.test.value, lay) && TypeOf(s.test.value) == Long
      && FoundAsC(s.test.value, i.st, v)
    ensures
      Branches(o, ForBodyAt(s, at, n), at + |EmitStmt(s, n, ctx, rt).instrs|, p, v, lay, r)
  {
    hide Match, Frame, Reaches, UniqueLabels, Enc, At, EmitExpr, EmitOpt, EmitStmt, EvalOpt, FoundAsC, WellTyped,
      WellTypedOpt, TypeOf, LowOpt;
    ForEmitted(s, n, ctx, rt);
    var w := EmitOpt(s.init, n + 1);
    var c := EmitExpr(s.test.value, w.next);
    var y := EmitStmt(s.body, c.next, ctx + [LoopCtx(n, n)], rt);
    var z := EmitOpt(s.post, y.next);
    AtAppend(o.code, at, w.instrs, ForLoop(n, c, true, y, z));
    var m := at + |w.instrs|;
    ForLayout(o.code, m, n, c, true, y, z);
    var q := SimOpt(o, at, p, s.init, n + 1, lay, st);
    q := ChainMark(o, m, q);
    r := LongTest(o, m + 1, q, s.test.value, w.next, lay, i.st, v, ForBodyAt(s, at, n),
      at + |EmitStmt(s, n, ctx, rt).instrs|);
  }

  /** Where the body of a `for` with a test begins. */
  function ForBodyAt(s: TStmt, at: nat, n: nat): nat
    requires s.TFor? && s.test.Some?
  {
    var w := EmitOpt(s.init, n + 1);
    at + |w.instrs| + 1 + |EmitExpr(s.test.value, w.next).instrs| + 2
  }

  lemma ForEmitted(s: TStmt, n: nat, ctx: seq<LoopCtx>, rt: Ty)
    requires s.TFor? && s.test.Some?
    ensures
      var w := EmitOpt(s.init, n + 1);
      var c := EmitExpr(s.test.value, w.next);
      var y := EmitStmt(s.body, c.next, ctx + [LoopCtx(n, n)], rt);
      EmitStmt(s, n, ctx, rt) == ForCode(n, w, c, true, y, EmitOpt(s.post, y.next))
  {
    hide EmitExpr;
  }

  /** `if (4294967296) return 1;` and nothing more. */
  const LONG_IF: TStmt := TIf(TLit(M32, Long), TReturn(TLit(1, Int)), None)
  const LONG_FUNCTION: TFunc := TFunc(Int, [], [LONG_IF])
  const LONG_CODE: seq<Instr> :=
    [Mark(Lbl(Start, 0)), Const(T(0), Long, M32), Jnz(T(0), Lbl(IfThen, 1), Lbl(IfEnd, 1)), Mark(Lbl(IfThen, 1)),
     Const(T(2), Int, 1), Ret(Int, T(2)), Mark(Lbl(IfEnd, 1)), RetConst(Int, 0)]

  lemma LongIfCode()
    ensures EmitStmt(LONG_IF, 0, [], Int) == StmtCode(LONG_CODE[1..7], 3, true)
  {
    var y := EmitStmt(TReturn(TLit(1, Int)), 2, [], Int);
    assert y.instrs == [Const(T(2), Int, 1), Ret(Int, T(2))];
  }

  lemma LongFunctionCode()
    ensures EmitFunc(LONG_FUNCTION) == Some(LONG_CODE)
  {
    hide EmitStmt;
    LongIfCode();
    var ss := [LONG_IF];
    assert ss[0] == LONG_IF && ss[1..] == [];
    assert EmitStmts(ss[1..], 3, [], Int) == StmtCode([], 3, true);
    var c := EmitStmts(ss, 0, [], Int);
    assert c == SeqCode(StmtCode(LONG_CODE[1..7], 3, true), StmtCode([], 3, true));
    assert c.instrs == LONG_CODE[1..7];
    assert EmitLocals(ss[1..]) == [] && EmitLocals(ss) == [];
    assert !ListEndsInTerminator(ss);
    assert Prologue(LONG_FUNCTION) == [Mark(Lbl(Start, 0))];
    assert [Mark(Lbl(Start, 0))] + (LONG_CODE[1..7] + [RetConst(Int, 0)]) == LONG_CODE;
  }

  /** C returns 1 from that function, the compiled code 0. */
  lemma LongFunctionDiffers()
    ensures RunFunction(LONG_FUNCTION, [], 0) == Returned(1, map[])
    ensures EmitFunc(LONG_FUNCTION) == Some(LONG_CODE)
    ensures Run(LONG_CODE, 5, CallOf(LONG_FUNCTION, [])) == Halted(Enc(Int, 0), map[])
  {
    hide EmitFunc, FindFrom;
    LongFunctionCode();
    assert Exec(LONG_IF, map[], 0) == Returned(1, map[]);
    assert Arguments([]) == map[];
    var c0 := CallOf(LONG_FUNCTION, []);
    var c2 := Running(2, c0.regs[T(0) := Enc(Long, M32)], map[]);
    LongJump(c2);
    Steps(LONG_CODE, c0, c0.(pc := 1), c2, c2.(pc := 6), c2.(pc := 7));
  }

  lemma LongJump(c: Config)
    requires c.Running? && c.pc == 2 && T(0) in c.regs && c.regs[T(0)] == Enc(Long, M32)
    ensures Step(LONG_CODE, c) == c.(pc := 6)
  {
    LongHalf(M32);
    assert UniqueLabels(LONG_CODE);
    FindUnique(LONG_CODE, Lbl(IfEnd, 1), 0, 6);
  }

  lemma Steps(code: seq<Instr>, c0: Config, c1: Config, c2: Config, c3: Config, c4: Config)
    requires Step(code, c0) == c1 && Step(code, c1) == c2 && Step(code, c2) == c3 && Step(code, c3) == c4
    ensures Run(code, 5, c0) == Step(code, c4)
  {
    hide Step;
    assert Run(code, 1, c4) == Run(code, 0, Step(code, c4));
    assert Run(code, 3, c2) == Run(code, 2, c3) == Run(code, 1, c4);
    assert Run(code, 5, c0) == Run(code, 4, c1) == Run(code, 3, c2);
  }
}
