/** Whole functions: the compiled function computes what the C function computes. */
module FuncSim {
  import opened Options
  import opened Words
  import opened Typed
  import opened Meaning
  import opened Il
  import opened Codegen
  import opened Labels
  import opened ExprSim
  import opened StmtSim
  import opened LowTests

  // ----- supported functions -----

  /** No declaration inside the statement: locals are declared directly in the function body. */
  predicate NoDecls(s: TStmt) {
    match s
    case TBlock(ss) => NoDeclsAll(ss)
    case TIf(_, t, els) => NoDecls(t) && (els.Some? ==> NoDecls(els.value))
    case TWhile(_, body) => NoDecls(body)
    case TDo(body, _) => NoDecls(body)
    case TFor(_, _, _, body) => NoDecls(body)
    case TDecl(_, _, _) => false
    case _ => true
  }

  predicate NoDeclsAll(ss: seq<TStmt>) {
    ss == [] || (NoDecls(ss[0]) && NoDeclsAll(ss[1..]))
  }

  /** Declarations in the body get the ids `n`, `n + 1`, ... in order. */
  predicate InOrder(ss: seq<TStmt>, n: nat) {
    ss == [] ||
    if ss[0].TDecl? then ss[0].id == n && InOrder(ss[1..], n + 1)
    else NoDecls(ss[0]) && InOrder(ss[1..], n)
  }

  function DeclTypes(ss: seq<TStmt>): seq<Ty> {
    if ss == [] then []
    else (if ss[0].TDecl? then [ss[0].ty] else []) + DeclTypes(ss[1..])
  }

  function ParamTypes(ps: seq<TParam>): Layout { seq(|ps|, i requires 0 <= i < |ps| => ps[i].ty) }

  /** The types of all locals: parameters first, then declarations. */
  function LayoutOf(f: TFunc): Layout { ParamTypes(f.params) + DeclTypes(f.body) }

  /** Parameters are numbered 0, 1, ..., then the declarations; the body is well typed. */
  predicate WellFormed(f: TFunc) {
    (forall i :: 0 <= i < |f.params| ==> f.params[i].id == i)
    && InOrder(f.body, |f.params|)
    && WellTypedStmts(f.body, LayoutOf(f), f.result)
  }

  /** Well formed, and `break` and `continue` belong to `while` loops. */
  predicate Emittable(f: TFunc) { WellFormed(f) && WhileJumpsAll(f.body, NoLoop) }

  /** The functions whose code behaves as C says. */
  predicate Compilable(f: TFunc) { Emittable(f) && IntTestsStmts(f.body) }

  predicate ArgsFit(f: TFunc, args: seq<int>) {
    |args| == |f.params| && forall i :: 0 <= i < |args| ==> InRange(f.params[i].ty, args[i])
  }

  /** A call: `%pN` hold the arguments, memory is empty. */
  ghost function CallOf(f: TFunc, args: seq<int>): Config
    requires |args| == |f.params|
  {
    Running(0, CallRegs(f, args), map[])
  }

  ghost function CallRegs(f: TFunc, args: seq<int>): Regs
    requires |args| == |f.params|
  {
    map x: Name | x in ParamNames(|f.params|) :: Enc(f.params[x.n].ty, args[x.n])
  }

  ghost function ParamNames(k: nat): set<Name>
    ensures forall x :: x in ParamNames(k) <==> x.P? && x.n < k
  {
    set i: nat | i < k :: P(i)
  }

  // ----- the compiler accepts them -----

  lemma {:induction false} EmitsStmt(s: TStmt, n: nat, ctx: seq<LoopCtx>, inner: Enclosing, rt: Ty)
    requires WhileJumps(s, inner) && (inner == WhileLoop ==> ctx != [])
    ensures EmitStmt(s, n, ctx, rt).ok
    decreases s
  {
    match s
    case TBlock(ss) => EmitsStmts(ss, n, ctx, inner, rt);
    case TIf(c, t, els) =>
      var m := EmitExpr(c, n).next + 1;
      EmitsStmt(t, m, ctx, inner, rt);
      if els.Some? { EmitsStmt(els.value, EmitStmt(t, m, ctx, rt).next, ctx, inner, rt); }
    case TWhile(c, body) => EmitsStmt(body, EmitExpr(c, n + 1).next, ctx + [LoopCtx(n, n)], WhileLoop, rt);
    case TDo(body, c) => EmitsStmt(body, n + 1, ctx + [LoopCtx(n, n)], OtherLoop, rt);
    case TFor(i, c, p, body) =>
      EmitsStmt(body, EmitOpt(c, EmitOpt(i, n + 1).next).next, ctx + [LoopCtx(n, n)], OtherLoop, rt);
    case _ =>
  }

  lemma {:induction false} EmitsStmts(ss: seq<TStmt>, n: nat, ctx: seq<LoopCtx>, inner: Enclosing, rt: Ty)
    requires WhileJumpsAll(ss, inner) && (inner == WhileLoop ==> ctx != [])
    ensures EmitStmts(ss, n, ctx, rt).ok
    decreases ss
  {
    if ss != [] {
      EmitsStmt(ss[0], n, ctx, inner, rt);
      EmitsStmts(ss[1..], EmitStmt(ss[0], n, ctx, rt).next, ctx, inner, rt);
    }
  }

  // ----- labels of a whole function -----

  lemma {:induction false} ParamsStraight(ps: seq<TParam>)
    ensures Straight(EmitParams(ps))
  {
    if ps != [] {
      ParamsStraight(ps[1..]);
      var i := [Alloc(ps[0].id, Size(ps[0].ty)), Il.Store(ps[0].ty, P(ps[0].id), V(ps[0].id))];
      StraightLine(i);
      Append(i, EmitParams(ps[1..]));
    }
  }

  lemma {:induction false} LocalsStraight(ss: seq<TStmt>)
    ensures Straight(EmitLocals(ss))
  {
    if ss != [] {
      LocalsStraight(ss[1..]);
      var i := if ss[0].TDecl? then [Alloc(ss[0].id, Size(ss[0].ty))] else [];
      StraightLine(i);
      Append(i, EmitLocals(ss[1..]));
    }
  }

  function Epilogue(f: TFunc): seq<Instr> {
    if ListEndsInTerminator(f.body) then [] else [RetConst(f.result, 0)]
  }

  /** The function's labels are those of its body and `@start`; its jumps are those of its body. */
  lemma FunctionLabels(f: TFunc)
    requires EmitFunc(f).Some?
    ensures
      var b := EmitStmts(f.body, 0, [], f.result).instrs;
      Distinct(EmitFunc(f).value)
      && LabelsOf(EmitFunc(f).value) == {Lbl(Start, 0)} + LabelsOf(b) && TargetsOf(EmitFunc(f).value) == TargetsOf(b)
  {
    hide LabelsOf, TargetsOf, Distinct, EmitStmts, EmitParams, EmitLocals;
    var b := EmitStmts(f.body, 0, [], f.result).instrs;
    StmtsJumps(f.body, 0, [], NoLoop, f.result);
    ParamsStraight(f.params);
    LocalsStraight(f.body);
    Short1(Mark(Lbl(Start, 0)));
    StraightLine(Epilogue(f));
    Append(EmitParams(f.params), EmitLocals(f.body));
    Append([Mark(Lbl(Start, 0))], EmitParams(f.params) + EmitLocals(f.body));
    Append(b, Epilogue(f));
    Append(Prologue(f), b + Epilogue(f));
  }

  /**
   Labels are always distinct, and every jump target exists exactly when `break` and
   `continue` occur only where the innermost loop is a `while`.
   */
  lemma JumpTargets(f: TFunc)
    requires EmitFunc(f).Some?
    ensures UniqueLabels(EmitFunc(f).value)
    ensures TargetsOf(EmitFunc(f).value) <= LabelsOf(EmitFunc(f).value) <==> WhileJumpsAll(f.body, NoLoop)
  {
    hide LabelsOf, TargetsOf, Distinct, EmitFunc;
    assert EmitStmts(f.body, 0, [], f.result).ok by { Accepted(f); }
    FunctionLabels(f);
    DistinctUnique(EmitFunc(f).value);
    StmtsJumps(f.body, 0, [], NoLoop, f.result);
    if !WhileJumpsAll(f.body, NoLoop) {
      var c := EmitStmts(f.body, 0, [], f.result);
      var l :| Dangles(l, c.instrs, 0, c.next, [], NoLoop);
      assert l in TargetsOf(c.instrs) && l !in LabelsOf(c.instrs) && l.kind != Start;
    }
  }

  lemma Accepted(f: TFunc)
    requires EmitFunc(f).Some?
    ensures EmitStmts(f.body, 0, [], f.result).ok
  {
  }

  // ----- the prologue -----

  lemma ChainAlloc(o: Origin, at: nat, p: Reached, id: nat, ty: Ty, st: Meaning.Store, lay: Layout) returns (r: Reached)
    requires Reaches(o, at, p) && at < |o.code| && o.code[at] == Alloc(id, Size(ty))
    requires id == |lay| && Match(st, lay, p.regs, p.mem)
    ensures r == Reached(p.k + 1, p.regs[V(id) := Address(id)], r.mem) && Reaches(o, at + 1, r)
    ensures Match(st, lay + [ty], r.regs, r.mem)
  {
    r := ChainStep(o, at, p, at + 1, p.regs[V(id) := Address(id)], p.mem[id := Slot(Size(ty), None)]);
    forall j: nat | j < |lay + [ty]| ensures Holds(j, st, lay + [ty], r.regs, r.mem) {
      if j < |lay| { assert Holds(j, st, lay, p.regs, p.mem); }
    }
  }

  /** A parameter's value goes into its slot. */
  lemma ChainStoreParam(o: Origin, at: nat, p: Reached, id: nat, ty: Ty, v: int, st: Meaning.Store, lay: Layout)
    returns (r: Reached)
    requires Reaches(o, at, p) && at < |o.code| && o.code[at] == Il.Store(ty, P(id), V(id))
    requires HasLocal(lay, id, ty) && Match(st, lay, p.regs, p.mem) && InRange(ty, v)
    requires P(id) in p.regs && p.regs[P(id)] == Enc(ty, v)
    ensures r == Reached(p.k + 1, p.regs, r.mem) && Reaches(o, at + 1, r)
    ensures Match(st[id := v], lay, r.regs, r.mem)
  {
    assert Holds(id, st, lay, p.regs, p.mem);
    r := ChainStep(o, at, p, at + 1, p.regs, p.mem[id := p.mem[id].(content := Some(Enc(ty, v)))]);
    var st' := st[id := v];
    forall j: nat | j < |lay| ensures Holds(j, st', lay, r.regs, r.mem) {
      assert Holds(j, st, lay, p.regs, p.mem);
    }
  }

  /** Parameters from `i` on still hold their arguments. */
  ghost predicate ParamsHeld(ps: seq<TParam>, args: seq<int>, i: nat, regs: Regs) {
    |args| == |ps|
    && forall j :: i <= j < |ps| ==> P(j) in regs && regs[P(j)] == Enc(ps[j].ty, args[j])
  }

  lemma {:induction false} SimParams(o: Origin, at: nat, p: Reached, ps: seq<TParam>, args: seq<int>, i: nat)
    returns (r: Reached)
    requires i <= |ps| && ParamsHeld(ps, args, i, p.regs) && At(o.code, at, EmitParams(ps[i..]))
    requires forall j :: 0 <= j < |ps| ==> ps[j].id == j && InRange(ps[j].ty, args[j])
    requires Reaches(o, at, p) && Match(Arguments(args[..i]), ParamTypes(ps)[..i], p.regs, p.mem)
    ensures Reaches(o, at + |EmitParams(ps[i..])|, r) && Match(Arguments(args), ParamTypes(ps), r.regs, r.mem)
    decreases |ps| - i
  {
    hide Reaches, Match, Enc, EmitParams, At;
    if i == |ps| {
      NoParams(ps, i);
      assert args[..i] == args && ParamTypes(ps)[..i] == ParamTypes(ps);
      return p;
    }
    var lay := ParamTypes(ps);
    ParamsLayout(o.code, at, ps, i);
    r := ChainAlloc(o, at, p, i, ps[i].ty, Arguments(args[..i]), lay[..i]);
    assert lay[..i] + [ps[i].ty] == lay[..i + 1];
    r := ChainStoreParam(o, at + 1, r, i, ps[i].ty, args[i], Arguments(args[..i]), lay[..i + 1]);
    assert Arguments(args[..i])[i := args[i]] == Arguments(args[..i + 1]);
    r := SimParams(o, at + 2, r, ps, args, i + 1);
  }

  lemma ParamsLayout(code: seq<Instr>, at: nat, ps: seq<TParam>, i: nat)
    requires i < |ps| && At(code, at, EmitParams(ps[i..]))
    ensures at + 2 <= |code| && At(code, at + 2, EmitParams(ps[i + 1..]))
    ensures code[at] == Alloc(ps[i].id, Size(ps[i].ty)) && code[at + 1] == Il.Store(ps[i].ty, P(ps[i].id), V(ps[i].id))
    ensures |EmitParams(ps[i..])| == 2 + |EmitParams(ps[i + 1..])|
  {
    var head := [Alloc(ps[i].id, Size(ps[i].ty)), Il.Store(ps[i].ty, P(ps[i].id), V(ps[i].id))];
    assert ps[i..][1..] == ps[i + 1..] && EmitParams(ps[i..]) == head + EmitParams(ps[i + 1..]);
    AtAppend(code, at, head, EmitParams(ps[i + 1..]));
    assert code[at + 0] == head[0] && code[at + 1] == head[1];
  }

  lemma NoParams(ps: seq<TParam>, i: nat)
    requires i == |ps|
    ensures EmitParams(ps[i..]) == []
  {
  }

  lemma {:induction false} SimLocals(o: Origin, at: nat, p: Reached, ss: seq<TStmt>, st: Meaning.Store, lay: Layout)
    returns (r: Reached)
    requires At(o.code, at, EmitLocals(ss)) && InOrder(ss, |lay|)
    requires Reaches(o, at, p) && Match(st, lay, p.regs, p.mem)
    ensures Reaches(o, at + |EmitLocals(ss)|, r) && Match(st, lay + DeclTypes(ss), r.regs, r.mem)
    decreases |ss|
  {
    hide Reaches, Match, Enc, NoDecls, At, EmitLocals, DeclTypes;
    LocalsLayout(o.code, at, ss, lay);
    if ss == [] {
      r := p;
    } else if ss[0].TDecl? {
      r := ChainAlloc(o, at, p, ss[0].id, ss[0].ty, st, lay);
      r := SimLocals(o, at + 1, r, ss[1..], st, lay + [ss[0].ty]);
    } else {
      r := SimLocals(o, at, p, ss[1..], st, lay);
    }
  }

  lemma LocalsLayout(code: seq<Instr>, at: nat, ss: seq<TStmt>, lay: Layout)
    requires At(code, at, EmitLocals(ss))
    ensures ss == [] ==> EmitLocals(ss) == [] && lay + DeclTypes(ss) == lay
    ensures ss != [] && ss[0].TDecl? ==>
      at < |code| && code[at] == Alloc(ss[0].id, Size(ss[0].ty)) && At(code, at + 1, EmitLocals(ss[1..]))
      && |EmitLocals(ss)| == 1 + |EmitLocals(ss[1..])| && lay + [ss[0].ty] + DeclTypes(ss[1..]) == lay + DeclTypes(ss)
    ensures ss != [] && !ss[0].TDecl? ==> EmitLocals(ss) == EmitLocals(ss[1..]) && DeclTypes(ss) == DeclTypes(ss[1..])
  {
    if ss != [] && ss[0].TDecl? {
      var head := [Alloc(ss[0].id, Size(ss[0].ty))];
      AtAppend(code, at, head, EmitLocals(ss[1..]));
      assert code[at + 0] == head[0];
    }
  }

  /** After the prologue the slots hold the arguments. */
  lemma SimPrologue(f: TFunc, args: seq<int>, o: Origin) returns (r: Reached)
    requires WellFormed(f) && ArgsFit(f, args)
    requires o.b == 0 && o.regs == CallRegs(f, args) && o.mem == map[] && At(o.code, 0, Prologue(f))
    ensures Reaches(o, |Prologue(f)|, r) && Match(Arguments(args), LayoutOf(f), r.regs, r.mem)
  {
    hide EmitParams, EmitLocals, Enc, InOrder, WellTypedStmts, Reaches, DeclTypes;
    var start := [Mark(Lbl(Start, 0))];
    AtAppend(o.code, 0, start, EmitParams(f.params) + EmitLocals(f.body));
    AtAppend(o.code, 1, EmitParams(f.params), EmitLocals(f.body));
    assert o.code[0 + 0] == start[0];
    Still(o);
    r := ChainMark(o, 0, Reached(0, o.regs, o.mem));
    assert f.params[0..] == f.params && args[..0] == [] && ParamTypes(f.params)[..0] == [];
    assert Arguments(args[..0]) == map[];
    r := SimParams(o, 1, r, f.params, args, 0);
    r := SimLocals(o, 1 + |EmitParams(f.params)|, r, f.body, Arguments(args), ParamTypes(f.params));
  }

  // ----- main results -----

  /** The slots of all initialised locals hold their values. */
  ghost predicate SlotsHold(st: Meaning.Store, lay: Layout, mem: Memory) {
    forall id :: id in st ==> id < |lay| && id in mem && mem[id] == Slot(Size(lay[id]), Some(Enc(lay[id], st[id])))
  }

  /** The compiled function, called with `args`, returns `v` leaving the locals as in `st`. */
  ghost predicate CompiledReturns(f: TFunc, args: seq<int>, v: int, st: Meaning.Store)
    requires EmitFunc(f).Some? && |args| == |f.params|
  {
    exists k, mem :: Run(EmitFunc(f).value, k, CallOf(f, args)) == Halted(Enc(f.result, v), mem)
      && SlotsHold(st, LayoutOf(f), mem)
  }

  /**
   What a compiled function does about an outcome of the function it was made from: it returns the same value
   with the same locals, or it is still running after as many steps as the fuel; an undefined outcome asks nothing.
   */
  ghost predicate Simulates(f: TFunc, args: seq<int>, out: Outcome, fuel: nat)
    requires EmitFunc(f).Some? && |args| == |f.params|
  {
    match out
    case Returned(v, st) => CompiledReturns(f, args, v, st)
    case OutOfFuel => forall k :: 0 <= k <= fuel ==> Run(EmitFunc(f).value, k, CallOf(f, args)).Running?
    case _ => out.Undefined?
  }

  /**
   Main result: the code of a function does what C prescribes for the function with every test of a `long`
   cast to `int`, for all arguments and any amount of fuel.
   */
  lemma CodeDoesLow(f: TFunc, args: seq<int>, fuel: nat)
    requires Emittable(f) && ArgsFit(f, args)
    ensures EmitFunc(f).Some? && Simulates(f, args, RunFunction(LowFunc(f), args, fuel), fuel)
  {
    hide At, EmitStmts, EmitStmt, EmitParams, EmitLocals, ExecAll, UniqueLabels, Match, Enc, Distinct, LabelsOf,
      TargetsOf, SlotsHold, LowStmts,
      WellTypedStmts, WhileJumpsAll, InOrder, DeclTypes, Reaches, Run, Prologue, EndsInTerminator, Halts,
        GoesOn, CompiledReturns;
    var o, at, p := SetUp(f, args);
    var b := EmitStmts(f.body, 0, [], f.result);
    var low := LowStmts(f.body);
    var out := ExecAll(low, Arguments(args), fuel);
    LowJumpsAll(f.body, NoLoop);
    NoJumpsOutAll(low, NoLoop, Arguments(args), fuel);
    var r := SimStmts(o, at, p, f.body, 0, [], NoLoop, Exits(0, 0), f.result, LayoutOf(f), Arguments(args), fuel);
    match out
    case Normal(st) =>
      if ListEndsInTerminator(f.body) { LowNotNormal(f.body, Arguments(args), fuel); }
      ReturnZero(f, args, o, at + |b.instrs|, r, st);
    case Returned(v, st) => ReturnValue(f, args, o, r, v, st);
    case OutOfFuel => StillRuns(f, args, o, r, fuel);
    case _ =>
  }

  lemma LowNotNormal(ss: seq<TStmt>, st: Meaning.Store, fuel: nat)
    requires ListEndsInTerminator(ss)
    ensures !ExecAll(LowStmts(ss), st, fuel).Normal?
  {
    hide LowStmt;
    LowAt(ss, |ss| - 1);
    LowTerminator(ss[|ss| - 1]);
    TerminatorsNotNormal(LowStmts(ss), st, fuel);
  }

  /**
   With `int` tests only: if the C function returns then the compiled one returns
   the same value with the same locals; if it is still running then so is the compiled one.
   */
  lemma CompilationCorrect(f: TFunc, args: seq<int>, fuel: nat)
    requires Compilable(f) && ArgsFit(f, args)
    ensures EmitFunc(f).Some?
    ensures
      var out := RunFunction(f, args, fuel);
      match out
      case Returned(v, st) => CompiledReturns(f, args, v, st)
      case OutOfFuel => forall k :: 0 <= k <= fuel ==> Run(EmitFunc(f).value, k, CallOf(f, args)).Running?
      case _ => out.Undefined?
  {
    hide EmitFunc, IntTestsStmts, WellFormed, ExecAll, CompiledReturns;
    LowSameStmts(f.body);
    CodeDoesLow(f, args, fuel);
  }

  /** The compiled call, past its prologue. */
  lemma SetUp(f: TFunc, args: seq<int>) returns (o: Origin, at: nat, p: Reached)
    requires Emittable(f) && ArgsFit(f, args)
    ensures EmitFunc(f).Some? && o == Origin(EmitFunc(f).value, 0, CallRegs(f, args), map[])
    ensures
      var b := EmitStmts(f.body, 0, [], f.result).instrs;
      Stands(o, at, p, Arguments(args), LayoutOf(f)) && At(o.code, at, b)
      && (!ListEndsInTerminator(f.body) ==> at + |b| < |o.code| && o.code[at + |b|] == RetConst(f.result, 0))
  {
    hide EmitStmts, EmitParams, EmitLocals, Match, Enc, LabelsOf, TargetsOf, InOrder, WellTypedStmts, WhileJumpsAll,
      EndsInTerminator, Reaches, CallRegs;
    EmitsStmts(f.body, 0, [], NoLoop, f.result);
    JumpTargets(f);
    var b := EmitStmts(f.body, 0, [], f.result).instrs;
    o := Origin(EmitFunc(f).value, 0, CallRegs(f, args), map[]);
    at := |Prologue(f)|;
    AtAppend(o.code, 0, Prologue(f), b + Epilogue(f));
    AtAppend(o.code, at, b, Epilogue(f));
    p := SimPrologue(f, args, o);
    if !ListEndsInTerminator(f.body) { assert o.code[at + |b| + 0] == Epilogue(f)[0]; }
  }

  lemma ReturnValue(f: TFunc, args: seq<int>, o: Origin, r: Reached, v: int, st: Meaning.Store)
    requires |args| == |f.params| && EmitFunc(f).Some? && o == Origin(EmitFunc(f).value, 0, CallRegs(f, args), map[])
    requires Halts(o, Enc(f.result, v), r) && Match(st, LayoutOf(f), r.regs, r.mem)
    ensures CompiledReturns(f, args, v, st)
  {
    assert Run(o.code, r.k, CallOf(f, args)) == Halted(Enc(f.result, v), r.mem);
    SlotsOf(st, LayoutOf(f), r.regs, r.mem);
  }

  lemma StillRuns(f: TFunc, args: seq<int>, o: Origin, r: Reached, fuel: nat)
    requires |args| == |f.params| && EmitFunc(f).Some? && o == Origin(EmitFunc(f).value, 0, CallRegs(f, args), map[])
    requires GoesOn(o, r) && r.k >= fuel
    ensures forall k :: 0 <= k <= fuel ==> Run(EmitFunc(f).value, k, CallOf(f, args)).Running?
  {
    forall k | 0 <= k <= fuel ensures Run(o.code, k, CallOf(f, args)).Running? {
      RunningBefore(o.code, k, r.k, CallOf(f, args));
    }
  }

  lemma SlotsOf(st: Meaning.Store, lay: Layout, regs: Regs, mem: Memory)
    requires Match(st, lay, regs, mem)
    ensures SlotsHold(st, lay, mem)
  {
    forall id | id in st ensures id < |lay| && id in mem && mem[id] == Slot(Size(lay[id]), Some(Enc(lay[id], st[id]))) {
      assert Holds(id, st, lay, regs, mem);
    }
  }

  /** Falling off the end of the body returns 0. */
  lemma ReturnZero(f: TFunc, args: seq<int>, o: Origin, at: nat, p: Reached, st: Meaning.Store)
    requires EmitFunc(f) == Some(o.code) && |args| == |f.params| && o.b == 0 && o.regs == CallRegs(f, args)
      && o.mem == map[]
    requires Reaches(o, at, p) && at < |o.code| && o.code[at] == RetConst(f.result, 0)
    requires Match(st, LayoutOf(f), p.regs, p.mem)
    ensures CompiledReturns(f, args, 0, st)
  {
    var c := CallOf(f, args);
    RunAdd(o.code, p.k, 1, c);
    assert Run(o.code, p.k, c) == Running(at, p.regs, p.mem);
    assert Run(o.code, 0, Halted(Enc(f.result, 0), p.mem)) == Halted(Enc(f.result, 0), p.mem);
    assert Run(o.code, p.k + 1, c) == Halted(Enc(f.result, 0), p.mem);
    SlotsOf(st, LayoutOf(f), p.regs, p.mem);
  }

  /**
   The converse: whenever the compiled function returns, the function with its tests cast has undefined
   behaviour or returns, and then with the same value.
   */
  lemma CodeReturnsLow(f: TFunc, args: seq<int>, k: nat)
    requires Emittable(f) && ArgsFit(f, args)
    requires EmitFunc(f).Some? && Run(EmitFunc(f).value, k, CallOf(f, args)).Halted?
    ensures
      var out := RunFunction(LowFunc(f), args, k);
      out.Undefined? || (out.Returned? && Run(EmitFunc(f).value, k, CallOf(f, args)).v == Enc(f.result, out.v))
  {
    hide EmitFunc, WellFormed, RunFunction, WhileJumpsAll;
    CodeDoesLow(f, args, k);
    var out := RunFunction(LowFunc(f), args, k);
    if out.Returned? {
      var code := EmitFunc(f).value;
      var c := CallOf(f, args);
      var j, mem :| Run(code, j, c) == Halted(Enc(f.result, out.v), mem) && SlotsHold(out.st, LayoutOf(f), mem);
      HaltsOnce(code, j, k, c);
    }
  }

  /** With `int` tests only, that is the value C prescribes. */
  lemma CompiledReturnIsRight(f: TFunc, args: seq<int>, k: nat)
    requires Compilable(f) && ArgsFit(f, args)
    requires EmitFunc(f).Some? && Run(EmitFunc(f).value, k, CallOf(f, args)).Halted?
    ensures
      var out := RunFunction(f, args, k);
      out.Undefined? || (out.Returned? && Run(EmitFunc(f).value, k, CallOf(f, args)).v == Enc(f.result, out.v))
  {
    hide EmitFunc, WellFormed, RunFunction, WhileJumpsAll;
    LowSameStmts(f.body);
    CodeReturnsLow(f, args, k);
  }

  lemma HaltsOnce(code: seq<Instr>, j: nat, k: nat, c: Config)
    requires Run(code, j, c).Halted? && Run(code, k, c).Halted?
    ensures Run(code, j, c) == Run(code, k, c)
  {
    if j <= k {
      RunAdd(code, j, k - j, c);
      RunStays(code, k - j, Run(code, j, c));
    } else {
      RunAdd(code, k, j - k, c);
      RunStays(code, j - k, Run(code, k, c));
    }
  }
}
