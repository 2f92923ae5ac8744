/** Which variables get a slot: only parameters and what is declared directly in the body (qbe.c:933-946). */
module Slots {
  import opened Options
  import opened Words
  import opened Typed
  import opened Meaning
  import opened Il
  import opened Codegen
  import opened FuncSim

  // ----- addresses and slots in code -----

  function VariableOf(x: Name): set<nat> { if x.V? then {x.n} else {} }

  /** The variables whose address an instruction reads. */
  function Taken(i: Instr): set<nat> {
    match i
    case Copy(_, _, s) => VariableOf(s)
    case Extsw(_, s) => VariableOf(s)
    case Bin(_, _, _, a, b) => VariableOf(a) + VariableOf(b)
    case Cmp(_, _, _, a, b) => VariableOf(a) + VariableOf(b)
    case Cnew0(_, a) => VariableOf(a)
    case Load(_, _, a) => VariableOf(a)
    case Store(_, s, a) => VariableOf(s) + VariableOf(a)
    case Jnz(a, _, _) => VariableOf(a)
    case Ret(_, s) => VariableOf(s)
    case _ => {}
  }

  function Addresses(code: seq<Instr>): set<nat> {
    if code == [] then {} else Taken(code[0]) + Addresses(code[1..])
  }

  function SlotsIn(code: seq<Instr>): set<nat> {
    if code == [] then {} else (if code[0].Alloc? then {code[0].id} else {}) + SlotsIn(code[1..])
  }

  /** Every address taken is that of a slot. */
  predicate OnlySlots(code: seq<Instr>) { Addresses(code) <= SlotsIn(code) }

  lemma {:induction false} Append(a: seq<Instr>, b: seq<Instr>)
    ensures Addresses(a + b) == Addresses(a) + Addresses(b)
    ensures SlotsIn(a + b) == SlotsIn(a) + SlotsIn(b)
  {
    if a == [] {
      assert a + b == b;
    } else {
      assert (a + b)[1..] == a[1..] + b;
      Append(a[1..], b);
    }
  }

  /** Instructions that touch no variable. */
  predicate Plain(code: seq<Instr>) { forall i :: 0 <= i < |code| ==> Taken(code[i]) == {} && !code[i].Alloc? }

  lemma {:induction false} PlainNone(code: seq<Instr>)
    requires Plain(code)
    ensures Addresses(code) == {} && SlotsIn(code) == {}
  {
    if code != [] { PlainNone(code[1..]); }
  }

  lemma OneAddress(n: nat, id: nat)
    ensures Addresses(AddressOf(n, id)) == {id} && SlotsIn(AddressOf(n, id)) == {}
  {
    var i := AddressOf(n, id);
    assert i[1..] == [];
  }

  // ----- the variables a tree names -----

  function Named(e: TExpr): set<nat> {
    match e
    case TLit(_, _) => {}
    case TVar(id, _) => {id}
    case TCast(x, _) => Named(x)
    case TArith(_, l, r) => Named(l) + Named(r)
    case TCompare(_, l, r) => Named(l) + Named(r)
    case TLogic(_, l, r) => Named(l) + Named(r)
    case TAssign(_, id, _, rhs) => {id} + Named(rhs)
    case TPostfix(_, id, _) => {id}
    case TCond(c, a, b, _) => Named(c) + Named(a) + Named(b)
    case TComma(l, r) => Named(l) + Named(r)
  }

  function NamedOpt(e: Option<TExpr>): set<nat> { if e.Some? then Named(e.value) else {} }

  /** A declaration names its variable when it initialises it. */
  function NamedIn(s: TStmt): set<nat>
    decreases s
  {
    match s
    case TEval(e) => NamedOpt(e)
    case TBlock(ss) => NamedInAll(ss)
    case TIf(c, t, els) => Named(c) + NamedIn(t) + (if els.Some? then NamedIn(els.value) else {})
    case TWhile(c, body) => Named(c) + NamedIn(body)
    case TDo(body, c) => NamedIn(body) + Named(c)
    case TFor(i, c, p, body) => NamedOpt(i) + NamedOpt(c) + NamedOpt(p) + NamedIn(body)
    case TReturn(e) => Named(e)
    case TBreak => {}
    case TContinue => {}
    case TDecl(id, _, e) => if e.Some? then {id} + Named(e.value) else {}
  }

  function NamedInAll(ss: seq<TStmt>): set<nat>
    decreases ss
  {
    if ss == [] then {} else NamedIn(ss[0]) + NamedInAll(ss[1..])
  }

  /** Code that takes exactly these addresses and makes no slot. */
  predicate Takes(code: seq<Instr>, ids: set<nat>) { Addresses(code) == ids && SlotsIn(code) == {} }

  lemma Both(a: seq<Instr>, x: set<nat>, b: seq<Instr>, y: set<nat>)
    requires Takes(a, x) && Takes(b, y)
    ensures Takes(a + b, x + y)
  {
    Append(a, b);
  }

  lemma Then(a: seq<Instr>, x: set<nat>, b: seq<Instr>)
    requires Takes(a, x) && Plain(b)
    ensures Takes(a + b, x) && Takes(b + a, x)
  {
    PlainNone(b);
    Append(a, b);
    Append(b, a);
  }

  lemma Nothing()
    ensures Takes([], {})
  {
  }

  lemma {:induction false} ExprTakes(e: TExpr, n: nat)
    ensures Takes(EmitExpr(e, n).instrs, Named(e))
    decreases e, 1
  {
    hide Takes;
    match e
    case TLit(v, ty) => ConstTakes(n, ty, v);
    case TVar(id, ty) =>
      VariableTakes(n, id, [Load(T(n + 1), ty, T(n))]);
      assert EmitExpr(e, n).instrs == AddressOf(n, id) + [Load(T(n + 1), ty, T(n))];
    case TCast(x, to) =>
      ExprTakes(x, n);
      var c := EmitExpr(x, n);
      Then(c.instrs, Named(x), [Convert(c.next, to, c.res, TypeOf(x))]);
    case TArith(_, l, r) => TwoTake(e, n);
    case TCompare(_, l, r) => TwoTake(e, n);
    case TLogic(_, l, r) => LogicTakes(e, n);
    case TAssign(_, _, _, _) => AssignTakes(e, n);
    case TPostfix(inc, id, ty) => PostfixTakes(inc, n, id, ty);
    case TCond(_, _, _, _) => CondTakes(e, n);
    case TComma(l, r) => TwoTake(e, n);
  }

  lemma ConstTakes(n: nat, ty: Ty, v: int)
    ensures Takes([Const(T(n), ty, v)], {})
  {
    PlainNone([Const(T(n), ty, v)]);
  }

  lemma VariableTakes(n: nat, id: nat, more: seq<Instr>)
    requires Plain(more)
    ensures Takes(AddressOf(n, id) + more, {id})
  {
    OneAddress(n, id);
    Then(AddressOf(n, id), {id}, more);
  }

  lemma PostfixTakes(inc: bool, n: nat, id: nat, ty: Ty)
    ensures Takes(PostfixCode(inc, n, id, ty).instrs, {id})
  {
    var i := PostfixCode(inc, n, id, ty).instrs;
    assert i == AddressOf(n, id) + i[1..];
    VariableTakes(n, id, i[1..]);
  }

  lemma {:induction false} TwoTake(e: TExpr, n: nat)
    requires e.TArith? || e.TCompare? || e.TComma?
    ensures Takes(EmitExpr(e, n).instrs, Named(e))
    decreases e, 0
  {
    hide Takes;
    var a := EmitExpr(e.l, n);
    var b := EmitExpr(e.r, a.next);
    ExprTakes(e.l, n);
    ExprTakes(e.r, a.next);
    var (x, y) := (Named(e.l), Named(e.r));
    if e.TArith? {
      var last := [Il.Bin(T(b.next), TypeOf(e.l), e.op, T(a.res), T(b.res))];
      Then(b.instrs, y, last);
      Both(a.instrs, x, b.instrs + last, y);
    } else if e.TCompare? {
      var last := [Cmp(T(b.next), e.cmp, TypeOf(e.l), T(a.res), T(b.res))];
      Then(b.instrs, y, last);
      Both(a.instrs, x, b.instrs + last, y);
    } else {
      Both(a.instrs, x, b.instrs, y);
    }
  }

  lemma {:induction false} LogicTakes(e: TExpr, n: nat)
    requires e.TLogic?
    ensures Takes(EmitExpr(e, n).instrs, Named(e))
    decreases e, 0
  {
    hide Takes;
    var a := EmitExpr(e.l, n + 2);
    var b := EmitExpr(e.r, a.next);
    ExprTakes(e.l, n + 2);
    ExprTakes(e.r, a.next);
    var (mid, last) := (LogicTest(e.isAnd, n, a.res), LogicEnd(n, b));
    Then(b.instrs, Named(e.r), last);
    Then(b.instrs + last, Named(e.r), mid);
    Both(a.instrs, Named(e.l), mid + (b.instrs + last), Named(e.r));
  }

  lemma {:induction false} AssignTakes(e: TExpr, n: nat)
    requires e.TAssign?
    ensures Takes(EmitExpr(e, n).instrs, Named(e))
    decreases e, 0
  {
    hide Takes;
    var c := EmitExpr(e.rhs, n + 1);
    ExprTakes(e.rhs, n + 1);
    var last := if e.aop.None? then AssignEnd(e.ty, n, c) else CompoundEnd(e.aop.value, e.ty, n, c);
    StoredTakes(n, e.id, c.instrs, Named(e.rhs), last);
  }

  /** The address, a value, and the instructions that store it. */
  lemma StoredTakes(n: nat, id: nat, code: seq<Instr>, ids: set<nat>, last: seq<Instr>)
    requires Takes(code, ids) && Plain(last)
    ensures Takes(AddressOf(n, id) + (code + last), {id} + ids)
  {
    hide Takes;
    VariableTakes(n, id, []);
    assert AddressOf(n, id) + [] == AddressOf(n, id);
    Then(code, ids, last);
    Both(AddressOf(n, id), {id}, code + last, ids);
  }

  lemma {:induction false} CondTakes(e: TExpr, n: nat)
    requires e.TCond?
    ensures Takes(EmitExpr(e, n).instrs, Named(e))
    decreases e, 0
  {
    hide Takes;
    var x := EmitExpr(e.c, n);
    var y := EmitExpr(e.a, x.next + 2);
    var z := EmitExpr(e.b, y.next);
    ExprTakes(e.c, n);
    ExprTakes(e.a, x.next + 2);
    ExprTakes(e.b, y.next);
    var (a, b) := (Named(e.a), Named(e.b));
    var (i0, i1, i2) := (CondTest(x), CondMiddle(x, y, e.ty), CondLast(x, z, e.ty));
    Then(z.instrs, b, i2);
    Then(z.instrs + i2, b, i1);
    Both(y.instrs, a, i1 + (z.instrs + i2), b);
    Then(y.instrs + (i1 + (z.instrs + i2)), a + b, i0);
    Both(x.instrs, Named(e.c), i0 + (y.instrs + (i1 + (z.instrs + i2))), a + b);
    assert Named(e.c) + (a + b) == Named(e.c) + a + b;
  }

  lemma OptTakes(e: Option<TExpr>, n: nat)
    ensures Takes(EmitOpt(e, n).instrs, NamedOpt(e))
  {
    hide Takes, EmitExpr;
    if e.Some? { ExprTakes(e.value, n); } else { Nothing(); }
  }

  // ----- statements -----

  /** The code of a statement takes the addresses of the variables it names, and makes no slot. */
  lemma {:induction false} StmtTakes(s: TStmt, n: nat, ctx: seq<LoopCtx>, rt: Ty)
    requires EmitStmt(s, n, ctx, rt).ok
    ensures Takes(EmitStmt(s, n, ctx, rt).instrs, NamedIn(s))
    decreases s, 1
  {
    hide Takes, EmitExpr, EmitOpt, Named, NamedOpt;
    if s.TIf? { IfTakes(s, n, ctx, rt); }
    else if s.TWhile? || s.TDo? { LoopTakes(s, n, ctx, rt); }
    else if s.TFor? { ForTakes(s, n, ctx, rt); }
    else if s.TBlock? { StmtsTake(s.stmts, n, ctx, rt); }
    else { SimpleTakes(s, n, ctx, rt); }
  }

  lemma SimpleTakes(s: TStmt, n: nat, ctx: seq<LoopCtx>, rt: Ty)
    requires s.TEval? || s.TReturn? || s.TBreak? || s.TContinue? || s.TDecl?
    requires EmitStmt(s, n, ctx, rt).ok
    ensures Takes(EmitStmt(s, n, ctx, rt).instrs, NamedIn(s))
  {
    hide Takes, EmitExpr, EmitOpt, Named, NamedOpt;
    Nothing();
    if s.TEval? {
      OptTakes(s.e, n);
    } else if s.TReturn? {
      var c := EmitExpr(s.value, n);
      ExprTakes(s.value, n);
      Then(c.instrs, Named(s.value), [Ret(rt, T(c.res))]);
    } else if s.TDecl? && s.initial.Some? {
      var c := EmitExpr(s.initial.value, n + 1);
      ExprTakes(s.initial.value, n + 1);
      StoredTakes(n, s.id, c.instrs, Named(s.initial.value), AssignEnd(s.ty, n, c));
    } else if s.TBreak? || s.TContinue? {
      var code := EmitStmt(s, n, ctx, rt).instrs;
      Then([], {}, code);
      assert [] + code == code;
    }
  }

  lemma {:induction false} StmtsTake(ss: seq<TStmt>, n: nat, ctx: seq<LoopCtx>, rt: Ty)
    requires EmitStmts(ss, n, ctx, rt).ok
    ensures Takes(EmitStmts(ss, n, ctx, rt).instrs, NamedInAll(ss))
    decreases ss
  {
    hide Takes, EmitStmt, NamedIn;
    Nothing();
    if ss != [] {
      var c := EmitStmt(ss[0], n, ctx, rt);
      StmtTakes(ss[0], n, ctx, rt);
      StmtsTake(ss[1..], c.next, ctx, rt);
      Both(c.instrs, NamedIn(ss[0]), EmitStmts(ss[1..], c.next, ctx, rt).instrs, NamedInAll(ss[1..]));
    }
  }

  lemma {:induction false} IfTakes(s: TStmt, n: nat, ctx: seq<LoopCtx>, rt: Ty)
    requires s.TIf? && EmitStmt(s, n, ctx, rt).ok
    ensures Takes(EmitStmt(s, n, ctx, rt).instrs, NamedIn(s))
    decreases s, 0
  {
    hide Takes, EmitExpr, Named, EndsInTerminator;
    var x := EmitExpr(s.cond, n);
    var y := EmitStmt(s.thn, x.next + 1, ctx, rt);
    ExprTakes(s.cond, n);
    StmtTakes(s.thn, x.next + 1, ctx, rt);
    var (a, b) := (Named(s.cond), NamedIn(s.thn));
    var end := [Mark(Lbl(IfEnd, x.next))];
    if s.els.Some? {
      var z := EmitStmt(s.els.value, y.next, ctx, rt);
      StmtTakes(s.els.value, y.next, ctx, rt);
      var c := NamedIn(s.els.value);
      var (test, jmp, els) :=
        (IfTest(x, IfElse), JumpUnless(EndsInTerminator(s.thn), Lbl(IfEnd, x.next)), [Mark(Lbl(IfElse, x.next))]);
      Then(z.instrs, c, end);
      Then(z.instrs + end, c, els);
      Then(els + (z.instrs + end), c, jmp);
      Both(y.instrs, b, jmp + (els + (z.instrs + end)), c);
      Then(y.instrs + (jmp + (els + (z.instrs + end))), b + c, test);
      Both(x.instrs, a, test + (y.instrs + (jmp + (els + (z.instrs + end)))), b + c);
      assert a + (b + c) == a + b + c;
    } else {
      var test := IfTest(x, IfEnd);
      Then(y.instrs, b, end);
      Then(y.instrs + end, b, test);
      Both(x.instrs, a, test + (y.instrs + end), b);
      assert a + b + {} == a + b;
    }
  }

  lemma {:induction false} LoopTakes(s: TStmt, n: nat, ctx: seq<LoopCtx>, rt: Ty)
    requires (s.TWhile? || s.TDo?) && EmitStmt(s, n, ctx, rt).ok
    ensures Takes(EmitStmt(s, n, ctx, rt).instrs, NamedIn(s))
    decreases s, 0
  {
    hide Takes, EmitExpr, Named, EndsInTerminator;
    var inside := ctx + [LoopCtx(n, n)];
    var (a, b) := (Named(s.cond), NamedIn(s.body));
    if s.TWhile? {
      var x := EmitExpr(s.cond, n + 1);
      var y := EmitStmt(s.body, x.next, inside, rt);
      ExprTakes(s.cond, n + 1);
      StmtTakes(s.body, x.next, inside, rt);
      var (top, test, end) := ([Mark(Lbl(WhileCond, n))], WhileTest(n, x),
        JumpUnless(EndsInTerminator(s.body), Lbl(WhileCond, n)) + [Mark(Lbl(WhileEnd, n))]);
      Then(y.instrs, b, end);
      Then(y.instrs + end, b, test);
      Both(x.instrs, a, test + (y.instrs + end), b);
      Then(x.instrs + (test + (y.instrs + end)), a + b, top);
    } else {
      var y := EmitStmt(s.body, n + 1, inside, rt);
      var x := EmitExpr(s.cond, y.next);
      ExprTakes(s.cond, y.next);
      StmtTakes(s.body, n + 1, inside, rt);
      var (top, mid, end) := ([Mark(Lbl(DoBody, n))], [Mark(Lbl(DoCond, n))], DoTest(n, x));
      Then(x.instrs, a, end);
      Then(x.instrs + end, a, mid);
      Both(y.instrs, b, mid + (x.instrs + end), a);
      Then(y.instrs + (mid + (x.instrs + end)), b + a, top);
    }
  }

  lemma {:induction false} ForTakes(s: TStmt, n: nat, ctx: seq<LoopCtx>, rt: Ty)
    requires s.TFor? && EmitStmt(s, n, ctx, rt).ok
    ensures Takes(EmitStmt(s, n, ctx, rt).instrs, NamedIn(s))
    decreases s, 0
  {
    hide Takes, EmitOpt, NamedOpt;
    var w := EmitOpt(s.init, n + 1);
    var x := EmitOpt(s.test, w.next);
    var y := EmitStmt(s.body, x.next, ctx + [LoopCtx(n, n)], rt);
    var z := EmitOpt(s.post, y.next);
    OptTakes(s.init, n + 1);
    OptTakes(s.test, w.next);
    StmtTakes(s.body, x.next, ctx + [LoopCtx(n, n)], rt);
    OptTakes(s.post, y.next);
    var (i, c, p, b) := (NamedOpt(s.init), NamedOpt(s.test), NamedOpt(s.post), NamedIn(s.body));
    var (top, test, mid, end) :=
      ([Mark(Lbl(ForCond, n))], ForTest(n, x, s.test.Some?), [Mark(Lbl(ForPost, n))], ForLast(n));
    Then(z.instrs, p, end);
    Then(z.instrs + end, p, mid);
    Both(y.instrs, b, mid + (z.instrs + end), p);
    Then(y.instrs + (mid + (z.instrs + end)), b + p, test);
    Both(x.instrs, c, test + (y.instrs + (mid + (z.instrs + end))), b + p);
    Then(x.instrs + (test + (y.instrs + (mid + (z.instrs + end)))), c + (b + p), top);
    Both(w.instrs, i, ForLoop(n, x, s.test.Some?, y, z), c + (b + p));
    assert i + (c + (b + p)) == i + c + p + b;
  }

  // ----- functions -----

  function ParamIds(ps: seq<TParam>): set<nat> { if ps == [] then {} else {ps[0].id} + ParamIds(ps[1..]) }

  /** What is declared directly in the body. */
  function DirectIds(ss: seq<TStmt>): set<nat> {
    if ss == [] then {} else (if ss[0].TDecl? then {ss[0].id} else {}) + DirectIds(ss[1..])
  }

  lemma {:induction false} ParamSlots(ps: seq<TParam>)
    ensures SlotsIn(EmitParams(ps)) == ParamIds(ps) && Addresses(EmitParams(ps)) == ParamIds(ps)
  {
    if ps != [] {
      var i := [Alloc(ps[0].id, Size(ps[0].ty)), Il.Store(ps[0].ty, P(ps[0].id), V(ps[0].id))];
      assert i[1..] == [i[1]] && i[1..][1..] == [];
      Append(i, EmitParams(ps[1..]));
      ParamSlots(ps[1..]);
    }
  }

  lemma {:induction false} LocalSlots(ss: seq<TStmt>)
    ensures SlotsIn(EmitLocals(ss)) == DirectIds(ss) && Addresses(EmitLocals(ss)) == {}
  {
    if ss != [] {
      var i := if ss[0].TDecl? then [Alloc(ss[0].id, Size(ss[0].ty))] else [];
      assert i != [] ==> i[1..] == [];
      Append(i, EmitLocals(ss[1..]));
      LocalSlots(ss[1..]);
    }
  }

  /**
   Main result: the code of a function has slots for its parameters and the declarations directly in its body,
   so all addresses it takes are of slots exactly when it names no other variable.
   */
  lemma FunctionSlots(f: TFunc)
    requires EmitFunc(f).Some?
    ensures SlotsIn(EmitFunc(f).value) == ParamIds(f.params) + DirectIds(f.body)
    ensures OnlySlots(EmitFunc(f).value) <==> NamedInAll(f.body) <= ParamIds(f.params) + DirectIds(f.body)
  {
    hide EmitStmts, EmitParams, EmitLocals, Addresses, SlotsIn, ListEndsInTerminator, NamedInAll;
    var b := EmitStmts(f.body, 0, [], f.result);
    StmtsTake(f.body, 0, [], f.result);
    ParamSlots(f.params);
    LocalSlots(f.body);
    var (start, end) := ([Mark(Lbl(Start, 0))], Epilogue(f));
    PlainNone(start);
    PlainNone(end);
    Append(EmitParams(f.params), EmitLocals(f.body));
    Append(start, EmitParams(f.params) + EmitLocals(f.body));
    Append(b.instrs, end);
    Append(Prologue(f), b.instrs + end);
  }

  /** `{ int x = 1; }` as a whole body: C returns 0, the code stops at the address of a slot that does not exist. */
  const NESTED: TFunc := TFunc(Int, [], [TBlock([TDecl(0, Int, Some(TLit(1, Int)))])])

  lemma NestedGetsStuck()
    ensures RunFunction(NESTED, [], 0) == Returned(0, map[0 := 1])
    ensures EmitFunc(NESTED).Some? && Run(EmitFunc(NESTED).value, 2, CallOf(NESTED, [])) == Stuck
  {
    NestedMeaning();
    NestedCode();
    var code := EmitFunc(NESTED).value;
    var c := CallOf(NESTED, []);
    assert Step(code, c) == c.(pc := 1);
    assert Step(code, c.(pc := 1)) == Stuck;
    assert Run(code, 2, c) == Run(code, 1, c.(pc := 1)) == Run(code, 0, Stuck);
  }

  lemma NestedMeaning()
    ensures RunFunction(NESTED, [], 0) == Returned(0, map[0 := 1])
  {
    var d := TDecl(0, Int, Some(TLit(1, Int)));
    var ss := [d];
    assert ss[1..] == [] && Arguments([]) == map[];
    assert Exec(d, map[], 0) == Normal(map[0 := 1]);
    assert ExecAll(ss, map[], 0) == ExecAll([], map[0 := 1], 0);
    var bs := [TBlock(ss)];
    assert bs[1..] == [];
    assert Exec(TBlock(ss), map[], 0) == Normal(map[0 := 1]);
    assert ExecAll(bs, map[], 0) == ExecAll([], map[0 := 1], 0);
  }

  lemma NestedCode()
    ensures EmitFunc(NESTED).Some?
    ensures var code := EmitFunc(NESTED).value;
      |code| > 1 && code[0] == Mark(Lbl(Start, 0)) && code[1] == Copy(T(0), Long, V(0))
  {
    var d := TDecl(0, Int, Some(TLit(1, Int)));
    var ss := [d];
    var bs := [TBlock(ss)];
    assert ss[1..] == [] && bs[1..] == [] && NESTED.body == bs;
    var c := EmitStmt(d, 0, [], Int);
    assert c.ok && |c.instrs| > 0 && c.instrs[0] == Copy(T(0), Long, V(0));
    assert EmitStmts(ss, 0, [], Int) == SeqCode(c, EmitStmts(ss[1..], c.next, [], Int));
    var b := EmitStmts(ss, 0, [], Int);
    assert EmitStmt(bs[0], 0, [], Int) == b;
    assert EmitStmts(bs, 0, [], Int) == SeqCode(b, EmitStmts(bs[1..], b.next, [], Int));
    assert EmitLocals(bs) == [] + EmitLocals([]);
    assert Prologue(NESTED) == [Mark(Lbl(Start, 0))];
  }
}
