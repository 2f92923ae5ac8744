/** The code emitted for an expression computes the expression's value. */
module ExprSim {
  import opened Options
  import opened Words
  import opened Typed
  import opened Meaning
  import opened Il
  import opened Codegen
  import opened MachineArith
  import opened LowTests

  ghost predicate StoreOk(st: Meaning.Store, lay: Layout) {
    forall id :: id in st ==> id < |lay| && InRange(lay[id], st[id])
  }

  /** Every value an expression yields is in the range of its type. */
  lemma {:induction false} EvalInRange(e: TExpr, st: Meaning.Store, lay: Layout)
    requires WellTyped(e, lay) && StoreOk(st, lay) && Eval(e, st).Some?
    ensures InRange(TypeOf(e), Eval(e, st).value.v)
    ensures StoreOk(Eval(e, st).value.st, lay)
    decreases e, 1
  {
    hide *;
    if e.TArith? || e.TCompare? || e.TLogic? || e.TComma? { TwoInRange(e, st, lay); }
    else if e.TAssign? || e.TPostfix? { StoredInRange(e, st, lay); }
    else { OneInRange(e, st, lay); }
  }

  lemma {:induction false} OneInRange(e: TExpr, st: Meaning.Store, lay: Layout)
    requires (e.TLit? || e.TVar? || e.TCast? || e.TCond?) && WellTyped(e, lay) && StoreOk(st, lay) && Eval(e, st).Some?
    ensures InRange(TypeOf(e), Eval(e, st).value.v)
    ensures StoreOk(Eval(e, st).value.st, lay)
    decreases e, 0
  {
    hide Wrap, Arith, InRange;
    if e.TCast? {
      EvalInRange(e.e, st, lay);
      WrapFacts(e.to, Eval(e.e, st).value.v);
    } else if e.TCond? {
      EvalInRange(e.c, st, lay);
      var x := Eval(e.c, st).value;
      EvalInRange(if x.v != 0 then e.a else e.b, x.st, lay);
    }
  }

  lemma {:induction false} TwoInRange(e: TExpr, st: Meaning.Store, lay: Layout)
    requires (e.TArith? || e.TCompare? || e.TLogic? || e.TComma?) && WellTyped(e, lay) && StoreOk(st, lay)
      && Eval(e, st).Some?
    ensures InRange(TypeOf(e), Eval(e, st).value.v)
    ensures StoreOk(Eval(e, st).value.st, lay)
    decreases e, 0
  {
    hide Wrap, Arith, InRange, StoreOk, Compare;
    EvalInRange(e.l, st, lay);
    var x := Eval(e.l, st).value;
    if !(e.TLogic? && (x.v != 0) != e.isAnd) { EvalInRange(e.r, x.st, lay); }
    if e.TArith? { ArithInRange(e.op, TypeOf(e.l), x.v, Eval(e.r, x.st).value.v); }
    TruthInRange();
  }

  lemma TruthInRange()
    ensures forall b :: InRange(Int, Truth(b))
  {
  }

  lemma {:induction false} StoredInRange(e: TExpr, st: Meaning.Store, lay: Layout)
    requires (e.TAssign? || e.TPostfix?) && WellTyped(e, lay) && StoreOk(st, lay) && Eval(e, st).Some?
    ensures InRange(TypeOf(e), Eval(e, st).value.v)
    ensures StoreOk(Eval(e, st).value.st, lay)
    decreases e, 0
  {
    hide Wrap, Arith, InRange;
    if e.TPostfix? {
      WrapFacts(e.ty, if e.inc then st[e.id] + 1 else st[e.id] - 1);
    } else {
      EvalInRange(e.rhs, st, lay);
      if e.aop.Some? {
        var x := Eval(e.rhs, st).value;
        ArithInRange(e.aop.value, e.ty, x.st[e.id], x.v);
      }
    }
  }

  /** Local `id` has its slot and, when initialised, its value is there. */
  ghost predicate Holds(id: nat, st: Meaning.Store, lay: Layout, regs: Regs, mem: Memory)
    requires id < |lay|
  {
    V(id) in regs && regs[V(id)] == Address(id) && id in mem && mem[id].size == Size(lay[id])
    && (id in st ==> mem[id].content == Some(Enc(lay[id], st[id])))
  }

  /** Registers and memory represent the store. */
  ghost predicate Match(st: Meaning.Store, lay: Layout, regs: Regs, mem: Memory) {
    StoreOk(st, lay) && forall id: nat :: id < |lay| ==> Holds(id, st, lay, regs, mem)
  }

  predicate InSpan(x: Name, lo: nat, hi: nat) { x.T? && lo <= x.n < hi }

  ghost predicate Kept(x: Name, lo: nat, hi: nat, r: Regs, r': Regs) {
    InSpan(x, lo, hi) || ((x in r <==> x in r') && (x in r ==> r'[x] == r[x]))
  }

  /** Nothing but the temporaries numbered `lo` up to `hi` has been written. */
  ghost predicate Frame(lo: nat, hi: nat, r: Regs, r': Regs) {
    forall x :: Kept(x, lo, hi, r, r')
  }

  lemma FrameTrans(lo: nat, mid: nat, mid': nat, hi: nat, r: Regs, r': Regs, r'': Regs)
    requires Frame(lo, mid, r, r') && Frame(mid', hi, r', r'')
    requires lo <= mid' && mid <= hi
    ensures Frame(lo, hi, r, r'')
  {
    forall x: Name ensures Kept(x, lo, hi, r, r'') {
      assert Kept(x, lo, mid, r, r') && Kept(x, mid', hi, r', r'');
    }
  }

  lemma MatchFrame(st: Meaning.Store, lay: Layout, lo: nat, hi: nat, r: Regs, r': Regs, mem: Memory)
    requires Match(st, lay, r, mem) && Frame(lo, hi, r, r')
    ensures Match(st, lay, r', mem)
  {
    forall id: nat | id < |lay| ensures Holds(id, st, lay, r', mem) {
      assert Holds(id, st, lay, r, mem) && Kept(V(id), lo, hi, r, r');
    }
  }

  lemma FrameSame(lo: nat, hi: nat, r: Regs)
    ensures Frame(lo, hi, r, r)
  {
  }

  lemma MatchStore(st: Meaning.Store, lay: Layout, regs: Regs, mem: Memory)
    requires Match(st, lay, regs, mem)
    ensures StoreOk(st, lay)
  {
  }

  /** A local of a matching state holds a value of its type. */
  lemma LocalInRange(st: Meaning.Store, lay: Layout, regs: Regs, mem: Memory, id: nat, ty: Ty)
    requires Match(st, lay, regs, mem) && HasLocal(lay, id, ty) && id in st
    ensures InRange(ty, st[id])
  {
  }

  /** Temporary `x` outside the span still has its value. */
  lemma Survives(x: nat, lo: nat, hi: nat, r: Regs, r': Regs)
    requires Frame(lo, hi, r, r') && T(x) in r && !(lo <= x < hi)
    ensures T(x) in r' && r'[T(x)] == r[T(x)]
  {
    assert Kept(T(x), lo, hi, r, r');
  }

  /** A run of a program: the code and where it starts. */
  datatype Origin = Origin(code: seq<Instr>, b: nat, regs: Regs, mem: Memory)

  /** Steps taken and the registers and memory they lead to. */
  datatype Reached = Reached(k: nat, regs: Regs, mem: Memory)

  ghost predicate Reaches(o: Origin, at: nat, r: Reached) {
    forall c :: c == Running(o.b, o.regs, o.mem) ==> Run(o.code, r.k, c) == Running(at, r.regs, r.mem)
  }

  lemma Still(o: Origin)
    ensures Reaches(o, o.b, Reached(0, o.regs, o.mem))
  {
  }

  lemma ChainStep(o: Origin, at: nat, p: Reached, to: nat, regs: Regs, mem: Memory) returns (r: Reached)
    requires Reaches(o, at, p) && Step(o.code, Running(at, p.regs, p.mem)) == Running(to, regs, mem)
    ensures r == Reached(p.k + 1, regs, mem)
    ensures Reaches(o, to, r)
  {
    r := Reached(p.k + 1, regs, mem);
    var c := Running(o.b, o.regs, o.mem);
    RunAdd(o.code, p.k, 1, c);
    assert Run(o.code, p.k, c) == Running(at, p.regs, p.mem);
    assert Run(o.code, 0, Running(to, regs, mem)) == Running(to, regs, mem);
  }

  // ----- single instructions -----

  /** A defining instruction: `d` of the span `lo..hi` now holds `v`. */
  ghost predicate Wrote(p: Reached, d: nat, v: Val, r: Reached) {
    r == Reached(p.k + 1, p.regs[T(d) := v], p.mem)
  }

  /** It keeps the locals, and the frame of any span `d` is in. */
  lemma WroteKeeps(st: Meaning.Store, lay: Layout, lo: nat, hi: nat, regs: Regs, p: Reached, d: nat, v: Val, r: Reached)
    requires Match(st, lay, p.regs, p.mem) && Frame(lo, hi, regs, p.regs) && lo <= d < hi && Wrote(p, d, v, r)
    ensures Match(st, lay, r.regs, r.mem) && Frame(lo, hi, regs, r.regs)
  {
    assert Frame(d, d + 1, p.regs, r.regs);
    MatchFrame(st, lay, d, d + 1, p.regs, r.regs, p.mem);
    forall x: Name ensures Kept(x, lo, hi, regs, r.regs) {
      assert Kept(x, lo, hi, regs, p.regs) && Kept(x, d, d + 1, p.regs, r.regs);
    }
  }

  lemma ChainConst(o: Origin, at: nat, p: Reached, d: nat, ty: Ty, v: int) returns (r: Reached)
    requires Reaches(o, at, p) && at < |o.code| && o.code[at] == Const(T(d), ty, v)
    ensures Wrote(p, d, Enc(ty, v), r) && Reaches(o, at + 1, r)
  {
    r := ChainStep(o, at, p, at + 1, p.regs[T(d) := Enc(ty, v)], p.mem);
  }

  /** The address of a local. */
  lemma ChainAddress(o: Origin, at: nat, p: Reached, d: nat, id: nat, st: Meaning.Store, lay: Layout)
    returns (r: Reached)
    requires Reaches(o, at, p) && at < |o.code| && o.code[at] == Copy(T(d), Long, V(id))
    requires id < |lay| && Match(st, lay, p.regs, p.mem)
    ensures Wrote(p, d, Address(id), r) && Reaches(o, at + 1, r)
  {
    assert Holds(id, st, lay, p.regs, p.mem);
    r := ChainStep(o, at, p, at + 1, p.regs[T(d) := Address(id)], p.mem);
  }

  lemma ChainConvert(o: Origin, at: nat, p: Reached, d: nat, to: Ty, s: nat, from: Ty, v: int) returns (r: Reached)
    requires Reaches(o, at, p) && at < |o.code| && o.code[at] == Convert(d, to, s, from)
    requires T(s) in p.regs && p.regs[T(s)] == Enc(from, v) && InRange(from, v)
    ensures Wrote(p, d, Enc(to, Wrap(to, v)), r) && Reaches(o, at + 1, r)
  {
    SignedBits(from, v);
    WrapFacts(to, v);
    r := ChainStep(o, at, p, at + 1, p.regs[T(d) := Enc(to, Wrap(to, v))], p.mem);
  }

  lemma ChainBin(o: Origin, at: nat, p: Reached, d: nat, op: ArithOp, ty: Ty, x: nat, v: int, y: nat, tb: Ty, w: int,
                 z: int)
    returns (r: Reached)
    requires Reaches(o, at, p) && at < |o.code| && o.code[at] == Bin(T(d), ty, op, T(x), T(y))
    requires T(x) in p.regs && p.regs[T(x)] == Enc(ty, v) && InRange(ty, v)
    requires T(y) in p.regs && p.regs[T(y)] == Enc(tb, w) && InRange(tb, w)
    requires IsShift(op) || tb == ty
    requires Arith(op, ty, v, w) == Some(z)
    ensures Wrote(p, d, Enc(ty, z), r) && Reaches(o, at + 1, r)
  {
    MachineComputes(op, ty, v, tb, w);
    assert Read(SecondClass(op, ty), p.regs, T(y)) == Some(SecondBits(op, tb, w));
    r := ChainStep(o, at, p, at + 1, p.regs[T(d) := Enc(ty, z)], p.mem);
  }

  lemma ChainCmp(o: Origin, at: nat, p: Reached, d: nat, cmp: CmpOp, ty: Ty, x: nat, v: int, y: nat, w: int)
    returns (r: Reached)
    requires Reaches(o, at, p) && at < |o.code| && o.code[at] == Cmp(T(d), cmp, ty, T(x), T(y))
    requires T(x) in p.regs && p.regs[T(x)] == Enc(ty, v) && InRange(ty, v)
    requires T(y) in p.regs && p.regs[T(y)] == Enc(ty, w) && InRange(ty, w)
    ensures Wrote(p, d, Enc(Int, Truth(Compare(cmp, v, w))), r) && Reaches(o, at + 1, r)
  {
    SignedBits(ty, v);
    SignedBits(ty, w);
    r := ChainStep(o, at, p, at + 1, p.regs[T(d) := Enc(Int, Truth(Compare(cmp, v, w)))], p.mem);
  }

  lemma ChainCopy(o: Origin, at: nat, p: Reached, d: nat, ty: Ty, s: nat, v: int) returns (r: Reached)
    requires Reaches(o, at, p) && at < |o.code| && o.code[at] == Copy(T(d), ty, T(s))
    requires T(s) in p.regs && p.regs[T(s)] == Enc(ty, v)
    ensures Wrote(p, d, Enc(ty, v), r) && Reaches(o, at + 1, r)
  {
    r := ChainStep(o, at, p, at + 1, p.regs[T(d) := Enc(ty, v)], p.mem);
  }

  /** What an instruction that reads 32 bits finds of `v`. */
  lemma ReadHalf(regs: Regs, x: Name, ty: Ty, v: int)
    requires x in regs && regs[x] == Enc(ty, v) && InRange(ty, v)
    ensures Read(Int, regs, x).Some? && (Read(Int, regs, x).value != 0 <==> Seen(ty, v) != 0)
  {
    hide Bits;
    if ty == Long { LowHalf(v); }
    ZeroBits(v);
    if ty == Int { SignedBits(Int, v); }
  }

  lemma ChainCnew(o: Origin, at: nat, p: Reached, d: nat, s: nat, ty: Ty, v: int) returns (r: Reached)
    requires Reaches(o, at, p) && at < |o.code| && o.code[at] == Cnew0(T(d), T(s))
    requires T(s) in p.regs && p.regs[T(s)] == Enc(ty, v) && InRange(ty, v)
    ensures Wrote(p, d, Enc(Int, Truth(Seen(ty, v) != 0)), r) && Reaches(o, at + 1, r)
  {
    hide Read, Seen, Enc;
    ReadHalf(p.regs, T(s), ty, v);
    r := ChainStep(o, at, p, at + 1, p.regs[T(d) := Enc(Int, Truth(Seen(ty, v) != 0))], p.mem);
  }

  lemma ChainLoad(o: Origin, at: nat, p: Reached, d: nat, ty: Ty, a: nat, id: nat, st: Meaning.Store, lay: Layout)
    returns (r: Reached)
    requires Reaches(o, at, p) && at < |o.code| && o.code[at] == Load(T(d), ty, T(a))
    requires T(a) in p.regs && p.regs[T(a)] == Address(id)
    requires HasLocal(lay, id, ty) && Match(st, lay, p.regs, p.mem) && id in st
    ensures Wrote(p, d, Enc(ty, st[id]), r) && Reaches(o, at + 1, r)
  {
    assert Holds(id, st, lay, p.regs, p.mem);
    r := ChainStep(o, at, p, at + 1, p.regs[T(d) := Enc(ty, st[id])], p.mem);
  }

  /** Storing `v` into a local's slot updates the store. */
  lemma ChainStore(o: Origin, at: nat, p: Reached, ty: Ty, s: nat, v: int, a: nat, id: nat, st: Meaning.Store,
                   lay: Layout)
    returns (r: Reached)
    requires Reaches(o, at, p) && at < |o.code| && o.code[at] == Il.Store(ty, T(s), T(a))
    requires HasLocal(lay, id, ty) && Match(st, lay, p.regs, p.mem) && InRange(ty, v)
    requires T(s) in p.regs && p.regs[T(s)] == Enc(ty, v)
    requires T(a) in p.regs && p.regs[T(a)] == Address(id)
    ensures r == Reached(p.k + 1, p.regs, r.mem) && Reaches(o, at + 1, r)
    ensures Match(st[id := v], lay, r.regs, r.mem)
  {
    assert Holds(id, st, lay, p.regs, p.mem);
    r := ChainStep(o, at, p, at + 1, p.regs, p.mem[id := p.mem[id].(content := Some(Enc(ty, v)))]);
    var st' := st[id := v];
    forall j: nat | j < |lay| ensures Holds(j, st', lay, r.regs, r.mem) {
      assert Holds(j, st, lay, p.regs, p.mem);
    }
  }

  lemma ChainMark(o: Origin, at: nat, p: Reached) returns (r: Reached)
    requires Reaches(o, at, p) && at < |o.code| && o.code[at].Mark?
    ensures r == p.(k := p.k + 1) && Reaches(o, at + 1, r)
  {
    r := ChainStep(o, at, p, at + 1, p.regs, p.mem);
  }

  /** A jump to the label defined at `to`, and past it. */
  lemma ChainJmp(o: Origin, at: nat, p: Reached, to: nat) returns (r: Reached)
    requires UniqueLabels(o.code) && Reaches(o, at, p)
    requires at < |o.code| && to < |o.code| && o.code[to].Mark? && o.code[at] == Jmp(o.code[to].l)
    ensures r == p.(k := p.k + 2) && Reaches(o, to + 1, r)
  {
    FindUnique(o.code, o.code[to].l, 0, to);
    r := ChainStep(o, at, p, to, p.regs, p.mem);
    r := ChainMark(o, to, r);
  }

  /** A branch on the value `v`, and past the label it goes to, defined at `to`. */
  lemma ChainJnz(o: Origin, at: nat, p: Reached, x: nat, ty: Ty, v: int, to: nat) returns (r: Reached)
    requires UniqueLabels(o.code) && Reaches(o, at, p)
    requires at < |o.code| && to < |o.code| && o.code[to].Mark? && o.code[at].Jnz? && o.code[at].a == T(x)
    requires T(x) in p.regs && p.regs[T(x)] == Enc(ty, v) && InRange(ty, v)
    requires o.code[to].l == if Seen(ty, v) != 0 then o.code[at].thn else o.code[at].els
    ensures r == p.(k := p.k + 2) && Reaches(o, to + 1, r)
  {
    hide Read, Seen, Enc;
    ReadHalf(p.regs, T(x), ty, v);
    FindUnique(o.code, o.code[to].l, 0, to);
    r := ChainStep(o, at, p, to, p.regs, p.mem);
    r := ChainMark(o, to, r);
  }

  // ----- expressions -----

  /** The run `o` stands, after `p`, at the code for `e` in a matching state where `e` has a value. */
  ghost predicate Ready(o: Origin, at: nat, p: Reached, e: TExpr, n: nat, lay: Layout, st: Meaning.Store) {
    UniqueLabels(o.code) && At(o.code, at, EmitExpr(e, n).instrs)
    && WellTyped(e, lay) && Eval(Low(e), st).Some?
    && Reaches(o, at, p) && Match(st, lay, p.regs, p.mem)
  }

  /** Its result temporary holds `v`, the store is represented, and only its own temporaries were written. */
  ghost predicate Yields(o: Origin, at: nat, p: Reached, res: nat, ty: Ty, lo: nat, hi: nat, lay: Layout, x: Evaluated,
                         r: Reached)
  {
    Reaches(o, at, r) && r.k > p.k
    && Match(x.st, lay, r.regs, r.mem)
    && T(res) in r.regs && r.regs[T(res)] == Enc(ty, x.v) && InRange(ty, x.v)
    && Frame(lo, hi, p.regs, r.regs)
  }

  /** The run reaches the end of the code for `e`, its value and side effects being those of `Low(e)`. */
  ghost predicate Evaluates(o: Origin, at: nat, p: Reached, e: TExpr, n: nat, lay: Layout, st: Meaning.Store,
                            r: Reached)
  {
    var c := EmitExpr(e, n);
    Eval(Low(e), st).Some?
    && Yields(o, at + |c.instrs|, p, c.res, TypeOf(e), n, c.next, lay, Eval(Low(e), st).value, r)
  }

  /**
   Main result for expressions: from every matching state the emitted code evaluates `e`, every test cast to
   `int`.
   */
  lemma {:induction false} SimExpr(o: Origin, at: nat, p: Reached, e: TExpr, n: nat, lay: Layout, st: Meaning.Store)
    returns (r: Reached)
    requires Ready(o, at, p, e, n, lay, st)
    ensures Evaluates(o, at, p, e, n, lay, st, r)
    decreases e, 2
  {
    match e
    case TLit(_, _) => r := SimLit(o, at, p, e, n, lay, st);
    case TVar(_, _) => r := SimVar(o, at, p, e, n, lay, st);
    case TCast(_, _) => r := SimCast(o, at, p, e, n, lay, st);
    case TArith(_, _, _) => r := SimArith(o, at, p, e, n, lay, st);
    case TCompare(_, _, _) => r := SimCompare(o, at, p, e, n, lay, st);
    case TLogic(_, _, _) => r := SimLogic(o, at, p, e, n, lay, st);
    case TAssign(aop, _, _, _) =>
      if aop.None? { r := SimAssign(o, at, p, e, n, lay, st); }
      else { r := SimCompound(o, at, p, e, n, lay, st); }
    case TPostfix(_, _, _) => r := SimPostfix(o, at, p, e, n, lay, st);
    case TCond(_, _, _, _) => r := SimCond(o, at, p, e, n, lay, st);
    case TComma(_, _) => r := SimComma(o, at, p, e, n, lay, st);
  }

  /** A defining instruction completes the evaluation of `e`. */
  lemma Completes(o: Origin, at: nat, p: Reached, q: Reached, hi: nat, e: TExpr, n: nat, lay: Layout, st: Meaning.Store,
                  r: Reached)
    requires WellTyped(e, lay) && StoreOk(st, lay) && Eval(Low(e), st).Some?
    requires Match(Eval(Low(e), st).value.st, lay, q.regs, q.mem) && Frame(n, hi, p.regs, q.regs) && q.k >= p.k
    requires Wrote(q, EmitExpr(e, n).res, Enc(TypeOf(e), Eval(Low(e), st).value.v), r)
    requires n <= hi <= EmitExpr(e, n).next && Reaches(o, at + |EmitExpr(e, n).instrs|, r)
    ensures Evaluates(o, at, p, e, n, lay, st, r)
  {
    LowTyped(e, lay);
    EvalInRange(Low(e), st, lay);
    assert Frame(n, EmitExpr(e, n).next, p.regs, q.regs) by { Widen(n, n, hi, EmitExpr(e, n).next, p.regs, q.regs); }
    WroteKeeps(Eval(Low(e), st).value.st, lay, n, EmitExpr(e, n).next, p.regs, q, EmitExpr(e, n).res,
      Enc(TypeOf(e), Eval(Low(e), st).value.v), r);
  }

  lemma Widen(lo': nat, lo: nat, hi': nat, hi: nat, r: Regs, r': Regs)
    requires Frame(lo', hi', r, r') && lo <= lo' && hi' <= hi
    ensures Frame(lo, hi, r, r')
  {
    forall x: Name ensures Kept(x, lo, hi, r, r') { assert Kept(x, lo', hi', r, r'); }
  }

  lemma SimLit(o: Origin, at: nat, p: Reached, e: TExpr, n: nat, lay: Layout, st: Meaning.Store) returns (r: Reached)
    requires e.TLit? && Ready(o, at, p, e, n, lay, st)
    ensures Evaluates(o, at, p, e, n, lay, st, r)
  {
    assert o.code[at + 0] == EmitExpr(e, n).instrs[0];
    r := ChainConst(o, at, p, n, e.ty, e.value);
    Completes(o, at, p, p, n, e, n, lay, st, r);
  }

  lemma SimVar(o: Origin, at: nat, p: Reached, e: TExpr, n: nat, lay: Layout, st: Meaning.Store) returns (r: Reached)
    requires e.TVar? && Ready(o, at, p, e, n, lay, st)
    ensures Evaluates(o, at, p, e, n, lay, st, r)
  {
    var i := EmitExpr(e, n).instrs;
    assert o.code[at + 0] == i[0] && o.code[at + 1] == i[1];
    var q := ChainAddress(o, at, p, n, e.id, st, lay);
    WroteKeeps(st, lay, n, n + 1, p.regs, p, n, Address(e.id), q);
    r := ChainLoad(o, at + 1, q, n + 1, e.ty, n, e.id, st, lay);
    Completes(o, at, p, q, n + 1, e, n, lay, st, r);
  }

  lemma SimCast(o: Origin, at: nat, p: Reached, e: TExpr, n: nat, lay: Layout, st: Meaning.Store) returns (r: Reached)
    requires e.TCast? && Ready(o, at, p, e, n, lay, st)
    ensures Evaluates(o, at, p, e, n, lay, st, r)
    decreases e, 0
  {
    var c := EmitExpr(e.e, n);
    var last := [Convert(c.next, e.to, c.res, TypeOf(e.e))];
    AtAppend(o.code, at, c.instrs, last);
    assert o.code[at + |c.instrs| + 0] == last[0];
    var q := SimExpr(o, at, p, e.e, n, lay, st);
    r := ChainConvert(o, at + |c.instrs|, q, c.next, e.to, c.res, TypeOf(e.e), Eval(Low(e.e), st).value.v);
    Completes(o, at, p, q, c.next, e, n, lay, st, r);
  }

  /** Both operands evaluated, the left one first. */
  ghost predicate BothDone(o: Origin, at: nat, p: Reached, x: TExpr, y: TExpr, n: nat, lay: Layout, st: Meaning.Store,
                           r: Reached)
  {
    var c := EmitExpr(x, n);
    var d := EmitExpr(y, c.next);
    Eval(Low(x), st).Some? && Eval(Low(y), Eval(Low(x), st).value.st).Some?
    && Yields(o, at + |c.instrs| + |d.instrs|, p, d.res, TypeOf(y), n, d.next, lay,
    Eval(Low(y), Eval(Low(x), st).value.st).value,
    r)
    && T(c.res) in r.regs && r.regs[T(c.res)] == Enc(TypeOf(x), Eval(Low(x), st).value.v)
    && InRange(TypeOf(x), Eval(Low(x), st).value.v)
  }

  lemma Both(o: Origin, at: nat, p: Reached, e: TExpr, x: TExpr, y: TExpr, last: seq<Instr>, n: nat, lay: Layout,
             st: Meaning.Store)
    returns (r: Reached)
    requires x < e && y < e
    requires UniqueLabels(o.code) && Reaches(o, at, p) && Match(st, lay, p.regs, p.mem)
    requires WellTyped(x, lay) && WellTyped(y, lay)
    requires Eval(Low(x), st).Some? && Eval(Low(y), Eval(Low(x), st).value.st).Some?
    requires At(o.code, at, EmitExpr(x, n).instrs + (EmitExpr(y, EmitExpr(x, n).next).instrs + last))
    ensures BothDone(o, at, p, x, y, n, lay, st, r)
    ensures At(o.code, at + |EmitExpr(x, n).instrs| + |EmitExpr(y, EmitExpr(x, n).next).instrs|, last)
    decreases e, 0
  {
    hide EmitExpr, Eval, WellTyped, Typed.TypeOf;
    var c := EmitExpr(x, n);
    var d := EmitExpr(y, c.next);
    AtAppend(o.code, at, c.instrs, d.instrs + last);
    AtAppend(o.code, at + |c.instrs|, d.instrs, last);
    var q := SimExpr(o, at, p, x, n, lay, st);
    r := SimExpr(o, at + |c.instrs|, q, y, c.next, lay, Eval(Low(x), st).value.st);
    Survives(c.res, c.next, d.next, q.regs, r.regs);
    FrameTrans(n, c.next, c.next, d.next, p.regs, q.regs, r.regs);
  }

  lemma SimArith(o: Origin, at: nat, p: Reached, e: TExpr, n: nat, lay: Layout, st: Meaning.Store) returns (r: Reached)
    requires e.TArith? && Ready(o, at, p, e, n, lay, st)
    ensures Evaluates(o, at, p, e, n, lay, st, r)
    decreases e, 1
  {
    hide Eval, Low, Arith, Enc, Match, Reaches, Frame, UniqueLabels;
    ArithMeaning(e, st);
    MatchStore(st, lay, p.regs, p.mem);
    var c := EmitExpr(e.l, n);
    var d := EmitExpr(e.r, c.next);
    var x := Eval(Low(e.l), st).value;
    var last := [Bin(T(d.next), TypeOf(e.l), e.op, T(c.res), T(d.res))];
    var q := Both(o, at, p, e, e.l, e.r, last, n, lay, st);
    var m := at + |c.instrs| + |d.instrs|;
    assert o.code[m + 0] == last[0];
    r := ChainBin(o, m, q, d.next, e.op, TypeOf(e.l), c.res, x.v, d.res, TypeOf(e.r), Eval(Low(e.r), x.st).value.v,
      Eval(Low(e), st).value.v);
    Completes(o, at, p, q, d.next, e, n, lay, st, r);
  }

  lemma SimCompare(o: Origin, at: nat, p: Reached, e: TExpr, n: nat, lay: Layout, st: Meaning.Store)
    returns (r: Reached)
    requires e.TCompare? && Ready(o, at, p, e, n, lay, st)
    ensures Evaluates(o, at, p, e, n, lay, st, r)
    decreases e, 1
  {
    hide Enc, Match, Reaches, Frame, UniqueLabels;
    MatchStore(st, lay, p.regs, p.mem);
    LowTypes(e.l);
    var c := EmitExpr(e.l, n);
    var d := EmitExpr(e.r, c.next);
    var x := Eval(Low(e.l), st).value;
    var last := [Cmp(T(d.next), e.cmp, TypeOf(e.l), T(c.res), T(d.res))];
    var q := Both(o, at, p, e, e.l, e.r, last, n, lay, st);
    var m := at + |c.instrs| + |d.instrs|;
    assert o.code[m + 0] == last[0];
    r := ChainCmp(o, m, q, d.next, e.cmp, TypeOf(e.l), c.res, x.v, d.res, Eval(Low(e.r), x.st).value.v);
    Completes(o, at, p, q, d.next, e, n, lay, st, r);
  }

  lemma SimComma(o: Origin, at: nat, p: Reached, e: TExpr, n: nat, lay: Layout, st: Meaning.Store) returns (r: Reached)
    requires e.TComma? && Ready(o, at, p, e, n, lay, st)
    ensures Evaluates(o, at, p, e, n, lay, st, r)
    decreases e, 1
  {
    var d := EmitExpr(e.r, EmitExpr(e.l, n).next);
    assert d.instrs + [] == d.instrs;
    r := Both(o, at, p, e, e.l, e.r, [], n, lay, st);
  }

  lemma SimLogic(o: Origin, at: nat, p: Reached, e: TExpr, n: nat, lay: Layout, st: Meaning.Store) returns (r: Reached)
    requires e.TLogic? && Ready(o, at, p, e, n, lay, st)
    ensures Evaluates(o, at, p, e, n, lay, st, r)
    decreases e, 1
  {
    var c := EmitExpr(e.l, n + 2);
    var d := EmitExpr(e.r, c.next);
    assert EmitExpr(e, n) == LogicCode(e.isAnd, n, c, d);
    LogicMeaning(e, st);
    r := SimLogicCode(o, at, p, e, c, d, n, lay, st, Eval(Low(e), st).value);
  }

  /** The left operand, the test, and the right operand when it is needed. */
  lemma SimLogicCode(o: Origin, at: nat, p: Reached, e: TExpr, c: Code, d: Code, n: nat, lay: Layout, st: Meaning.Store,
                     z: Evaluated)
    returns (r: Reached)
    requires e.TLogic? && c == EmitExpr(e.l, n + 2) && d == EmitExpr(e.r, c.next)
    requires At(o.code, at, LogicCode(e.isAnd, n, c, d).instrs)
    requires UniqueLabels(o.code) && Reaches(o, at, p) && Match(st, lay, p.regs, p.mem)
    requires WellTyped(e.l, lay) && WellTyped(e.r, lay)
    requires Eval(Low(e.l), st).Some?
    requires
      var x := Eval(Low(e.l), st).value;
      if (Seen(TypeOf(e.l), x.v) != 0) != e.isAnd then z == Evaluated(Truth(!e.isAnd), x.st)
      else
        Eval(Low(e.r), x.st).Some?
        && var y := Eval(Low(e.r), x.st).value; z == Evaluated(Truth(Seen(TypeOf(e.r), y.v) != 0), y.st)
    ensures Yields(o, at + |c.instrs| + 3 + |d.instrs| + 3, p, n + 1, Int, n, d.next + 1, lay, z, r)
    decreases e, 0
  {
    hide EmitExpr, Eval, Low, Seen, WellTyped, Typed.TypeOf, Enc, At, Match, UniqueLabels, Frame, Reaches;
    var x := Eval(Low(e.l), st).value;
    var (tx, ty) := (TypeOf(e.l), TypeOf(e.r));
    LogicLayout(o.code, at, e.isAnd, n, c, d);
    var m := at + |c.instrs|;
    var q0 := SimExpr(o, at, p, e.l, n + 2, lay, st);
    var q := ChainConst(o, m, q0, n + 1, Int, Truth(!e.isAnd));
    Widen(n + 2, n, c.next, c.next, p.regs, q0.regs);
    WroteKeeps(x.st, lay, n, c.next, p.regs, q0, n + 1, Enc(Int, Truth(!e.isAnd)), q);
    if (Seen(tx, x.v) != 0) != e.isAnd {
      r := ChainJnz(o, m + 1, q, c.res, tx, x.v, m + 3 + |d.instrs| + 2);
      Widen(n, n, c.next, d.next + 1, p.regs, q.regs);
    } else {
      q := ChainJnz(o, m + 1, q, c.res, tx, x.v, m + 2);
      q0 := SimExpr(o, m + 3, q, e.r, c.next, lay, x.st);
      FrameTrans(n, c.next, c.next, d.next, p.regs, q.regs, q0.regs);
      r := Normalise(o, m + 3 + |d.instrs|, q0, n, d, ty, Eval(Low(e.r), x.st).value, lay, p.regs);
    }
  }

  lemma LogicLayout(code: seq<Instr>, at: nat, isAnd: bool, n: nat, c: Code, d: Code)
    requires At(code, at, LogicCode(isAnd, n, c, d).instrs)
    ensures
      var m := at + |c.instrs|;
      At(code, at, c.instrs) && At(code, m + 3, d.instrs) && At(code, m + 3 + |d.instrs|, LogicEnd(n, d))
      && m + 3 + |d.instrs| + 3 <= |code|
      && code[m] == LogicTest(isAnd, n, c.res)[0] && code[m + 1] == LogicTest(isAnd, n, c.res)[1]
      && code[m + 2] == LogicTest(isAnd, n, c.res)[2] && code[m + 3 + |d.instrs| + 2] == LogicEnd(n, d)[2]
  {
    var mid, last := LogicTest(isAnd, n, c.res), LogicEnd(n, d);
    var m := at + |c.instrs|;
    AtAppend(code, at, c.instrs, mid + (d.instrs + last));
    AtAppend(code, m, mid, d.instrs + last);
    AtAppend(code, m + 3, d.instrs, last);
    assert code[m + 0] == mid[0] && code[m + 1] == mid[1] && code[m + 2] == mid[2];
    assert code[m + 3 + |d.instrs| + 2] == last[2];
  }

  /** The right operand's value becomes 0 or 1. */
  lemma Normalise(o: Origin, at: nat, p: Reached, n: nat, d: Code, ty: Ty, y: Evaluated, lay: Layout, regs: Regs)
    returns (r: Reached)
    requires At(o.code, at, LogicEnd(n, d)) && Reaches(o, at, p)
    requires Match(y.st, lay, p.regs, p.mem) && Frame(n, d.next, regs, p.regs) && n + 1 < d.next
    requires T(d.res) in p.regs && p.regs[T(d.res)] == Enc(ty, y.v) && InRange(ty, y.v)
    ensures Reaches(o, at + 3, r) && r.k > p.k
    ensures Match(y.st, lay, r.regs, r.mem) && Frame(n, d.next + 1, regs, r.regs)
    ensures T(n + 1) in r.regs && r.regs[T(n + 1)] == Enc(Int, Truth(Seen(ty, y.v) != 0))
  {
    hide Seen;
    var last := LogicEnd(n, d);
    assert o.code[at + 0] == last[0] && o.code[at + 1] == last[1] && o.code[at + 2] == last[2];
    Widen(n, n, d.next, d.next + 1, regs, p.regs);
    var q := ChainCnew(o, at, p, d.next, d.res, ty, y.v);
    WroteKeeps(y.st, lay, n, d.next + 1, regs, p, d.next, Enc(Int, Truth(Seen(ty, y.v) != 0)), q);
    r := ChainCopy(o, at + 1, q, n + 1, Int, d.next, Truth(Seen(ty, y.v) != 0));
    WroteKeeps(y.st, lay, n, d.next + 1, regs, q, n + 1, Enc(Int, Truth(Seen(ty, y.v) != 0)), r);
    r := ChainMark(o, at + 2, r);
  }

  /** The address copy an assignment starts with, then its right-hand side. */
  lemma SimRhs(o: Origin, at: nat, p: Reached, id: nat, rhs: TExpr, last: seq<Instr>, n: nat, lay: Layout,
               st: Meaning.Store)
    returns (r: Reached)
    requires UniqueLabels(o.code) && Reaches(o, at, p) && Match(st, lay, p.regs, p.mem) && id < |lay|
    requires WellTyped(rhs, lay) && Eval(Low(rhs), st).Some?
    requires At(o.code, at, AddressOf(n, id) + (EmitExpr(rhs, n + 1).instrs + last))
    ensures var c := EmitExpr(rhs, n + 1);
      Yields(o, at + 1 + |c.instrs|, p, c.res, TypeOf(rhs), n, c.next, lay, Eval(Low(rhs), st).value, r)
      && At(o.code, at + 1 + |c.instrs|, last)
    ensures T(n) in r.regs && r.regs[T(n)] == Address(id)
    decreases rhs, 3
  {
    hide EmitExpr, Eval, WellTyped, Typed.TypeOf, Enc, Match, UniqueLabels, Frame, Reaches;
    var c := EmitExpr(rhs, n + 1);
    AtAppend(o.code, at, AddressOf(n, id), c.instrs + last);
    AtAppend(o.code, at + 1, c.instrs, last);
    assert o.code[at + 0] == AddressOf(n, id)[0];
    var q := ChainAddress(o, at, p, n, id, st, lay);
    FrameSame(n, n + 1, p.regs);
    WroteKeeps(st, lay, n, n + 1, p.regs, p, n, Address(id), q);
    r := SimExpr(o, at + 1, q, rhs, n + 1, lay, st);
    Survives(n, n + 1, c.next, q.regs, r.regs);
    FrameTrans(n, n + 1, n + 1, c.next, p.regs, q.regs, r.regs);
  }

  lemma SimAssign(o: Origin, at: nat, p: Reached, e: TExpr, n: nat, lay: Layout, st: Meaning.Store) returns (r: Reached)
    requires e.TAssign? && e.aop.None? && Ready(o, at, p, e, n, lay, st)
    ensures Evaluates(o, at, p, e, n, lay, st, r)
    decreases e, 0
  {
    var c := EmitExpr(e.rhs, n + 1);
    var last := AssignEnd(e.ty, n, c);
    var v := Eval(Low(e.rhs), st).value;
    var q := SimRhs(o, at, p, e.id, e.rhs, last, n, lay, st);
    assert o.code[at + 1 + |c.instrs| + 0] == last[0];
    r := ChainStore(o, at + 1 + |c.instrs|, q, e.ty, c.res, v.v, n, e.id, v.st, lay);
  }

  lemma SimCompound(o: Origin, at: nat, p: Reached, e: TExpr, n: nat, lay: Layout, st: Meaning.Store)
    returns (r: Reached)
    requires e.TAssign? && e.aop.Some? && Ready(o, at, p, e, n, lay, st)
    ensures Evaluates(o, at, p, e, n, lay, st, r)
    decreases e, 0
  {
    hide Match, Frame, Reaches, UniqueLabels, Enc, At, Arith, InRange, Eval, Low;
    CompoundMeaning(e, st);
    var c := EmitExpr(e.rhs, n + 1);
    var v := Eval(Low(e.rhs), st).value;
    var q := SimRhs(o, at, p, e.id, e.rhs, CompoundEnd(e.aop.value, e.ty, n, c), n, lay, st);
    MatchStore(st, lay, p.regs, p.mem);
    LowTyped(e, lay);
    EvalInRange(Low(e), st, lay);
    var w := Eval(Low(e), st).value.v;
    r := SimCompoundCode(o, at + 1 + |c.instrs|, q, e.aop.value, e.ty, n, c, e.id, v, w, lay, p.regs);
  }

  /** Load the old value, combine it with the right-hand side, store. */
  lemma SimCompoundCode(o: Origin, at: nat, p: Reached, op: ArithOp, ty: Ty, n: nat, c: Code, id: nat, v: Evaluated,
                        w: int, lay: Layout, regs: Regs)
    returns (r: Reached)
    requires Reaches(o, at, p) && At(o.code, at, CompoundEnd(op, ty, n, c))
    requires Match(v.st, lay, p.regs, p.mem) && HasLocal(lay, id, ty) && id in v.st
    requires T(c.res) in p.regs && p.regs[T(c.res)] == Enc(ty, v.v) && InRange(ty, v.v)
    requires T(n) in p.regs && p.regs[T(n)] == Address(id) && n < c.next && c.res < c.next
    requires Frame(n, c.next, regs, p.regs)
    requires Arith(op, ty, v.st[id], v.v) == Some(w) && InRange(ty, w)
    ensures Yields(o, at + 3, p, c.next + 1, ty, n, c.next + 2, lay, Evaluated(w, v.st[id := w]), r)
    ensures Frame(n, c.next + 2, regs, r.regs)
  {
    var last := CompoundEnd(op, ty, n, c);
    assert o.code[at + 0] == last[0] && o.code[at + 1] == last[1] && o.code[at + 2] == last[2];
    Widen(n, n, c.next, c.next + 2, regs, p.regs);
    var q := ChainLoad(o, at, p, c.next, ty, n, id, v.st, lay);
    WroteKeeps(v.st, lay, n, c.next + 2, regs, p, c.next, Enc(ty, v.st[id]), q);
    WroteKeeps(v.st, lay, n, c.next + 2, p.regs, p, c.next, Enc(ty, v.st[id]), q);
    var s := ChainBin(o, at + 1, q, c.next + 1, op, ty, c.next, v.st[id], c.res, ty, v.v, w);
    WroteKeeps(v.st, lay, n, c.next + 2, regs, q, c.next + 1, Enc(ty, w), s);
    WroteKeeps(v.st, lay, n, c.next + 2, p.regs, q, c.next + 1, Enc(ty, w), s);
    r := ChainStore(o, at + 2, s, ty, c.next + 1, w, n, id, v.st, lay);
  }

  lemma SimPostfix(o: Origin, at: nat, p: Reached, e: TExpr, n: nat, lay: Layout, st: Meaning.Store)
    returns (r: Reached)
    requires e.TPostfix? && Ready(o, at, p, e, n, lay, st)
    ensures Evaluates(o, at, p, e, n, lay, st, r)
  {
    hide Match, Frame, Reaches, UniqueLabels, Enc, Wrap, InRange;
    var i := EmitExpr(e, n).instrs;
    assert o.code[at + 0] == i[0] && o.code[at + 1] == i[1] && o.code[at + 2] == i[2] && o.code[at + 3] == i[3]
      && o.code[at + 4] == i[4];
    r := SimPostfixCode(o, at, p, n, e.id, e.ty, e.inc, lay, st);
  }

  lemma SimPostfixCode(o: Origin, at: nat, p: Reached, n: nat, id: nat, ty: Ty, inc: bool, lay: Layout,
                       st: Meaning.Store) returns (r: Reached)
    requires Reaches(o, at, p) && Match(st, lay, p.regs, p.mem) && HasLocal(lay, id, ty) && id in st
    requires at + 5 <= |o.code| && o.code[at] == Copy(T(n), Long, V(id)) && o.code[at + 1] == Load(T(n + 1), ty, T(n))
    requires o.code[at + 2] == Const(T(n + 2), ty, 1)
    requires o.code[at + 3] == Bin(T(n + 3), ty, if inc then Add else Sub, T(n + 1), T(n + 2))
    requires o.code[at + 4] == Il.Store(ty, T(n + 3), T(n))
    ensures var w := Wrap(ty, if inc then st[id] + 1 else st[id] - 1);
      Yields(o, at + 5, p, n + 1, ty, n, n + 4, lay, Evaluated(st[id], st[id := w]), r)
  {
    hide Bits, Signed, Bitwise, Halve, TruncDiv, TruncRem, Enc, Wrap, Match, Frame, Reaches;
    var cur := st[id];
    LocalInRange(st, lay, p.regs, p.mem, id, ty);
    FrameSame(n, n + 4, p.regs);
    var w := Wrap(ty, if inc then cur + 1 else cur - 1);
    WrapFacts(ty, if inc then cur + 1 else cur - 1);
    var p0 := ChainAddress(o, at, p, n, id, st, lay);
    WroteKeeps(st, lay, n, n + 4, p.regs, p, n, Address(id), p0);
    var p1 := ChainLoad(o, at + 1, p0, n + 1, ty, n, id, st, lay);
    WroteKeeps(st, lay, n, n + 4, p.regs, p0, n + 1, Enc(ty, cur), p1);
    var p2 := ChainConst(o, at + 2, p1, n + 2, ty, 1);
    WroteKeeps(st, lay, n, n + 4, p.regs, p1, n + 2, Enc(ty, 1), p2);
    var p3 := ChainBin(o, at + 3, p2, n + 3, if inc then Add else Sub, ty, n + 1, cur, n + 2, ty, 1, w);
    WroteKeeps(st, lay, n, n + 4, p.regs, p2, n + 3, Enc(ty, w), p3);
    r := ChainStore(o, at + 4, p3, ty, n + 3, w, n, id, st, lay);
  }

  lemma SimCond(o: Origin, at: nat, p: Reached, e: TExpr, n: nat, lay: Layout, st: Meaning.Store) returns (r: Reached)
    requires e.TCond? && Ready(o, at, p, e, n, lay, st)
    ensures Evaluates(o, at, p, e, n, lay, st, r)
    decreases e, 1
  {
    hide Match, Frame, Reaches, UniqueLabels, Enc, At, InRange, Wrap, Arith, Eval, Low, Seen;
    CondMeaning(e, st);
    var x := EmitExpr(e.c, n);
    var y := EmitExpr(e.a, x.next + 2);
    var z := EmitExpr(e.b, y.next);
    var v := Eval(Low(e.c), st).value;
    assert EmitExpr(e, n) == CondCode(x, y, z, e.ty);
    r := SimCondCode(o, at, p, e, x, y, z, n, lay, st, v, Eval(Low(e), st).value);
  }

  /** The test of `?:` and the arm it selects. */
  lemma SimCondCode(o: Origin, at: nat, p: Reached, e: TExpr, x: Code, y: Code, z: Code, n: nat, lay: Layout,
                 st: Meaning.Store,
                 v: Evaluated, w: Evaluated) returns (r: Reached)
    requires e.TCond? && x == EmitExpr(e.c, n) && y == EmitExpr(e.a, x.next + 2) && z == EmitExpr(e.b, y.next)
    requires At(o.code, at, CondCode(x, y, z, e.ty).instrs)
    requires UniqueLabels(o.code) && Reaches(o, at, p) && Match(st, lay, p.regs, p.mem)
    requires WellTyped(e.c, lay)
    requires WellTyped(e.a, lay) && TypeOf(e.a) == e.ty
    requires WellTyped(e.b, lay) && TypeOf(e.b) == e.ty
    requires Eval(Low(e.c), st) == Some(v)
      && Eval(Low(if Seen(TypeOf(e.c), v.v) != 0 then e.a else e.b), v.st) == Some(w)
    ensures Yields(o, at + |x.instrs| + |y.instrs| + |z.instrs| + 7, p, x.next + 1, e.ty, n, z.next, lay, w, r)
    decreases e, 0
  {
    hide EmitExpr, Eval, Low, Seen, WellTyped, Typed.TypeOf, Enc, At, Match, UniqueLabels, Frame, Reaches;
    CondLayout(o.code, at, x, y, z, e.ty);
    var j := at + |x.instrs|;
    var k := j + 2 + |y.instrs|;
    var m := k + 3 + |z.instrs|;
    var q := SimExpr(o, at, p, e.c, n, lay, st);
    if Seen(TypeOf(e.c), v.v) != 0 {
      q := ChainJnz(o, j, q, x.res, TypeOf(e.c), v.v, j + 1);
      var q' := SimExpr(o, j + 2, q, e.a, x.next + 2, lay, v.st);
      q' := Arm(o, k, p, q, q', e.ty, x.next + 1, y, w, lay, n, x.next + 2, x.next);
      r := ChainJmp(o, k + 1, q', m + 1);
      Widen(n, n, y.next, z.next, p.regs, r.regs);
    } else {
      q := ChainJnz(o, j, q, x.res, TypeOf(e.c), v.v, k + 2);
      var q' := SimExpr(o, k + 3, q, e.b, y.next, lay, v.st);
      q' := Arm(o, m, p, q, q', e.ty, x.next + 1, z, w, lay, n, y.next, x.next);
      r := ChainMark(o, m + 1, q');
    }
  }

  lemma CondLayout(code: seq<Instr>, at: nat, x: Code, y: Code, z: Code, ty: Ty)
    requires At(code, at, CondCode(x, y, z, ty).instrs)
    ensures
      var j := at + |x.instrs|;
      var k := j + 2 + |y.instrs|;
      var m := k + 3 + |z.instrs|;
      At(code, at, x.instrs) && At(code, j + 2, y.instrs) && At(code, k + 3, z.instrs) && m + 2 <= |code|
      && code[j] == CondTest(x)[0] && code[j + 1] == CondTest(x)[1]
      && code[k] == CondMiddle(x, y, ty)[0] && code[k + 1] == CondMiddle(x, y, ty)[1]
      && code[k + 2] == CondMiddle(x, y, ty)[2]
      && code[m] == CondLast(x, z, ty)[0] && code[m + 1] == CondLast(x, z, ty)[1]
  {
    var i0, i1, i2 := CondTest(x), CondMiddle(x, y, ty), CondLast(x, z, ty);
    var j := at + |x.instrs|;
    var k := j + 2 + |y.instrs|;
    var m := k + 3 + |z.instrs|;
    AtAppend(code, at, x.instrs, i0 + (y.instrs + (i1 + (z.instrs + i2))));
    AtAppend(code, j, i0, y.instrs + (i1 + (z.instrs + i2)));
    AtAppend(code, j + 2, y.instrs, i1 + (z.instrs + i2));
    AtAppend(code, k, i1, z.instrs + i2);
    AtAppend(code, k + 3, z.instrs, i2);
    assert code[j + 0] == i0[0] && code[j + 1] == i0[1] && code[k + 0] == i1[0] && code[k + 1] == i1[1]
      && code[k + 2] == i1[2];
    assert code[m + 0] == i2[0] && code[m + 1] == i2[1];
  }

  /** The copy of an arm's value to the result of `?:`. */
  lemma Arm(o: Origin, at: nat, p: Reached, q: Reached, q': Reached, ty: Ty, t: nat, c: Code, u: Evaluated, lay: Layout,
            n: nat, lo: nat, mid: nat) returns (r: Reached)
    requires Yields(o, at, q, c.res, ty, lo, c.next, lay, u, q') && Frame(n, mid, p.regs, q.regs) && p.k <= q.k
    requires n <= mid <= t < lo <= c.next
    requires at < |o.code| && o.code[at] == Copy(T(t), ty, T(c.res))
    ensures Yields(o, at + 1, p, t, ty, n, c.next, lay, u, r)
  {
    r := ChainCopy(o, at, q', t, ty, c.res, u.v);
    FrameTrans(n, mid, lo, c.next, p.regs, q.regs, q'.regs);
    WroteKeeps(u.st, lay, n, c.next, p.regs, q', t, Enc(ty, u.v), r);
  }
}
