/** Labels and jumps of the emitted code: every label is unique, and when every jump target exists. */
module Labels {
  import opened Options
  import opened Words
  import opened Typed
  import opened Il
  import opened Codegen

  ghost function MarkOf(i: Instr): set<Lbl> { if i.Mark? then {i.l} else {} }

  ghost function JumpsOf(i: Instr): set<Lbl> {
    match i
    case Jmp(l) => {l}
    case Jnz(_, t, e) => {t, e}
    case _ => {}
  }

  /** The labels a piece of code defines. */
  ghost function LabelsOf(code: seq<Instr>): set<Lbl> {
    if code == [] then {} else MarkOf(code[0]) + LabelsOf(code[1..])
  }

  /** The labels it jumps to. */
  ghost function TargetsOf(code: seq<Instr>): set<Lbl> {
    if code == [] then {} else JumpsOf(code[0]) + TargetsOf(code[1..])
  }

  /** No label is defined twice. */
  ghost predicate Distinct(code: seq<Instr>) {
    code == [] || (MarkOf(code[0]) !! LabelsOf(code[1..]) && Distinct(code[1..]))
  }

  lemma {:induction false} Append(x: seq<Instr>, y: seq<Instr>)
    ensures LabelsOf(x + y) == LabelsOf(x) + LabelsOf(y)
    ensures TargetsOf(x + y) == TargetsOf(x) + TargetsOf(y)
    ensures Distinct(x + y) <==> Distinct(x) && Distinct(y) && LabelsOf(x) !! LabelsOf(y)
  {
    if x == [] {
      assert x + y == y;
    } else {
      assert (x + y)[1..] == x[1..] + y;
      Append(x[1..], y);
    }
  }

  lemma {:induction false} InLabels(code: seq<Instr>, i: nat)
    requires i < |code| && code[i].Mark?
    ensures code[i].l in LabelsOf(code)
  {
    if i > 0 { InLabels(code[1..], i - 1); }
  }

  lemma {:induction false} DistinctUnique(code: seq<Instr>)
    requires Distinct(code)
    ensures UniqueLabels(code)
  {
    if code != [] {
      DistinctUnique(code[1..]);
      forall i, j | 0 <= i < j < |code| && code[i].Mark? && code[j].Mark? ensures code[i].l != code[j].l {
        if i == 0 {
          InLabels(code[1..], j - 1);
        } else {
          assert code[1..][i - 1].l != code[1..][j - 1].l;
        }
      }
    }
  }

  lemma Short1(a: Instr)
    ensures LabelsOf([a]) == MarkOf(a) && TargetsOf([a]) == JumpsOf(a) && Distinct([a])
  {
    assert [a][1..] == [];
  }

  lemma Short2(a: Instr, b: Instr)
    requires !a.Mark? || !b.Mark?
    ensures LabelsOf([a, b]) == MarkOf(a) + MarkOf(b) && TargetsOf([a, b]) == JumpsOf(a) + JumpsOf(b)
      && Distinct([a, b])
  {
    Short1(a);
    Short1(b);
    assert [a, b] == [a] + [b];
    Append([a], [b]);
  }

  lemma Short3(a: Instr, b: Instr, c: Instr)
    requires !a.Mark? && !b.Mark?
    ensures LabelsOf([a, b, c]) == MarkOf(c) && TargetsOf([a, b, c]) == JumpsOf(a) + JumpsOf(b) + JumpsOf(c)
      && Distinct([a, b, c])
  {
    Short2(a, b);
    Short1(c);
    assert [a, b, c] == [a, b] + [c];
    Append([a, b], [c]);
  }

  /** Labels numbered from `lo` up to `hi`. */
  ghost predicate Numbered(ls: set<Lbl>, lo: nat, hi: nat) {
    forall l :: l in ls ==> lo <= l.id < hi && l.kind != Start
  }

  /** Expression code: distinct labels from its own span, and no jump leaves it. */
  ghost predicate Closed(c: seq<Instr>, lo: nat, hi: nat) {
    Distinct(c) && Numbered(LabelsOf(c), lo, hi) && TargetsOf(c) <= LabelsOf(c)
  }

  lemma ClosedAppend(x: seq<Instr>, y: seq<Instr>, lo: nat, mid: nat, hi: nat)
    requires Closed(x, lo, mid) && Closed(y, mid, hi) && lo <= mid <= hi
    ensures Closed(x + y, lo, hi)
  {
    hide LabelsOf, TargetsOf, Distinct;
    Append(x, y);
  }

  /** Code with neither labels nor jumps. */
  ghost predicate Straight(c: seq<Instr>) {
    LabelsOf(c) == {} && TargetsOf(c) == {} && Distinct(c)
  }

  lemma {:induction false} StraightLine(c: seq<Instr>)
    requires forall i :: 0 <= i < |c| ==> !c[i].Mark? && !c[i].Jmp? && !c[i].Jnz?
    ensures Straight(c)
  {
    if c != [] { StraightLine(c[1..]); }
  }

  lemma Around(x: seq<Instr>, c: seq<Instr>, y: seq<Instr>, lo: nat, hi: nat, lo': nat, hi': nat)
    requires forall i :: 0 <= i < |x| ==> !x[i].Mark? && !x[i].Jmp? && !x[i].Jnz?
    requires forall i :: 0 <= i < |y| ==> !y[i].Mark? && !y[i].Jmp? && !y[i].Jnz?
    requires Closed(c, lo', hi') && lo <= lo' && hi' <= hi
    ensures Closed(x + (c + y), lo, hi)
  {
    hide LabelsOf, TargetsOf, Distinct;
    StraightLine(x);
    StraightLine(y);
    Append(c, y);
    Append(x, c + y);
  }

  lemma After(c: seq<Instr>, i: Instr, lo: nat, hi: nat, hi': nat)
    requires !i.Mark? && !i.Jmp? && !i.Jnz? && Closed(c, lo, hi') && hi' <= hi
    ensures Closed(c + [i], lo, hi)
  {
    Around([], c, [i], lo, hi, lo, hi');
    assert [] + (c + [i]) == c + [i];
  }

  ghost predicate SelfContained(c: Code, n: nat) { n < c.next && Closed(c.instrs, n, c.next) }

  /** Expression code is self-contained. */
  lemma {:induction false} ExprClosed(e: TExpr, n: nat)
    ensures SelfContained(EmitExpr(e, n), n)
  {
    hide SelfContained, CastCode, ArithCode, CompareCode, LogicCode, AssignCode, CompoundCode, PostfixCode, CondCode,
      CommaCode;
    match e
    case TLit(_, _) => AloneClosed(EmitExpr(e, n), n);
    case TVar(_, _) => AloneClosed(EmitExpr(e, n), n);
    case TPostfix(inc, id, ty) => PostfixClosed(inc, n, id, ty);
    case TCast(x, to) =>
      ExprClosed(x, n);
      CastClosed(EmitExpr(x, n), to, TypeOf(x), n);
    case TArith(op, l, r) =>
      var c := EmitExpr(l, n);
      ExprClosed(l, n);
      ExprClosed(r, c.next);
      ArithClosed(op, TypeOf(l), c, EmitExpr(r, c.next), n);
    case TCompare(cmp, l, r) =>
      var c := EmitExpr(l, n);
      ExprClosed(l, n);
      ExprClosed(r, c.next);
      CompareClosed(cmp, TypeOf(l), c, EmitExpr(r, c.next), n);
    case TLogic(isAnd, l, r) =>
      var c := EmitExpr(l, n + 2);
      ExprClosed(l, n + 2);
      ExprClosed(r, c.next);
      LogicClosed(isAnd, n, c, EmitExpr(r, c.next));
    case TAssign(aop, id, ty, rhs) =>
      ExprClosed(rhs, n + 1);
      AssignClosed(aop, id, ty, EmitExpr(rhs, n + 1), n);
    case TCond(c, a, b, ty) =>
      var x := EmitExpr(c, n);
      var y := EmitExpr(a, x.next + 2);
      ExprClosed(c, n);
      ExprClosed(a, x.next + 2);
      ExprClosed(b, y.next);
      CondClosed(n, x, y, EmitExpr(b, y.next), ty);
    case TComma(l, r) =>
      var c := EmitExpr(l, n);
      ExprClosed(l, n);
      ExprClosed(r, c.next);
      CommaClosed(c, EmitExpr(r, c.next), n);
  }

  lemma AloneClosed(c: Code, n: nat)
    requires n < c.next && forall i :: 0 <= i < |c.instrs| ==>
      !c.instrs[i].Mark? && !c.instrs[i].Jmp? && !c.instrs[i].Jnz?
    ensures SelfContained(c, n)
  {
    StraightLine(c.instrs);
  }

  lemma PostfixClosed(inc: bool, n: nat, id: nat, ty: Ty)
    ensures SelfContained(PostfixCode(inc, n, id, ty), n)
  {
    AloneClosed(PostfixCode(inc, n, id, ty), n);
  }

  lemma CastClosed(c: Code, to: Ty, from: Ty, n: nat)
    requires SelfContained(c, n)
    ensures SelfContained(CastCode(c, to, from), n)
  {
    After(c.instrs, Convert(c.next, to, c.res, from), n, c.next + 1, c.next);
  }

  lemma BothClosed(c: Code, d: Code, i: Instr, n: nat)
    requires SelfContained(c, n) && SelfContained(d, c.next)
    requires !i.Mark? && !i.Jmp? && !i.Jnz?
    ensures Closed(c.instrs + (d.instrs + [i]), n, d.next + 1)
  {
    hide Closed;
    After(d.instrs, i, c.next, d.next + 1, d.next);
    ClosedAppend(c.instrs, d.instrs + [i], n, c.next, d.next + 1);
  }

  lemma ArithClosed(op: ArithOp, ty: Ty, c: Code, d: Code, n: nat)
    requires SelfContained(c, n) && SelfContained(d, c.next)
    ensures SelfContained(ArithCode(op, ty, c, d), n)
  {
    BothClosed(c, d, Bin(T(d.next), ty, op, T(c.res), T(d.res)), n);
  }

  lemma CompareClosed(cmp: CmpOp, ty: Ty, c: Code, d: Code, n: nat)
    requires SelfContained(c, n) && SelfContained(d, c.next)
    ensures SelfContained(CompareCode(cmp, ty, c, d), n)
  {
    BothClosed(c, d, Cmp(T(d.next), cmp, ty, T(c.res), T(d.res)), n);
  }

  lemma CommaClosed(c: Code, d: Code, n: nat)
    requires SelfContained(c, n) && SelfContained(d, c.next)
    ensures SelfContained(CommaCode(c, d), n)
  {
    ClosedAppend(c.instrs, d.instrs, n, c.next, d.next);
  }

  lemma AssignClosed(aop: Option<ArithOp>, id: nat, ty: Ty, c: Code, n: nat)
    requires SelfContained(c, n + 1)
    ensures aop.None? ==> SelfContained(AssignCode(n, id, ty, c), n)
    ensures aop.Some? ==> SelfContained(CompoundCode(aop.value, n, id, ty, c), n)
  {
    hide Closed;
    match aop
    case None => Around(AddressOf(n, id), c.instrs, AssignEnd(ty, n, c), n, c.next, n + 1, c.next);
    case Some(op) => Around(AddressOf(n, id), c.instrs, CompoundEnd(op, ty, n, c), n, c.next + 2, n + 1, c.next);
  }

  lemma LogicClosed(isAnd: bool, n: nat, a: Code, b: Code)
    requires SelfContained(a, n + 2) && SelfContained(b, a.next)
    ensures SelfContained(LogicCode(isAnd, n, a, b), n)
  {
    hide LabelsOf, TargetsOf, Distinct;
    var i, last := LogicTest(isAnd, n, a.res), LogicEnd(n, b);
    Short3(i[0], i[1], i[2]);
    Short3(last[0], last[1], last[2]);
    Append(b.instrs, last);
    Append(i, b.instrs + last);
    Append(a.instrs, i + (b.instrs + last));
  }

  lemma CondClosed(n: nat, x: Code, y: Code, z: Code, ty: Ty)
    requires SelfContained(x, n) && SelfContained(y, x.next + 2) && SelfContained(z, y.next)
    ensures SelfContained(CondCode(x, y, z, ty), n)
  {
    hide LabelsOf, TargetsOf, Distinct;
    var i0, i1, i2 := CondTest(x), CondMiddle(x, y, ty), CondLast(x, z, ty);
    Short2(i0[0], i0[1]);
    Short3(i1[0], i1[1], i1[2]);
    Short2(i2[0], i2[1]);
    Append(z.instrs, i2);
    Append(i1, z.instrs + i2);
    Append(y.instrs, i1 + (z.instrs + i2));
    Append(i0, y.instrs + (i1 + (z.instrs + i2)));
    Append(x.instrs, i0 + (y.instrs + (i1 + (z.instrs + i2))));
  }

  // ----- statements -----

  /** The labels and targets of a statement shape, given those of its parts. */
  ghost predicate Sums(c: seq<Instr>, lo: nat, hi: nat, ls: set<Lbl>, ts: set<Lbl>) {
    LabelsOf(c) == ls && TargetsOf(c) == ts && Distinct(c) && Numbered(ls, lo, hi)
  }

  ghost predicate Tame(c: seq<Instr>, lo: nat, hi: nat) { Distinct(c) && Numbered(LabelsOf(c), lo, hi) }

  lemma JumpUnlessSums(closed: bool, l: Lbl)
    ensures LabelsOf(JumpUnless(closed, l)) == {} && Distinct(JumpUnless(closed, l))
    ensures TargetsOf(JumpUnless(closed, l)) == if closed then {} else {l}
  {
    Short1(Jmp(l));
  }

  lemma IfSums(n: nat, x: Code, y: StmtCode)
    requires Tame(x.instrs, n, x.next) && Tame(y.instrs, x.next + 1, y.next) && n <= x.next < y.next
    ensures
      var id := x.next;
      Sums(IfCode(x, y).instrs, n, y.next, LabelsOf(x.instrs) + LabelsOf(y.instrs) + {Lbl(IfThen, id), Lbl(IfEnd, id)},
           TargetsOf(x.instrs) + TargetsOf(y.instrs) + {Lbl(IfThen, id), Lbl(IfEnd, id)})
  {
    hide LabelsOf, TargetsOf, Distinct;
    var i, last := IfTest(x, IfEnd), [Mark(Lbl(IfEnd, x.next))];
    Short2(i[0], i[1]);
    Short1(last[0]);
    Append(y.instrs, last);
    Append(i, y.instrs + last);
    Append(x.instrs, i + (y.instrs + last));
  }

  lemma IfElseSums(n: nat, x: Code, y: StmtCode, z: StmtCode, closed: bool)
    requires Tame(x.instrs, n, x.next) && Tame(y.instrs, x.next + 1, y.next) && Tame(z.instrs, y.next, z.next)
    requires n <= x.next < y.next <= z.next
    ensures
      var id := x.next;
      Sums(IfElseCode(x, y, z, closed).instrs, n, z.next,
           LabelsOf(x.instrs) + LabelsOf(y.instrs) + LabelsOf(z.instrs)
             + {Lbl(IfThen, id), Lbl(IfElse, id), Lbl(IfEnd, id)},
           TargetsOf(x.instrs) + TargetsOf(y.instrs) + TargetsOf(z.instrs) + {Lbl(IfThen, id), Lbl(IfElse, id)}
           + (if closed then {} else {Lbl(IfEnd, id)}))
  {
    hide LabelsOf, TargetsOf, Distinct;
    var i, jmp, els, last := IfTest(x, IfElse), JumpUnless(closed, Lbl(IfEnd, x.next)), [Mark(Lbl(IfElse, x.next))],
      [Mark(Lbl(IfEnd, x.next))];
    Short2(i[0], i[1]);
    JumpUnlessSums(closed, Lbl(IfEnd, x.next));
    Short1(els[0]);
    Short1(last[0]);
    Append(z.instrs, last);
    Append(els, z.instrs + last);
    Append(jmp, els + (z.instrs + last));
    Append(y.instrs, jmp + (els + (z.instrs + last)));
    Append(i, y.instrs + (jmp + (els + (z.instrs + last))));
    Append(x.instrs, i + (y.instrs + (jmp + (els + (z.instrs + last)))));
  }

  lemma WhileSums(n: nat, x: Code, y: StmtCode, closed: bool)
    requires Tame(x.instrs, n + 1, x.next) && Tame(y.instrs, x.next, y.next) && n < x.next <= y.next
    ensures
      Sums(WhileCode(n, x, y, closed).instrs, n, y.next,
           LabelsOf(x.instrs) + LabelsOf(y.instrs) + {Lbl(WhileCond, n), Lbl(WhileBody, n), Lbl(WhileEnd, n)},
           TargetsOf(x.instrs) + TargetsOf(y.instrs) + {Lbl(WhileBody, n), Lbl(WhileEnd, n)}
           + (if closed then {} else {Lbl(WhileCond, n)}))
  {
    hide LabelsOf, TargetsOf, Distinct;
    var top, i, jmp, last := [Mark(Lbl(WhileCond, n))], WhileTest(n, x), JumpUnless(closed, Lbl(WhileCond, n)),
      [Mark(Lbl(WhileEnd, n))];
    Short1(top[0]);
    Short2(i[0], i[1]);
    JumpUnlessSums(closed, Lbl(WhileCond, n));
    Short1(last[0]);
    Append(jmp, last);
    Append(y.instrs, jmp + last);
    Append(i, y.instrs + (jmp + last));
    Append(x.instrs, i + (y.instrs + (jmp + last)));
    Append(top, x.instrs + (i + (y.instrs + (jmp + last))));
  }

  lemma DoSums(n: nat, y: StmtCode, x: Code)
    requires Tame(y.instrs, n + 1, y.next) && Tame(x.instrs, y.next, x.next) && n < y.next <= x.next
    ensures
      Sums(DoCode(n, y, x).instrs, n, x.next,
           LabelsOf(y.instrs) + LabelsOf(x.instrs) + {Lbl(DoBody, n), Lbl(DoCond, n), Lbl(DoEnd, n)},
           TargetsOf(y.instrs) + TargetsOf(x.instrs) + {Lbl(DoBody, n), Lbl(DoEnd, n)})
  {
    hide LabelsOf, TargetsOf, Distinct;
    var top, mid, last := [Mark(Lbl(DoBody, n))], [Mark(Lbl(DoCond, n))], DoTest(n, x);
    Short1(top[0]);
    Short1(mid[0]);
    Short2(last[0], last[1]);
    Append(x.instrs, last);
    Append(mid, x.instrs + last);
    Append(y.instrs, mid + (x.instrs + last));
    Append(top, y.instrs + (mid + (x.instrs + last)));
  }

  lemma ForTestSums(n: nat, x: Code, tested: bool)
    ensures LabelsOf(ForTest(n, x, tested)) == {Lbl(ForBody, n)} && Distinct(ForTest(n, x, tested))
    ensures TargetsOf(ForTest(n, x, tested)) == if tested then {Lbl(ForBody, n), Lbl(ForEnd, n)} else {}
  {
    if tested {
      Short2(Jnz(T(x.res), Lbl(ForBody, n), Lbl(ForEnd, n)), Mark(Lbl(ForBody, n)));
      assert ForTest(n, x, tested) == [Jnz(T(x.res), Lbl(ForBody, n), Lbl(ForEnd, n)), Mark(Lbl(ForBody, n))];
    } else {
      Short1(Mark(Lbl(ForBody, n)));
      assert ForTest(n, x, tested) == [Mark(Lbl(ForBody, n))];
    }
  }

  lemma ForLoopSums(n: nat, m: nat, x: Code, tested: bool, y: StmtCode, z: Code)
    requires Tame(x.instrs, m, x.next)
    requires Tame(y.instrs, x.next, y.next) && Tame(z.instrs, y.next, z.next) && n < m <= x.next <= y.next <= z.next
    ensures
      var c := ForLoop(n, x, tested, y, z);
      Distinct(c)
      && LabelsOf(c) == LabelsOf(x.instrs) + LabelsOf(y.instrs) + LabelsOf(z.instrs)
         + {Lbl(ForCond, n), Lbl(ForBody, n), Lbl(ForPost, n), Lbl(ForEnd, n)}
      && TargetsOf(c) == TargetsOf(x.instrs) + TargetsOf(y.instrs) + TargetsOf(z.instrs)
         + {Lbl(ForCond, n)} + (if tested then {Lbl(ForBody, n), Lbl(ForEnd, n)} else {})
  {
    hide LabelsOf, TargetsOf, Distinct, ForTest;
    var top, i, mid, last := [Mark(Lbl(ForCond, n))], ForTest(n, x, tested), [Mark(Lbl(ForPost, n))], ForLast(n);
    Short1(top[0]);
    ForTestSums(n, x, tested);
    Short1(mid[0]);
    Short2(last[0], last[1]);
    Append(z.instrs, last);
    Append(mid, z.instrs + last);
    Append(y.instrs, mid + (z.instrs + last));
    Append(i, y.instrs + (mid + (z.instrs + last)));
    Append(x.instrs, i + (y.instrs + (mid + (z.instrs + last))));
    Append(top, x.instrs + (i + (y.instrs + (mid + (z.instrs + last)))));
  }

  lemma ForSums(n: nat, w: Code, x: Code, tested: bool, y: StmtCode, z: Code)
    requires Tame(w.instrs, n + 1, w.next) && Tame(x.instrs, w.next, x.next)
    requires Tame(y.instrs, x.next, y.next) && Tame(z.instrs, y.next, z.next)
      && n < w.next <= x.next <= y.next <= z.next
    ensures
      Sums(ForCode(n, w, x, tested, y, z).instrs, n, z.next,
           LabelsOf(w.instrs) + LabelsOf(x.instrs) + LabelsOf(y.instrs) + LabelsOf(z.instrs)
           + {Lbl(ForCond, n), Lbl(ForBody, n), Lbl(ForPost, n), Lbl(ForEnd, n)},
           TargetsOf(w.instrs) + TargetsOf(x.instrs) + TargetsOf(y.instrs) + TargetsOf(z.instrs)
           + {Lbl(ForCond, n)} + (if tested then {Lbl(ForBody, n), Lbl(ForEnd, n)} else {}))
  {
    hide LabelsOf, TargetsOf, Distinct, ForLoop;
    ForLoopSums(n, w.next, x, tested, y, z);
    Append(w.instrs, ForLoop(n, x, tested, y, z));
  }

  /** The labels `break` and `continue` name inside the loops `ctx`. */
  ghost function ExitLabels(ctx: seq<LoopCtx>): set<Lbl> {
    if ctx == [] then {} else {Lbl(WhileEnd, ctx[|ctx| - 1].breakId), Lbl(WhileCond, ctx[|ctx| - 1].continueId)}
  }

  lemma OptTame(e: Option<TExpr>, n: nat)
    ensures Closed(EmitOpt(e, n).instrs, n, EmitOpt(e, n).next)
  {
    match e
    case None => StraightLine([]);
    case Some(x) => ExprClosed(x, n);
  }

  lemma ReturnSums(n: nat, x: Code, rt: Ty)
    requires Closed(x.instrs, n, x.next)
    ensures Sums(ReturnCode(x, rt).instrs, n, x.next, LabelsOf(x.instrs), TargetsOf(x.instrs))
  {
    StraightLine([Ret(rt, T(x.res))]);
    Append(x.instrs, [Ret(rt, T(x.res))]);
  }

  lemma JumpSums(ctx: seq<LoopCtx>, n: nat, kind: LabelKind)
    requires kind == WhileEnd || kind == WhileCond
    ensures
      var ts := TargetsOf(JumpCode(ctx, n, kind).instrs);
      Sums(JumpCode(ctx, n, kind).instrs, n, n, {}, ts) && ts <= ExitLabels(ctx) && (ctx != [] ==> ts != {})
  {
    if ctx != [] { Short1(JumpCode(ctx, n, kind).instrs[0]); }
  }

  lemma SeqSums(n: nat, x: StmtCode, y: StmtCode)
    requires Tame(x.instrs, n, x.next) && Tame(y.instrs, x.next, y.next) && n <= x.next <= y.next
    ensures Sums(SeqCode(x, y).instrs, n, y.next, LabelsOf(x.instrs) + LabelsOf(y.instrs),
      TargetsOf(x.instrs) + TargetsOf(y.instrs))
  {
    hide LabelsOf, TargetsOf, Distinct;
    Append(x.instrs, y.instrs);
  }

  // ----- jumps out of a statement -----

  /** Targets a piece of code does not define itself. */
  ghost function Escapes(c: seq<Instr>): set<Lbl> { TargetsOf(c) - LabelsOf(c) }

  /** A jump that goes nowhere: to a number of the span without such a label, or to a loop that is no `while`. */
  ghost predicate Dangles(l: Lbl, c: seq<Instr>, lo: nat, hi: nat, ctx: seq<LoopCtx>, inner: Enclosing) {
    l in Escapes(c) && (l.kind == WhileEnd || l.kind == WhileCond)
      && (lo <= l.id < hi || (inner != WhileLoop && l in ExitLabels(ctx)))
  }

  ghost predicate Below(ctx: seq<LoopCtx>, n: nat) {
    forall l :: l in ExitLabels(ctx) ==> l.id < n
  }

  /**
   What the code of a statement defines and jumps to. When `break` and `continue` occur only inside
   `while` (`good`), jumps leave it for the labels of an enclosing `while` only; otherwise one dangles.
   */
  ghost predicate Jumps(c: StmtCode, n: nat, ctx: seq<LoopCtx>, inner: Enclosing, good: bool) {
    Tame(c.instrs, n, c.next) && n <= c.next
    && (good ==> Escapes(c.instrs) <= if inner == WhileLoop then ExitLabels(ctx) else {})
    && (!good && c.ok && Below(ctx, n) ==> exists l :: Dangles(l, c.instrs, n, c.next, ctx, inner))
  }

  lemma IfJumps(n: nat, x: Code, y: StmtCode, ctx: seq<LoopCtx>, inner: Enclosing, good: bool)
    requires Closed(x.instrs, n, x.next) && n <= x.next && Jumps(y, x.next + 1, ctx, inner, good)
    ensures Jumps(IfCode(x, y), n, ctx, inner, good)
  {
    hide LabelsOf, TargetsOf, Distinct, ExitLabels;
    IfSums(n, x, y);
    if !good && y.ok && Below(ctx, n) {
      var l :| Dangles(l, y.instrs, x.next + 1, y.next, ctx, inner);
      assert Dangles(l, IfCode(x, y).instrs, n, IfCode(x, y).next, ctx, inner);
    }
  }

  lemma IfElseJumps(n: nat, x: Code, y: StmtCode, z: StmtCode, closed: bool, ctx: seq<LoopCtx>, inner: Enclosing,
                    good: bool, good': bool)
    requires Closed(x.instrs, n, x.next) && n <= x.next && Jumps(y, x.next + 1, ctx, inner, good)
      && Jumps(z, y.next, ctx, inner, good')
    ensures Jumps(IfElseCode(x, y, z, closed), n, ctx, inner, good && good')
  {
    hide LabelsOf, TargetsOf, Distinct, ExitLabels;
    IfElseSums(n, x, y, z, closed);
    var c := IfElseCode(x, y, z, closed);
    if y.ok && z.ok && Below(ctx, n) {
      if !good {
        var l :| Dangles(l, y.instrs, x.next + 1, y.next, ctx, inner);
        assert Dangles(l, c.instrs, n, c.next, ctx, inner);
      } else if !good' {
        var l :| Dangles(l, z.instrs, y.next, z.next, ctx, inner);
        assert Dangles(l, c.instrs, n, c.next, ctx, inner);
      }
    }
  }

  lemma WhileJumpsOut(n: nat, x: Code, y: StmtCode, closed: bool, ctx: seq<LoopCtx>, inner: Enclosing, good: bool)
    requires Closed(x.instrs, n + 1, x.next) && n < x.next && Jumps(y, x.next, ctx + [LoopCtx(n, n)], WhileLoop, good)
    ensures Jumps(WhileCode(n, x, y, closed), n, ctx, inner, good)
  {
    hide LabelsOf, TargetsOf, Distinct;
    assert ExitLabels(ctx + [LoopCtx(n, n)]) == {Lbl(WhileEnd, n), Lbl(WhileCond, n)};
    WhileSums(n, x, y, closed);
    if good {
      forall l | l in TargetsOf(WhileCode(n, x, y, closed).instrs)
        ensures l in LabelsOf(WhileCode(n, x, y, closed).instrs)
      {
        if l in TargetsOf(y.instrs) && l !in LabelsOf(y.instrs) { assert l in Escapes(y.instrs); }
      }
    }
    if !good && y.ok && Below(ctx, n) {
      var l :| Dangles(l, y.instrs, x.next, y.next, ctx + [LoopCtx(n, n)], WhileLoop);
      assert Dangles(l, WhileCode(n, x, y, closed).instrs, n, WhileCode(n, x, y, closed).next, ctx, inner);
    }
  }

  lemma DoJumps(n: nat, y: StmtCode, x: Code, ctx: seq<LoopCtx>, inner: Enclosing, good: bool)
    requires Jumps(y, n + 1, ctx + [LoopCtx(n, n)], OtherLoop, good) && Closed(x.instrs, y.next, x.next)
      && y.next <= x.next
    ensures Jumps(DoCode(n, y, x), n, ctx, inner, good)
  {
    hide LabelsOf, TargetsOf, Distinct;
    assert ExitLabels(ctx + [LoopCtx(n, n)]) == {Lbl(WhileEnd, n), Lbl(WhileCond, n)};
    DoEscapes(n, y, x);
    if !good && y.ok && Below(ctx, n) {
      var l :| Dangles(l, y.instrs, n + 1, y.next, ctx + [LoopCtx(n, n)], OtherLoop);
      assert Dangles(l, DoCode(n, y, x).instrs, n, DoCode(n, y, x).next, ctx, inner);
    }
  }

  /** Nothing escapes a `do` loop but what escapes its body. */
  lemma DoEscapes(n: nat, y: StmtCode, x: Code)
    requires Tame(y.instrs, n + 1, y.next) && Closed(x.instrs, y.next, x.next) && n < y.next <= x.next
    ensures var c := DoCode(n, y, x).instrs; Tame(c, n, x.next) && Escapes(c) <= Escapes(y.instrs)
    ensures
      forall l ::
        l in Escapes(y.instrs) && (n + 1 <= l.id < y.next || ((l.kind == WhileEnd || l.kind == WhileCond) && l.id == n))
        ==> l in Escapes(DoCode(n, y, x).instrs)
  {
    hide LabelsOf, TargetsOf, Distinct;
    DoSums(n, y, x);
  }

  lemma ForJumps(n: nat, w: Code, x: Code, tested: bool, y: StmtCode, z: Code, ctx: seq<LoopCtx>, inner: Enclosing,
                 good: bool)
    requires Closed(w.instrs, n + 1, w.next) && Closed(x.instrs, w.next, x.next) && Closed(z.instrs, y.next, z.next)
    requires Jumps(y, x.next, ctx + [LoopCtx(n, n)], OtherLoop, good) && n < w.next <= x.next && y.next <= z.next
    ensures Jumps(ForCode(n, w, x, tested, y, z), n, ctx, inner, good)
  {
    hide LabelsOf, TargetsOf, Distinct, ForLoop;
    assert ExitLabels(ctx + [LoopCtx(n, n)]) == {Lbl(WhileEnd, n), Lbl(WhileCond, n)};
    ForEscapes(n, w, x, tested, y, z);
    if !good && y.ok && Below(ctx, n) {
      var l :| Dangles(l, y.instrs, x.next, y.next, ctx + [LoopCtx(n, n)], OtherLoop);
      assert Dangles(l, ForCode(n, w, x, tested, y, z).instrs, n, ForCode(n, w, x, tested, y, z).next, ctx, inner);
    }
  }

  /** Nothing escapes a `for` loop but what escapes its body. */
  lemma ForEscapes(n: nat, w: Code, x: Code, tested: bool, y: StmtCode, z: Code)
    requires Closed(w.instrs, n + 1, w.next) && Closed(x.instrs, w.next, x.next) && Closed(z.instrs, y.next, z.next)
    requires Tame(y.instrs, x.next, y.next) && n < w.next <= x.next <= y.next <= z.next
    ensures
      var c := ForCode(n, w, x, tested, y, z).instrs;
      Tame(c, n, z.next) && Escapes(c) <= Escapes(y.instrs)
    ensures
      forall l ::
        l in Escapes(y.instrs)
          && (x.next <= l.id < y.next || ((l.kind == WhileEnd || l.kind == WhileCond) && l.id == n))
        ==> l in Escapes(ForCode(n, w, x, tested, y, z).instrs)
  {
    hide LabelsOf, TargetsOf, Distinct, ForLoop;
    ForSums(n, w, x, tested, y, z);
  }

  lemma SeqJumps(n: nat, x: StmtCode, y: StmtCode, ctx: seq<LoopCtx>, inner: Enclosing, good: bool, good': bool)
    requires Jumps(x, n, ctx, inner, good) && Jumps(y, x.next, ctx, inner, good')
    ensures Jumps(SeqCode(x, y), n, ctx, inner, good && good')
  {
    hide LabelsOf, TargetsOf, Distinct, ExitLabels;
    SeqSums(n, x, y);
    if x.ok && y.ok && Below(ctx, n) {
      if !good {
        var l :| Dangles(l, x.instrs, n, x.next, ctx, inner);
        assert Dangles(l, SeqCode(x, y).instrs, n, SeqCode(x, y).next, ctx, inner);
      } else if !good' {
        var l :| Dangles(l, y.instrs, x.next, y.next, ctx, inner);
        assert Dangles(l, SeqCode(x, y).instrs, n, SeqCode(x, y).next, ctx, inner);
      }
    }
  }

  lemma ExitJumps(n: nat, ctx: seq<LoopCtx>, kind: LabelKind, inner: Enclosing)
    requires kind == WhileEnd || kind == WhileCond
    ensures Jumps(JumpCode(ctx, n, kind), n, ctx, inner, inner == WhileLoop)
  {
    hide LabelsOf, TargetsOf, Distinct;
    JumpSums(ctx, n, kind);
    if ctx != [] {
      var l :| l in TargetsOf(JumpCode(ctx, n, kind).instrs);
      assert inner != WhileLoop ==> Dangles(l, JumpCode(ctx, n, kind).instrs, n, n, ctx, inner);
    }
  }

  /** Main result on jumps, for every statement. */
  lemma {:induction false} StmtJumps(s: TStmt, n: nat, ctx: seq<LoopCtx>, inner: Enclosing, rt: Ty)
    ensures Jumps(EmitStmt(s, n, ctx, rt), n, ctx, inner, WhileJumps(s, inner))
    decreases s
  {
    hide LabelsOf, TargetsOf, Distinct, Jumps, Closed, EmitExpr, EmitOpt, IfCode, IfElseCode, WhileCode, DoCode,
      ForCode, ReturnCode, JumpCode, AssignCode;
    match s
    case TEval(e) => OptTame(e, n); ClosedJumps(EmitStmt(s, n, ctx, rt), n, ctx, inner);
    case TBlock(ss) => StmtsJumps(ss, n, ctx, inner, rt);
    case TIf(c, t, els) =>
      var x := EmitExpr(c, n);
      var y := EmitStmt(t, x.next + 1, ctx, rt);
      ExprClosed(c, n);
      StmtJumps(t, x.next + 1, ctx, inner, rt);
      if els.Some? {
        StmtJumps(els.value, y.next, ctx, inner, rt);
        IfElseJumps(n, x, y, EmitStmt(els.value, y.next, ctx, rt), EndsInTerminator(t), ctx, inner,
          WhileJumps(t, inner), WhileJumps(els.value, inner));
      } else {
        IfJumps(n, x, y, ctx, inner, WhileJumps(t, inner));
      }
    case TWhile(c, body) =>
      var x := EmitExpr(c, n + 1);
      ExprClosed(c, n + 1);
      StmtJumps(body, x.next, ctx + [LoopCtx(n, n)], WhileLoop, rt);
      WhileJumpsOut(n, x, EmitStmt(body, x.next, ctx + [LoopCtx(n, n)], rt), EndsInTerminator(body), ctx, inner,
        WhileJumps(body, WhileLoop));
    case TDo(body, c) =>
      var y := EmitStmt(body, n + 1, ctx + [LoopCtx(n, n)], rt);
      StmtJumps(body, n + 1, ctx + [LoopCtx(n, n)], OtherLoop, rt);
      ExprClosed(c, y.next);
      DoJumps(n, y, EmitExpr(c, y.next), ctx, inner, WhileJumps(body, OtherLoop));
    case TFor(i, c, p, body) =>
      var w := EmitOpt(i, n + 1);
      var x := EmitOpt(c, w.next);
      var y := EmitStmt(body, x.next, ctx + [LoopCtx(n, n)], rt);
      OptTame(i, n + 1);
      OptTame(c, w.next);
      StmtJumps(body, x.next, ctx + [LoopCtx(n, n)], OtherLoop, rt);
      OptTame(p, y.next);
      ForJumps(n, w, x, c.Some?, y, EmitOpt(p, y.next), ctx, inner, WhileJumps(body, OtherLoop));
    case TReturn(e) =>
      ExprClosed(e, n);
      ReturnJumps(n, EmitExpr(e, n), rt, ctx, inner);
    case TBreak => ExitJumps(n, ctx, WhileEnd, inner);
    case TContinue => ExitJumps(n, ctx, WhileCond, inner);
    case TDecl(id, ty, e) => DeclClosed(id, ty, e, n, ctx, rt); ClosedJumps(EmitStmt(s, n, ctx, rt), n, ctx, inner);
  }

  lemma ClosedJumps(c: StmtCode, n: nat, ctx: seq<LoopCtx>, inner: Enclosing)
    requires Closed(c.instrs, n, c.next) && n <= c.next
    ensures Jumps(c, n, ctx, inner, true)
  {
  }

  lemma ReturnJumps(n: nat, x: Code, rt: Ty, ctx: seq<LoopCtx>, inner: Enclosing)
    requires Closed(x.instrs, n, x.next) && n <= x.next
    ensures Jumps(ReturnCode(x, rt), n, ctx, inner, true)
  {
    ReturnSums(n, x, rt);
  }

  lemma DeclClosed(id: nat, ty: Ty, e: Option<TExpr>, n: nat, ctx: seq<LoopCtx>, rt: Ty)
    ensures Closed(EmitStmt(TDecl(id, ty, e), n, ctx, rt).instrs, n, EmitStmt(TDecl(id, ty, e), n, ctx, rt).next)
  {
    match e
    case None => StraightLine([]);
    case Some(x) => ExprClosed(TAssign(None, id, ty, x), n);
  }

  lemma {:induction false} StmtsJumps(ss: seq<TStmt>, n: nat, ctx: seq<LoopCtx>, inner: Enclosing, rt: Ty)
    ensures Jumps(EmitStmts(ss, n, ctx, rt), n, ctx, inner, WhileJumpsAll(ss, inner))
    decreases ss
  {
    if ss == [] {
      StraightLine([]);
      ClosedJumps(EmitStmts(ss, n, ctx, rt), n, ctx, inner);
    } else {
      var x := EmitStmt(ss[0], n, ctx, rt);
      StmtJumps(ss[0], n, ctx, inner, rt);
      StmtsJumps(ss[1..], x.next, ctx, inner, rt);
      SeqJumps(n, x, EmitStmts(ss[1..], x.next, ctx, rt), ctx, inner, WhileJumps(ss[0], inner),
        WhileJumpsAll(ss[1..], inner));
    }
  }
}
