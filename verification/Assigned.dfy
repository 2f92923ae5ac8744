/** On every path through emitted code, each temporary is written before it is read. */
module Assigned {
  import opened Options
  import opened Words
  import opened Typed
  import opened Il
  import opened Codegen

  function TempOf(x: Name): set<nat> { if x.T? then {x.n} else {} }

  /** The temporaries an instruction reads. */
  function Uses(i: Instr): set<nat> {
    match i
    case Copy(_, _, s) => TempOf(s)
    case Extsw(_, s) => TempOf(s)
    case Bin(_, _, _, a, b) => TempOf(a) + TempOf(b)
    case Cmp(_, _, _, a, b) => TempOf(a) + TempOf(b)
    case Cnew0(_, a) => TempOf(a)
    case Load(_, _, a) => TempOf(a)
    case Store(_, s, a) => TempOf(s) + TempOf(a)
    case Jnz(a, _, _) => TempOf(a)
    case Ret(_, s) => TempOf(s)
    case _ => {}
  }

  /** The temporaries an instruction writes. */
  function Writes(i: Instr): set<nat> {
    match i
    case Const(d, _, _) => TempOf(d)
    case Copy(d, _, _) => TempOf(d)
    case Extsw(d, _) => TempOf(d)
    case Bin(d, _, _, _, _) => TempOf(d)
    case Cmp(d, _, _, _, _) => TempOf(d)
    case Cnew0(d, _) => TempOf(d)
    case Load(d, _, _) => TempOf(d)
    case _ => {}
  }

  /** The labels an instruction may jump to. */
  function Exits(i: Instr): set<Lbl> {
    match i
    case Jnz(_, t, e) => {t, e}
    case Jmp(l) => {l}
    case _ => {}
  }

  predicate FallsThrough(i: Instr) { !i.Jnz? && !i.Jmp? && !i.Ret? && !i.RetConst? }

  // ----- the property -----

  /** Control can go from `pc` to `to`. */
  predicate Moves(code: seq<Instr>, pc: nat, to: nat) {
    pc < |code| && to < |code|
    && ((FallsThrough(code[pc]) && to == pc + 1) || (code[to].Mark? && code[to].l in Exits(code[pc])))
  }

  /** A path through the code from its start. */
  predicate IsPath(code: seq<Instr>, path: seq<nat>) {
    path != [] && path[0] == 0 && |code| > 0 && forall k :: 0 < k < |path| ==> Moves(code, path[k - 1], path[k])
  }

  /** The temporaries written before the last point of a path. */
  function WrittenOn(code: seq<Instr>, path: seq<nat>): set<nat>
    requires path != [] && forall k :: 0 <= k < |path| ==> path[k] < |code|
  {
    if |path| == 1 then {} else
      WrittenOn(code, path[..|path| - 1]) + Writes(code[path[|path| - 2]])
  }

  // ----- how it is established: what may be assumed at each label -----

  type Assumed = map<Lbl, set<nat>>

  /** Nothing is assumed at the labels of statements. */
  function AtLabel(g: Assumed, l: Lbl): set<nat> {
    if l in g && l.kind in {ScRhs, ScEnd, CondThen, CondElse, CondEnd} then g[l] else {}
  }

  /** What is written after an instruction, `None` when control does not fall through. */
  function Next(s: Option<set<nat>>, i: Instr): Option<set<nat>> {
    if s.Some? && FallsThrough(i) then Some(s.value + Writes(i)) else None
  }

  /** The instruction reads what is written, and its jumps find what their labels assume. */
  predicate Fine(g: Assumed, s: Option<set<nat>>, i: Instr) {
    s.Some? ==>
      if i.Mark? then AtLabel(g, i.l) <= s.value
      else Uses(i) <= s.value && forall l :: l in Exits(i) ==> AtLabel(g, l) <= s.value
  }

  /** Starting with `s` written (`None`: control does not come here), all is fine, and `out` is written at the end. */
  predicate Covers(g: Assumed, s: Option<set<nat>>, code: seq<Instr>, out: set<nat>)
    decreases |code|
  {
    if code == [] then s.Some? ==> out <= s.value
    else
      Fine(g, s, code[0])
      && Covers(g, if code[0].Mark? then Some(AtLabel(g, code[0].l)) else Next(s, code[0]), code[1..], out)
  }

  /** More is known: more written, or control does not come here. */
  predicate Stronger(s: Option<set<nat>>, t: Option<set<nat>>) { s.Some? ==> t.Some? && t.value <= s.value }

  lemma {:induction false} CoversMore(g: Assumed, s: Option<set<nat>>, t: Option<set<nat>>, code: seq<Instr>,
                                      out: set<nat>, less: set<nat>)
    requires Covers(g, t, code, out) && Stronger(s, t) && less <= out
    ensures Covers(g, s, code, less)
    decreases |code|
  {
    hide Uses, Writes, Exits, AtLabel;
    if code != [] {
      var i := code[0];
      if i.Mark? { CoversMore(g, Some(AtLabel(g, i.l)), Some(AtLabel(g, i.l)), code[1..], out, less); }
      else { CoversMore(g, Next(s, i), Next(t, i), code[1..], out, less); }
    }
  }

  lemma {:induction false} CoversAppend(g: Assumed, s: Option<set<nat>>, x: seq<Instr>, mid: set<nat>, y: seq<Instr>,
                                        out: set<nat>)
    requires Covers(g, s, x, mid) && Covers(g, Some(mid), y, out)
    ensures Covers(g, s, x + y, out)
    decreases |x|
  {
    hide Fine, Next, AtLabel;
    if x == [] {
      assert x + y == y;
      CoversMore(g, s, Some(mid), y, out, out);
    } else {
      var i := x[0];
      assert (x + y)[1..] == x[1..] + y;
      CoversAppend(g, if i.Mark? then Some(AtLabel(g, i.l)) else Next(s, i), x[1..], mid, y, out);
    }
  }

  /** The two assume the same at the labels numbered `lo..hi`. */
  ghost predicate Agrees(h: Assumed, g: Assumed, lo: nat, hi: nat) {
    forall l: Lbl :: lo <= l.id < hi ==> AtLabel(h, l) == AtLabel(g, l)
  }

  predicate Inside(g: Assumed, lo: nat, hi: nat) { forall l :: l in g ==> lo <= l.id < hi }

  /** Whatever is assumed elsewhere, `g` covers code numbered `lo..hi`. */
  ghost predicate Sure(g: Assumed, lo: nat, hi: nat, s: set<nat>, code: seq<Instr>, out: set<nat>) {
    Inside(g, lo, hi) && forall h: Assumed :: Agrees(h, g, lo, hi) ==> Covers(h, Some(s), code, out)
  }

  /** Assumptions for different spans can be put together. */
  lemma Together(h: Assumed, a: Assumed, b: Assumed, lo: nat, mid: nat, hi: nat)
    requires Inside(a, lo, mid) && Inside(b, mid, hi) && lo <= mid <= hi && Agrees(h, a + b, lo, hi)
    ensures Agrees(h, a, lo, mid) && Agrees(h, b, mid, hi) && Inside(a + b, lo, hi)
  {
    forall l: Lbl | lo <= l.id < mid ensures AtLabel(h, l) == AtLabel(a, l) { assert l !in b; }
    forall l: Lbl | mid <= l.id < hi ensures AtLabel(h, l) == AtLabel(b, l) { assert l !in a; }
  }

  // ----- expressions -----

  lemma One(g: Assumed, s: set<nat>, i: Instr, out: set<nat>)
    requires !i.Mark? && FallsThrough(i) && Uses(i) <= s && out <= s + Writes(i)
    ensures Covers(g, Some(s), [i], out)
  {
    hide Uses, Writes, AtLabel;
    assert [i][1..] == [];
    NoExits(i);
  }

  lemma NoExits(i: Instr)
    ensures FallsThrough(i) ==> Exits(i) == {}
  {
  }

  lemma Front(g: Assumed, s: set<nat>, i: Instr, rest: seq<Instr>, out: set<nat>)
    requires !i.Mark? && FallsThrough(i) && Uses(i) <= s && Covers(g, Some(s + Writes(i)), rest, out)
    ensures Covers(g, Some(s), [i] + rest, out)
  {
    hide Uses, Writes, AtLabel;
    assert ([i] + rest)[1..] == rest;
    NoExits(i);
  }

  lemma LastMark(g: Assumed, s: Option<set<nat>>, l: Lbl)
    requires s.Some? ==> AtLabel(g, l) <= s.value
    ensures Covers(g, s, [Mark(l)], AtLabel(g, l))
  {
    hide AtLabel;
    assert [Mark(l)][1..] == [];
  }

  lemma FrontJump(g: Assumed, s: set<nat>, i: Instr, rest: seq<Instr>, out: set<nat>)
    requires !i.Mark? && !FallsThrough(i) && Uses(i) <= s && (forall l :: l in Exits(i) ==> AtLabel(g, l) <= s)
    requires Covers(g, None, rest, out)
    ensures Covers(g, Some(s), [i] + rest, out)
  {
    hide AtLabel, Uses, Exits;
    assert ([i] + rest)[1..] == rest;
  }

  lemma CastCovers(g: Assumed, s: set<nat>, c: Code, to: Ty, from: Ty)
    requires Covers(g, Some(s), c.instrs, s + {c.res})
    ensures var z := CastCode(c, to, from); Covers(g, Some(s), z.instrs, s + {z.res})
  {
    One(g, s + {c.res}, Convert(c.next, to, c.res, from), s + {c.next});
    CoversAppend(g, Some(s), c.instrs, s + {c.res}, [Convert(c.next, to, c.res, from)], s + {c.next});
  }

  /** Two operands, then an instruction on both. */
  lemma PairCovers(g: Assumed, s: set<nat>, c: Code, d: Code, i: Instr)
    requires Covers(g, Some(s), c.instrs, s + {c.res}) && Covers(g, Some(s + {c.res}), d.instrs, s + {c.res} + {d.res})
    requires !i.Mark? && FallsThrough(i) && Uses(i) <= {c.res, d.res} && Writes(i) == {d.next}
    ensures Covers(g, Some(s), c.instrs + (d.instrs + [i]), s + {d.next})
  {
    hide Covers;
    One(g, s + {c.res} + {d.res}, i, s + {d.next});
    CoversAppend(g, Some(s + {c.res}), d.instrs, s + {c.res} + {d.res}, [i], s + {d.next});
    CoversAppend(g, Some(s), c.instrs, s + {c.res}, d.instrs + [i], s + {d.next});
  }

  lemma LogicCovers(g: Assumed, s: set<nat>, isAnd: bool, n: nat, c: Code, d: Code)
    requires Covers(g, Some(s), c.instrs, s + {c.res})
    requires Covers(g, Some(s + {n + 1}), d.instrs, s + {n + 1} + {d.res})
    requires AtLabel(g, Lbl(ScRhs, n)) == s + {n + 1} == AtLabel(g, Lbl(ScEnd, n))
    ensures var z := LogicCode(isAnd, n, c, d); Covers(g, Some(s), z.instrs, s + {z.res})
  {
    hide AtLabel, Covers;
    var t := s + {n + 1};
    LogicTestCovers(g, s, isAnd, n, c.res);
    LogicEndCovers(g, s, n, d);
    CoversAppend(g, Some(t), d.instrs, t + {d.res}, LogicEnd(n, d), t);
    CoversAppend(g, Some(s + {c.res}), LogicTest(isAnd, n, c.res), t, d.instrs + LogicEnd(n, d), t);
    CoversAppend(g, Some(s), c.instrs, s + {c.res}, LogicTest(isAnd, n, c.res) + (d.instrs + LogicEnd(n, d)), t);
  }

  lemma LogicTestCovers(g: Assumed, s: set<nat>, isAnd: bool, n: nat, res: nat)
    requires AtLabel(g, Lbl(ScRhs, n)) == s + {n + 1} == AtLabel(g, Lbl(ScEnd, n))
    ensures Covers(g, Some(s + {res}), LogicTest(isAnd, n, res), s + {n + 1})
  {
    hide AtLabel, Covers;
    var c := LogicTest(isAnd, n, res);
    var t := s + {n + 1};
    LastMark(g, None, Lbl(ScRhs, n));
    FrontJump(g, s + {res} + {n + 1}, c[1], [c[2]], t);
    Front(g, s + {res}, c[0], [c[1]] + [c[2]], t);
    assert c == [c[0]] + ([c[1]] + [c[2]]);
  }

  lemma LogicEndCovers(g: Assumed, s: set<nat>, n: nat, d: Code)
    requires AtLabel(g, Lbl(ScEnd, n)) == s + {n + 1}
    ensures Covers(g, Some(s + {n + 1} + {d.res}), LogicEnd(n, d), s + {n + 1})
  {
    hide AtLabel, Covers;
    var c := LogicEnd(n, d);
    var t := s + {n + 1} + {d.res} + {d.next};
    LastMark(g, Some(t + {n + 1}), Lbl(ScEnd, n));
    Front(g, t, c[1], [c[2]], s + {n + 1});
    Front(g, s + {n + 1} + {d.res}, c[0], [c[1]] + [c[2]], s + {n + 1});
    assert c == [c[0]] + ([c[1]] + [c[2]]);
  }

  lemma AssignCovers(g: Assumed, s: set<nat>, n: nat, id: nat, ty: Ty, c: Code)
    requires Covers(g, Some(s + {n}), c.instrs, s + {n} + {c.res})
    ensures var z := AssignCode(n, id, ty, c); Covers(g, Some(s), z.instrs, s + {z.res})
  {
    hide Covers;
    var last := AssignEnd(ty, n, c);
    One(g, s + {n} + {c.res}, last[0], s + {c.res});
    assert last == [last[0]];
    CoversAppend(g, Some(s + {n}), c.instrs, s + {n} + {c.res}, last, s + {c.res});
    Front(g, s, AddressOf(n, id)[0], c.instrs + last, s + {c.res});
  }

  lemma CompoundCovers(g: Assumed, s: set<nat>, op: ArithOp, n: nat, id: nat, ty: Ty, c: Code)
    requires Covers(g, Some(s + {n}), c.instrs, s + {n} + {c.res})
    ensures var z := CompoundCode(op, n, id, ty, c); Covers(g, Some(s), z.instrs, s + {z.res})
  {
    hide Covers;
    var last := CompoundEnd(op, ty, n, c);
    var t := s + {n} + {c.res};
    One(g, t + {c.next} + {c.next + 1}, last[2], s + {c.next + 1});
    Front(g, t + {c.next}, last[1], [last[2]], s + {c.next + 1});
    Front(g, t, last[0], [last[1]] + [last[2]], s + {c.next + 1});
    assert last == [last[0]] + ([last[1]] + [last[2]]);
    CoversAppend(g, Some(s + {n}), c.instrs, t, last, s + {c.next + 1});
    Front(g, s, AddressOf(n, id)[0], c.instrs + last, s + {c.next + 1});
  }

  lemma PostfixCovers(g: Assumed, s: set<nat>, inc: bool, n: nat, id: nat, ty: Ty)
    ensures var z := PostfixCode(inc, n, id, ty); Covers(g, Some(s), z.instrs, s + {z.res})
  {
    hide Covers;
    var c := PostfixCode(inc, n, id, ty).instrs;
    One(g, s + {n} + {n + 1} + {n + 2} + {n + 3}, c[4], s + {n + 1});
    Front(g, s + {n} + {n + 1} + {n + 2}, c[3], [c[4]], s + {n + 1});
    Front(g, s + {n} + {n + 1}, c[2], [c[3]] + [c[4]], s + {n + 1});
    Front(g, s + {n}, c[1], [c[2]] + ([c[3]] + [c[4]]), s + {n + 1});
    Front(g, s, c[0], [c[1]] + ([c[2]] + ([c[3]] + [c[4]])), s + {n + 1});
    assert c == [c[0]] + ([c[1]] + ([c[2]] + ([c[3]] + [c[4]])));
  }

  lemma VarCovers(g: Assumed, s: set<nat>, id: nat, n: nat, ty: Ty)
    ensures Covers(g, Some(s), [Copy(T(n), Long, V(id)), Load(T(n + 1), ty, T(n))], s + {n + 1})
  {
    hide Covers;
    var a, b := Copy(T(n), Long, V(id)), Load(T(n + 1), ty, T(n));
    One(g, s + {n}, b, s + {n + 1});
    Front(g, s, a, [b], s + {n + 1});
    assert [a, b] == [a] + [b];
  }

  lemma CondCovers(g: Assumed, s: set<nat>, x: Code, y: Code, z: Code, ty: Ty)
    requires Covers(g, Some(s), x.instrs, s + {x.res})
    requires Covers(g, Some(s), y.instrs, s + {y.res}) && Covers(g, Some(s), z.instrs, s + {z.res})
    requires AtLabel(g, Lbl(CondThen, x.next)) == s == AtLabel(g, Lbl(CondElse, x.next))
    requires AtLabel(g, Lbl(CondEnd, x.next)) == s + {x.next + 1}
    ensures var c := CondCode(x, y, z, ty); Covers(g, Some(s), c.instrs, s + {c.res})
  {
    hide AtLabel, Covers;
    var t := s + {x.next + 1};
    var mid, last := CondMiddle(x, y, ty), CondLast(x, z, ty);
    CondTestCovers(g, s, x);
    CondMiddleCovers(g, s, x, y, ty);
    CondLastCovers(g, s, x, z, ty);
    CoversAppend(g, Some(s), z.instrs, s + {z.res}, last, t);
    CoversAppend(g, Some(s + {y.res}), mid, s, z.instrs + last, t);
    CoversAppend(g, Some(s), y.instrs, s + {y.res}, mid + (z.instrs + last), t);
    CoversAppend(g, Some(s + {x.res}), CondTest(x), s, y.instrs + (mid + (z.instrs + last)), t);
    CoversAppend(g, Some(s), x.instrs, s + {x.res}, CondTest(x) + (y.instrs + (mid + (z.instrs + last))), t);
  }

  lemma CondTestCovers(g: Assumed, s: set<nat>, x: Code)
    requires AtLabel(g, Lbl(CondThen, x.next)) == s == AtLabel(g, Lbl(CondElse, x.next))
    ensures Covers(g, Some(s + {x.res}), CondTest(x), s)
  {
    hide AtLabel, Covers;
    var c := CondTest(x);
    LastMark(g, None, Lbl(CondThen, x.next));
    FrontJump(g, s + {x.res}, c[0], [c[1]], s);
    assert c == [c[0]] + [c[1]];
  }

  lemma CondMiddleCovers(g: Assumed, s: set<nat>, x: Code, y: Code, ty: Ty)
    requires AtLabel(g, Lbl(CondElse, x.next)) == s && AtLabel(g, Lbl(CondEnd, x.next)) == s + {x.next + 1}
    ensures Covers(g, Some(s + {y.res}), CondMiddle(x, y, ty), s)
  {
    hide AtLabel, Covers;
    var c := CondMiddle(x, y, ty);
    LastMark(g, None, Lbl(CondElse, x.next));
    FrontJump(g, s + {y.res} + {x.next + 1}, c[1], [c[2]], s);
    Front(g, s + {y.res}, c[0], [c[1]] + [c[2]], s);
    assert c == [c[0]] + ([c[1]] + [c[2]]);
  }

  lemma CondLastCovers(g: Assumed, s: set<nat>, x: Code, z: Code, ty: Ty)
    requires AtLabel(g, Lbl(CondEnd, x.next)) == s + {x.next + 1}
    ensures Covers(g, Some(s + {z.res}), CondLast(x, z, ty), s + {x.next + 1})
  {
    hide AtLabel, Covers;
    var c := CondLast(x, z, ty);
    LastMark(g, Some(s + {z.res} + {x.next + 1}), Lbl(CondEnd, x.next));
    Front(g, s + {z.res}, c[0], [c[1]], s + {x.next + 1});
    assert c == [c[0]] + [c[1]];
  }

  ghost predicate ExprSure(g: Assumed, e: TExpr, n: nat, s: set<nat>) {
    var c := EmitExpr(e, n);
    Sure(g, n, c.next, s, c.instrs, s + {c.res})
  }

  /** From any written set, the code of an expression reads only what is written, and writes its result. */
  lemma {:induction false} ExprAssigned(e: TExpr, n: nat, s: set<nat>) returns (g: Assumed)
    ensures ExprSure(g, e, n, s)
    decreases e, 1
  {
    hide Covers, AtLabel, CastCode, ArithCode, CompareCode, LogicCode, AssignCode, CompoundCode, PostfixCode, CondCode,
      CommaCode, Agrees;
    if e.TLit? || e.TVar? || e.TPostfix? {
      g := map[];
      var c := EmitExpr(e, n);
      forall h: Assumed | Agrees(h, g, n, c.next) ensures Covers(h, Some(s), c.instrs, s + {c.res}) {
        if e.TLit? { One(h, s, Const(T(n), e.ty, e.value), s + {n}); }
        else if e.TVar? { VarCovers(h, s, e.id, n, e.ty); }
        else { PostfixCovers(h, s, e.inc, n, e.id, e.ty); }
      }
    }
    else if e.TCast? { g := CastAssigned(e, n, s); }
    else if e.TArith? || e.TCompare? || e.TComma? { g := PairAssigned(e, n, s); }
    else if e.TLogic? { g := LogicAssigned(e, n, s); }
    else if e.TAssign? { g := AssignAssigned(e, n, s); }
    else { g := CondAssigned(e, n, s); }
  }

  lemma {:induction false} CastAssigned(e: TExpr, n: nat, s: set<nat>) returns (g: Assumed)
    requires e.TCast?
    ensures ExprSure(g, e, n, s)
    decreases e, 0
  {
    hide Covers, AtLabel, Agrees, CastCode;
    g := ExprAssigned(e.e, n, s);
    var x, c := EmitExpr(e.e, n), EmitExpr(e, n);
    CodeBounds(e, n);
    forall h: Assumed | Agrees(h, g, n, c.next) ensures Covers(h, Some(s), c.instrs, s + {c.res}) {
      Less(h, g, n, x.next, c.next);
      CastCovers(h, s, x, e.to, TypeOf(e.e));
    }
  }

  lemma CodeBounds(e: TExpr, n: nat)
    ensures e.TCast? ==> EmitExpr(e, n).next == EmitExpr(e.e, n).next + 1
  {
  }

  lemma Less(h: Assumed, g: Assumed, lo: nat, mid: nat, hi: nat)
    requires Agrees(h, g, lo, hi) && mid <= hi
    ensures Agrees(h, g, lo, mid)
  {
  }

  lemma {:induction false} PairAssigned(e: TExpr, n: nat, s: set<nat>) returns (g: Assumed)
    requires e.TArith? || e.TCompare? || e.TComma?
    ensures ExprSure(g, e, n, s)
    decreases e, 0
  {
    hide Covers, AtLabel, Agrees;
    var c := EmitExpr(e.l, n);
    var d := EmitExpr(e.r, c.next);
    var z := EmitExpr(e, n);
    var a := ExprAssigned(e.l, n, s);
    var b := ExprAssigned(e.r, c.next, s + {c.res});
    g := a + b;
    forall h: Assumed | Agrees(h, g, n, z.next) ensures Covers(h, Some(s), z.instrs, s + {z.res}) {
      Less(h, g, n, d.next, z.next);
      Together(h, a, b, n, c.next, d.next);
      if e.TComma? {
        CoversAppend(h, Some(s), c.instrs, s + {c.res}, d.instrs, s + {c.res} + {d.res});
        CoversMore(h, Some(s), Some(s), z.instrs, s + {c.res} + {d.res}, s + {d.res});
      } else {
        var i := if e.TArith? then Bin(T(d.next), TypeOf(e.l), e.op, T(c.res), T(d.res))
                 else Cmp(T(d.next), e.cmp, TypeOf(e.l), T(c.res), T(d.res));
        PairCovers(h, s, c, d, i);
      }
    }
    KeysInside(a, b, n, c.next, d.next, z.next);
  }

  lemma KeysInside(a: Assumed, b: Assumed, lo: nat, mid: nat, hi: nat, top: nat)
    requires Inside(a, lo, mid) && Inside(b, mid, hi) && lo <= mid <= hi <= top
    ensures Inside(a + b, lo, top)
  {
  }

  lemma {:induction false} LogicAssigned(e: TExpr, n: nat, s: set<nat>) returns (g: Assumed)
    requires e.TLogic?
    ensures ExprSure(g, e, n, s)
    decreases e, 0
  {
    hide Covers, Agrees, AtLabel;
    var c := EmitExpr(e.l, n + 2);
    var d := EmitExpr(e.r, c.next);
    var z := EmitExpr(e, n);
    var t := s + {n + 1};
    var a := ExprAssigned(e.l, n + 2, s);
    var b := ExprAssigned(e.r, c.next, t);
    var own: Assumed := map[Lbl(ScRhs, n) := t, Lbl(ScEnd, n) := t];
    g := own + (a + b);
    KeysInside(a, b, n + 2, c.next, d.next, d.next);
    forall h: Assumed | Agrees(h, g, n, z.next) ensures Covers(h, Some(s), z.instrs, s + {z.res}) {
      Less(h, g, n, d.next, z.next);
      Together(h, own, a + b, n, n + 2, d.next);
      Together(h, a, b, n + 2, c.next, d.next);
      OwnLabels(h, own, n, n + 2, Lbl(ScRhs, n), t);
      OwnLabels(h, own, n, n + 2, Lbl(ScEnd, n), t);
      LogicCovers(h, s, e.isAnd, n, c, d);
    }
  }

  lemma OwnLabels(h: Assumed, own: Assumed, lo: nat, hi: nat, l: Lbl, t: set<nat>)
    requires Agrees(h, own, lo, hi) && lo <= l.id < hi && l in own && own[l] == t
    requires l.kind in {ScRhs, ScEnd, CondThen, CondElse, CondEnd}
    ensures AtLabel(h, l) == t
  {
  }

  lemma {:induction false} AssignAssigned(e: TExpr, n: nat, s: set<nat>) returns (g: Assumed)
    requires e.TAssign?
    ensures ExprSure(g, e, n, s)
    decreases e, 0
  {
    hide Covers, AtLabel, Agrees;
    var c := EmitExpr(e.rhs, n + 1);
    var z := EmitExpr(e, n);
    g := ExprAssigned(e.rhs, n + 1, s + {n});
    forall h: Assumed | Agrees(h, g, n, z.next) ensures Covers(h, Some(s), z.instrs, s + {z.res}) {
      Within(h, g, n, n + 1, c.next, z.next);
      if e.aop.None? { AssignCovers(h, s, n, e.id, e.ty, c); }
      else { CompoundCovers(h, s, e.aop.value, n, e.id, e.ty, c); }
    }
  }

  lemma Within(h: Assumed, g: Assumed, lo: nat, lo': nat, hi': nat, hi: nat)
    requires Agrees(h, g, lo, hi) && lo <= lo' <= hi' <= hi
    ensures Agrees(h, g, lo', hi')
  {
  }

  lemma {:induction false} CondAssigned(e: TExpr, n: nat, s: set<nat>) returns (g: Assumed)
    requires e.TCond?
    ensures ExprSure(g, e, n, s)
    decreases e, 0
  {
    hide Covers, Agrees, AtLabel;
    var x := EmitExpr(e.c, n);
    var y := EmitExpr(e.a, x.next + 2);
    var z := EmitExpr(e.b, y.next);
    var w := EmitExpr(e, n);
    var a := ExprAssigned(e.c, n, s);
    var b := ExprAssigned(e.a, x.next + 2, s);
    var c := ExprAssigned(e.b, y.next, s);
    var id := x.next;
    var own: Assumed := map[Lbl(CondThen, id) := s, Lbl(CondElse, id) := s, Lbl(CondEnd, id) := s + {id + 1}];
    g := a + (own + (b + c));
    KeysInside(b, c, id + 2, y.next, z.next, z.next);
    KeysInside(own, b + c, id, id + 2, z.next, z.next);
    KeysInside(a, own + (b + c), n, id, z.next, z.next);
    forall h: Assumed | Agrees(h, g, n, w.next) ensures Covers(h, Some(s), w.instrs, s + {w.res}) {
      Together(h, a, own + (b + c), n, id, z.next);
      Together(h, own, b + c, id, id + 2, z.next);
      Together(h, b, c, id + 2, y.next, z.next);
      OwnLabels(h, own, id, id + 2, Lbl(CondThen, id), s);
      OwnLabels(h, own, id, id + 2, Lbl(CondElse, id), s);
      OwnLabels(h, own, id, id + 2, Lbl(CondEnd, id), s + {id + 1});
      CondCovers(h, s, x, y, z, e.ty);
    }
  }

  // ----- statements: nothing written outside is read inside -----

  ghost predicate StmtSure(g: Assumed, c: StmtCode, n: nat) { Sure(g, n, c.next, {}, c.instrs, {}) }

  /** Code that starts with nothing and leaves nothing to rely on. */
  predicate Free(g: Assumed, code: seq<Instr>) { Covers(g, Some({}), code, {}) }

  /** The label of a statement. */
  predicate Plain(l: Lbl) { l.kind !in {ScRhs, ScEnd, CondThen, CondElse, CondEnd} }

  lemma FreeAppend(g: Assumed, x: seq<Instr>, y: seq<Instr>)
    requires Free(g, x) && Free(g, y)
    ensures Free(g, x + y)
  {
    CoversAppend(g, Some({}), x, {}, y, {});
  }

  lemma FreeMark(g: Assumed, l: Lbl)
    requires Plain(l)
    ensures Free(g, [Mark(l)]) && Covers(g, None, [Mark(l)], {}) && AtLabel(g, l) == {}
  {
    LastMark(g, Some({}), l);
    LastMark(g, None, l);
  }

  lemma FreeJump(g: Assumed, l: Lbl)
    requires Plain(l)
    ensures Free(g, [Jmp(l)])
  {
    hide AtLabel;
    FreeMark(g, l);
    FrontJump(g, {}, Jmp(l), [], {});
    assert [Jmp(l)] + [] == [Jmp(l)];
  }

  /** An expression and then a branch on it. */
  lemma FreeTest(g: Assumed, x: Code, thn: Lbl, els: Lbl, next: Lbl)
    requires Covers(g, Some({}), x.instrs, {} + {x.res}) && Plain(thn) && Plain(els) && Plain(next)
    ensures Free(g, x.instrs + [Jnz(T(x.res), thn, els), Mark(next)])
  {
    hide AtLabel, Covers;
    FreeMark(g, thn);
    FreeMark(g, els);
    FreeMark(g, next);
    var c := [Jnz(T(x.res), thn, els), Mark(next)];
    FrontJump(g, {} + {x.res}, c[0], [c[1]], {});
    assert c == [c[0]] + [c[1]];
    CoversAppend(g, Some({}), x.instrs, {} + {x.res}, c, {});
  }

  lemma IfFree(g: Assumed, x: Code, y: StmtCode)
    requires Covers(g, Some({}), x.instrs, {} + {x.res}) && Free(g, y.instrs)
    ensures Free(g, IfCode(x, y).instrs)
  {
    hide Free, Covers;
    var test, last := IfTest(x, IfEnd), [Mark(Lbl(IfEnd, x.next))];
    FreeTest(g, x, Lbl(IfThen, x.next), Lbl(IfEnd, x.next), Lbl(IfThen, x.next));
    FreeMark(g, Lbl(IfEnd, x.next));
    FreeAppend(g, y.instrs, last);
    FreeAppend(g, x.instrs + test, y.instrs + last);
    assert x.instrs + test + (y.instrs + last) == x.instrs + (test + (y.instrs + last));
  }

  lemma JumpFree(g: Assumed, closed: bool, l: Lbl)
    requires Plain(l)
    ensures Free(g, JumpUnless(closed, l))
  {
    hide AtLabel;
    if !closed { FreeJump(g, l); }
  }

  lemma IfElseFree(g: Assumed, x: Code, y: StmtCode, z: StmtCode, closed: bool)
    requires Covers(g, Some({}), x.instrs, {} + {x.res}) && Free(g, y.instrs) && Free(g, z.instrs)
    ensures Free(g, IfElseCode(x, y, z, closed).instrs)
  {
    hide Free, Covers, JumpUnless;
    var test, els, last := IfTest(x, IfElse), [Mark(Lbl(IfElse, x.next))], [Mark(Lbl(IfEnd, x.next))];
    var jmp := JumpUnless(closed, Lbl(IfEnd, x.next));
    FreeTest(g, x, Lbl(IfThen, x.next), Lbl(IfElse, x.next), Lbl(IfThen, x.next));
    FreeMark(g, Lbl(IfEnd, x.next));
    FreeMark(g, Lbl(IfElse, x.next));
    JumpFree(g, closed, Lbl(IfEnd, x.next));
    FreeAppend(g, z.instrs, last);
    FreeAppend(g, els, z.instrs + last);
    FreeAppend(g, jmp, els + (z.instrs + last));
    FreeAppend(g, y.instrs, jmp + (els + (z.instrs + last)));
    FreeAppend(g, x.instrs + test, y.instrs + (jmp + (els + (z.instrs + last))));
    assert x.instrs + test + (y.instrs + (jmp + (els + (z.instrs + last))))
        == x.instrs + (test + (y.instrs + (jmp + (els + (z.instrs + last)))));
  }

  lemma WhileFree(g: Assumed, n: nat, x: Code, y: StmtCode, closed: bool)
    requires Covers(g, Some({}), x.instrs, {} + {x.res}) && Free(g, y.instrs)
    ensures Free(g, WhileCode(n, x, y, closed).instrs)
  {
    hide Free, Covers, JumpUnless;
    var top, last := [Mark(Lbl(WhileCond, n))], [Mark(Lbl(WhileEnd, n))];
    var test, jmp := WhileTest(n, x), JumpUnless(closed, Lbl(WhileCond, n));
    FreeTest(g, x, Lbl(WhileBody, n), Lbl(WhileEnd, n), Lbl(WhileBody, n));
    FreeMark(g, Lbl(WhileCond, n));
    FreeMark(g, Lbl(WhileEnd, n));
    JumpFree(g, closed, Lbl(WhileCond, n));
    FreeAppend(g, jmp, last);
    FreeAppend(g, y.instrs, jmp + last);
    FreeAppend(g, x.instrs + test, y.instrs + (jmp + last));
    assert x.instrs + test + (y.instrs + (jmp + last)) == x.instrs + (test + (y.instrs + (jmp + last)));
    FreeAppend(g, top, x.instrs + (test + (y.instrs + (jmp + last))));
  }

  lemma DoFree(g: Assumed, n: nat, y: StmtCode, x: Code)
    requires Covers(g, Some({}), x.instrs, {} + {x.res}) && Free(g, y.instrs)
    ensures Free(g, DoCode(n, y, x).instrs)
  {
    hide Free, Covers;
    FreeTest(g, x, Lbl(DoBody, n), Lbl(DoEnd, n), Lbl(DoEnd, n));
    FreeMark(g, Lbl(DoBody, n));
    FreeMark(g, Lbl(DoCond, n));
    FreeAppend(g, [Mark(Lbl(DoCond, n))], x.instrs + DoTest(n, x));
    FreeAppend(g, y.instrs, [Mark(Lbl(DoCond, n))] + (x.instrs + DoTest(n, x)));
    FreeAppend(g, [Mark(Lbl(DoBody, n))], y.instrs + ([Mark(Lbl(DoCond, n))] + (x.instrs + DoTest(n, x))));
  }

  lemma ForFree(g: Assumed, n: nat, w: Code, x: Code, tested: bool, y: StmtCode, z: Code)
    requires Free(g, w.instrs) && Free(g, x.instrs) && Free(g, y.instrs) && Free(g, z.instrs)
    requires tested ==> Covers(g, Some({}), x.instrs, {} + {x.res})
    ensures Free(g, ForCode(n, w, x, tested, y, z).instrs)
  {
    hide Free, Covers;
    var top, mid, last := [Mark(Lbl(ForCond, n))], [Mark(Lbl(ForPost, n))], ForLast(n);
    var test := ForTest(n, x, tested);
    ForTestFree(g, n, x, tested);
    FreeMark(g, Lbl(ForCond, n));
    FreeMark(g, Lbl(ForPost, n));
    FreeMark(g, Lbl(ForEnd, n));
    FreeJump(g, Lbl(ForCond, n));
    FreeAppend(g, [last[0]], [last[1]]);
    assert last == [last[0]] + [last[1]];
    FreeAppend(g, z.instrs, last);
    FreeAppend(g, mid, z.instrs + last);
    FreeAppend(g, y.instrs, mid + (z.instrs + last));
    FreeAppend(g, x.instrs + test, y.instrs + (mid + (z.instrs + last)));
    assert x.instrs + test + (y.instrs + (mid + (z.instrs + last)))
        == x.instrs + (test + (y.instrs + (mid + (z.instrs + last))));
    FreeAppend(g, top, x.instrs + (test + (y.instrs + (mid + (z.instrs + last)))));
    FreeAppend(g, w.instrs, ForLoop(n, x, tested, y, z));
  }

  lemma ForTestFree(g: Assumed, n: nat, x: Code, tested: bool)
    requires Free(g, x.instrs) && (tested ==> Covers(g, Some({}), x.instrs, {} + {x.res}))
    ensures Free(g, x.instrs + ForTest(n, x, tested))
  {
    hide Covers;
    var body := Mark(Lbl(ForBody, n));
    if tested {
      FreeTest(g, x, Lbl(ForBody, n), Lbl(ForEnd, n), Lbl(ForBody, n));
      assert ForTest(n, x, tested) == [Jnz(T(x.res), Lbl(ForBody, n), Lbl(ForEnd, n)), body];
    } else {
      FreeMark(g, Lbl(ForBody, n));
      FreeAppend(g, x.instrs, [body]);
      assert ForTest(n, x, tested) == [body];
    }
  }

  lemma ReturnFree(g: Assumed, x: Code, rt: Ty)
    requires Covers(g, Some({}), x.instrs, {} + {x.res})
    ensures Free(g, ReturnCode(x, rt).instrs)
  {
    var i := Ret(rt, T(x.res));
    FrontJump(g, {} + {x.res}, i, [], {});
    assert [i] + [] == [i];
    CoversAppend(g, Some({}), x.instrs, {} + {x.res}, [i], {});
  }

  /** What is written by an expression statement is not needed later. */
  lemma Dropped(g: Assumed, code: seq<Instr>, out: set<nat>)
    requires Covers(g, Some({}), code, out)
    ensures Free(g, code)
  {
    CoversMore(g, Some({}), Some({}), code, out, {});
  }

  lemma OptAssigned(e: Option<TExpr>, n: nat) returns (g: Assumed)
    ensures Sure(g, n, EmitOpt(e, n).next, {}, EmitOpt(e, n).instrs, if e.Some? then {} + {EmitOpt(e, n).res} else {})
  {
    hide Agrees, AtLabel;
    g := map[];
    if e.Some? { g := ExprAssigned(e.value, n, {}); }
  }

  /** The code of a statement reads only what it writes itself. */
  lemma {:induction false} StmtAssigned(s: TStmt, n: nat, ctx: seq<LoopCtx>, rt: Ty) returns (g: Assumed)
    ensures StmtSure(g, EmitStmt(s, n, ctx, rt), n)
    decreases s, 1
  {
    hide Covers, AtLabel, Agrees, EmitExpr, IfCode, IfElseCode, WhileCode, DoCode, ForCode, ReturnCode, AssignCode;
    var c := EmitStmt(s, n, ctx, rt);
    if s.TEval? {
      g := OptAssigned(s.e, n);
      forall h: Assumed | Agrees(h, g, n, c.next) ensures Free(h, c.instrs) {
        Dropped(h, c.instrs, if s.e.Some? then {} + {EmitOpt(s.e, n).res} else {});
      }
    }
    else if s.TBlock? { g := StmtsAssigned(s.stmts, n, ctx, rt); }
    else if s.TIf? { g := IfAssigned(s, n, ctx, rt); }
    else if s.TWhile? || s.TDo? { g := LoopAssigned(s, n, ctx, rt); }
    else if s.TFor? { g := ForAssigned(s, n, ctx, rt); }
    else if s.TReturn? {
      g := ExprAssigned(s.value, n, {});
      ReturnNext(EmitExpr(s.value, n), rt);
      forall h: Assumed | Agrees(h, g, n, c.next) ensures Free(h, c.instrs) {
        ReturnFree(h, EmitExpr(s.value, n), rt);
      }
    }
    else if s.TDecl? { g := DeclAssigned(s, n, ctx, rt); }
    else {
      g := map[];
      forall h: Assumed | Agrees(h, g, n, c.next) ensures Free(h, c.instrs) {
        JumpCodeFree(h, ctx, n, if s.TBreak? then WhileEnd else WhileCond);
      }
    }
  }

  lemma ReturnNext(x: Code, rt: Ty)
    ensures ReturnCode(x, rt).next == x.next
  {
  }

  lemma JumpCodeFree(g: Assumed, ctx: seq<LoopCtx>, n: nat, kind: LabelKind)
    requires kind in {WhileEnd, WhileCond}
    ensures Free(g, JumpCode(ctx, n, kind).instrs)
  {
    hide AtLabel;
    if ctx != [] { FreeJump(g, JumpCode(ctx, n, kind).instrs[0].l); }
  }

  lemma DeclAssigned(s: TStmt, n: nat, ctx: seq<LoopCtx>, rt: Ty) returns (g: Assumed)
    requires s.TDecl?
    ensures StmtSure(g, EmitStmt(s, n, ctx, rt), n)
  {
    hide Covers, AtLabel, Agrees, AssignCode;
    var c := EmitStmt(s, n, ctx, rt);
    g := map[];
    if s.initial.Some? {
      var x := TAssign(None, s.id, s.ty, s.initial.value);
      g := ExprAssigned(x, n, {});
      forall h: Assumed | Agrees(h, g, n, c.next) ensures Free(h, c.instrs) {
        Dropped(h, c.instrs, {} + {EmitExpr(x, n).res});
      }
    } else {
      forall h: Assumed | Agrees(h, g, n, c.next) ensures Free(h, c.instrs) { Empty(h); }
    }
  }

  lemma Empty(g: Assumed)
    ensures Free(g, [])
  {
  }

  lemma {:induction false} IfAssigned(s: TStmt, n: nat, ctx: seq<LoopCtx>, rt: Ty) returns (g: Assumed)
    requires s.TIf?
    ensures StmtSure(g, EmitStmt(s, n, ctx, rt), n)
    decreases s, 0
  {
    hide Covers, AtLabel, Agrees, EmitExpr, IfCode, IfElseCode;
    var x := EmitExpr(s.cond, n);
    var y := EmitStmt(s.thn, x.next + 1, ctx, rt);
    var a := ExprAssigned(s.cond, n, {});
    var b := StmtAssigned(s.thn, x.next + 1, ctx, rt);
    if s.els.Some? {
      var d := StmtAssigned(s.els.value, y.next, ctx, rt);
      g := a + (b + d);
      IfElseSure(a, b, d, n, x, y, EmitStmt(s.els.value, y.next, ctx, rt), EndsInTerminator(s.thn));
    } else {
      g := a + b;
      IfSure(a, b, n, x, y);
    }
  }

  lemma IfSure(a: Assumed, b: Assumed, n: nat, x: Code, y: StmtCode)
    requires Sure(a, n, x.next, {}, x.instrs, {} + {x.res}) && StmtSure(b, y, x.next + 1) && n <= x.next < y.next
    ensures StmtSure(a + b, IfCode(x, y), n)
  {
    hide Covers, AtLabel, Agrees;
    Shift(b, x.next, x.next + 1, y.next);
    KeysInside(a, b, n, x.next, y.next, y.next);
    forall h: Assumed | Agrees(h, a + b, n, y.next) ensures Free(h, IfCode(x, y).instrs) {
      Together(h, a, b, n, x.next, y.next);
      Within(h, b, x.next, x.next + 1, y.next, y.next);
      IfFree(h, x, y);
    }
  }

  lemma IfElseSure(a: Assumed, b: Assumed, d: Assumed, n: nat, x: Code, y: StmtCode, z: StmtCode, closed: bool)
    requires Sure(a, n, x.next, {}, x.instrs, {} + {x.res}) && StmtSure(b, y, x.next + 1) && StmtSure(d, z, y.next)
    requires n <= x.next < y.next <= z.next
    ensures StmtSure(a + (b + d), IfElseCode(x, y, z, closed), n)
  {
    hide Covers, AtLabel, Agrees;
    var g := a + (b + d);
    Shift(b, x.next, x.next + 1, y.next);
    KeysInside(b, d, x.next, y.next, z.next, z.next);
    KeysInside(a, b + d, n, x.next, z.next, z.next);
    forall h: Assumed | Agrees(h, g, n, z.next) ensures Free(h, IfElseCode(x, y, z, closed).instrs) {
      Together(h, a, b + d, n, x.next, z.next);
      Together(h, b, d, x.next, y.next, z.next);
      Within(h, b, x.next, x.next + 1, y.next, y.next);
      IfElseFree(h, x, y, z, closed);
    }
  }

  lemma Shift(g: Assumed, lo: nat, lo': nat, hi: nat)
    requires Inside(g, lo', hi) && lo <= lo'
    ensures Inside(g, lo, hi)
  {
  }

  lemma {:induction false} LoopAssigned(s: TStmt, n: nat, ctx: seq<LoopCtx>, rt: Ty) returns (g: Assumed)
    requires s.TWhile? || s.TDo?
    ensures StmtSure(g, EmitStmt(s, n, ctx, rt), n)
    decreases s, 0
  {
    hide Covers, AtLabel, Agrees, EmitExpr;
    var inside := ctx + [LoopCtx(n, n)];
    var c := EmitStmt(s, n, ctx, rt);
    if s.TWhile? {
      var x := EmitExpr(s.cond, n + 1);
      var y := EmitStmt(s.body, x.next, inside, rt);
      var a := ExprAssigned(s.cond, n + 1, {});
      var b := StmtAssigned(s.body, x.next, inside, rt);
      g := a + b;
      KeysInside(a, b, n + 1, x.next, y.next, y.next);
      Shift(g, n, n + 1, y.next);
      forall h: Assumed | Agrees(h, g, n, c.next) ensures Free(h, c.instrs) {
        Within(h, g, n, n + 1, y.next, c.next);
        Together(h, a, b, n + 1, x.next, y.next);
        WhileFree(h, n, x, y, EndsInTerminator(s.body));
      }
    } else {
      var y := EmitStmt(s.body, n + 1, inside, rt);
      var x := EmitExpr(s.cond, y.next);
      var b := StmtAssigned(s.body, n + 1, inside, rt);
      var a := ExprAssigned(s.cond, y.next, {});
      g := b + a;
      KeysInside(b, a, n + 1, y.next, x.next, x.next);
      Shift(g, n, n + 1, x.next);
      forall h: Assumed | Agrees(h, g, n, c.next) ensures Free(h, c.instrs) {
        Within(h, g, n, n + 1, x.next, c.next);
        Together(h, b, a, n + 1, y.next, x.next);
        DoFree(h, n, y, x);
      }
    }
  }

  lemma {:induction false} ForAssigned(s: TStmt, n: nat, ctx: seq<LoopCtx>, rt: Ty) returns (g: Assumed)
    requires s.TFor?
    ensures StmtSure(g, EmitStmt(s, n, ctx, rt), n)
    decreases s, 0
  {
    hide Covers, AtLabel, Agrees, EmitExpr, EmitOpt;
    var w := EmitOpt(s.init, n + 1);
    var x := EmitOpt(s.test, w.next);
    var y := EmitStmt(s.body, x.next, ctx + [LoopCtx(n, n)], rt);
    var z := EmitOpt(s.post, y.next);
    var c := EmitStmt(s, n, ctx, rt);
    var g0 := OptAssigned(s.init, n + 1);
    var g1 := OptAssigned(s.test, w.next);
    var g2 := StmtAssigned(s.body, x.next, ctx + [LoopCtx(n, n)], rt);
    var g3 := OptAssigned(s.post, y.next);
    g := g0 + (g1 + (g2 + g3));
    KeysInside(g2, g3, x.next, y.next, z.next, z.next);
    KeysInside(g1, g2 + g3, w.next, x.next, z.next, z.next);
    KeysInside(g0, g1 + (g2 + g3), n + 1, w.next, z.next, z.next);
    Shift(g, n, n + 1, z.next);
    forall h: Assumed | Agrees(h, g, n, c.next) ensures Free(h, c.instrs) {
      Within(h, g, n, n + 1, z.next, c.next);
      Together(h, g0, g1 + (g2 + g3), n + 1, w.next, z.next);
      Together(h, g1, g2 + g3, w.next, x.next, z.next);
      Together(h, g2, g3, x.next, y.next, z.next);
      Dropped(h, w.instrs, if s.init.Some? then {} + {w.res} else {});
      Dropped(h, x.instrs, if s.test.Some? then {} + {x.res} else {});
      Dropped(h, z.instrs, if s.post.Some? then {} + {z.res} else {});
      ForFree(h, n, w, x, s.test.Some?, y, z);
    }
  }

  lemma {:induction false} StmtsAssigned(ss: seq<TStmt>, n: nat, ctx: seq<LoopCtx>, rt: Ty) returns (g: Assumed)
    ensures StmtSure(g, EmitStmts(ss, n, ctx, rt), n)
    decreases ss, 2
  {
    hide Covers, AtLabel, Agrees, EmitStmt;
    var c := EmitStmts(ss, n, ctx, rt);
    g := map[];
    if ss == [] {
      forall h: Assumed | Agrees(h, g, n, c.next) ensures Free(h, c.instrs) { Empty(h); }
    } else {
      var x := EmitStmt(ss[0], n, ctx, rt);
      var y := EmitStmts(ss[1..], x.next, ctx, rt);
      var a := StmtAssigned(ss[0], n, ctx, rt);
      var b := StmtsAssigned(ss[1..], x.next, ctx, rt);
      g := a + b;
      KeysInside(a, b, n, x.next, y.next, y.next);
      forall h: Assumed | Agrees(h, g, n, c.next) ensures Free(h, c.instrs) {
        Together(h, a, b, n, x.next, y.next);
        FreeAppend(h, x.instrs, y.instrs);
      }
    }
  }

  // ----- functions and paths -----

  /** An instruction that reads and writes no temporary. */
  lemma FreeOne(g: Assumed, i: Instr)
    requires !i.Mark? && FallsThrough(i) && Uses(i) == {} && Writes(i) == {}
    ensures Free(g, [i])
  {
    hide Uses, Writes;
    One(g, {}, i, {});
  }

  lemma {:induction false} ParamsFree(g: Assumed, ps: seq<TParam>)
    ensures Free(g, EmitParams(ps))
  {
    hide Covers, Free;
    if ps == [] {
      Empty(g);
    } else {
      ParamsFree(g, ps[1..]);
      var a, b := Alloc(ps[0].id, Size(ps[0].ty)), Store(ps[0].ty, P(ps[0].id), V(ps[0].id));
      FreeOne(g, a);
      FreeOne(g, b);
      FreeAppend(g, [a], [b]);
      assert [a] + [b] == [a, b];
      FreeAppend(g, [a, b], EmitParams(ps[1..]));
    }
  }

  lemma {:induction false} LocalsFree(g: Assumed, ss: seq<TStmt>)
    ensures Free(g, EmitLocals(ss))
  {
    hide Covers, Free;
    Empty(g);
    if ss != [] {
      LocalsFree(g, ss[1..]);
      if ss[0].TDecl? {
        FreeOne(g, Alloc(ss[0].id, Size(ss[0].ty)));
        FreeAppend(g, [Alloc(ss[0].id, Size(ss[0].ty))], EmitLocals(ss[1..]));
      } else {
        FreeAppend(g, [], EmitLocals(ss[1..]));
      }
    }
  }

  lemma FunctionCovered(f: TFunc) returns (g: Assumed)
    requires EmitFunc(f).Some?
    ensures Covers(g, Some({}), EmitFunc(f).value, {})
  {
    hide Covers, AtLabel, EmitStmts, EmitParams, EmitLocals;
    var b := EmitStmts(f.body, 0, [], f.result);
    g := StmtsAssigned(f.body, 0, [], f.result);
    assert Agrees(g, g, 0, b.next);
    var last := if ListEndsInTerminator(f.body) then [] else [RetConst(f.result, 0)];
    LastFree(g, f);
    FreeMark(g, Lbl(Start, 0));
    ParamsFree(g, f.params);
    LocalsFree(g, f.body);
    FreeAppend(g, EmitParams(f.params), EmitLocals(f.body));
    FreeAppend(g, [Mark(Lbl(Start, 0))], EmitParams(f.params) + EmitLocals(f.body));
    FreeAppend(g, b.instrs, last);
    FreeAppend(g, Prologue(f), b.instrs + last);
  }

  lemma LastFree(g: Assumed, f: TFunc)
    ensures Free(g, if ListEndsInTerminator(f.body) then [] else [RetConst(f.result, 0)])
  {
    hide AtLabel;
    var i := RetConst(f.result, 0);
    FrontJump(g, {}, i, [], {});
    assert [i] + [] == [i];
  }

  /** What is assumed written before instruction `i`. */
  function Before(g: Assumed, s: Option<set<nat>>, code: seq<Instr>, i: nat): Option<set<nat>>
    requires i <= |code|
    decreases |code|
  {
    if i == 0 then s
    else Before(g, if code[0].Mark? then Some(AtLabel(g, code[0].l)) else Next(s, code[0]), code[1..], i - 1)
  }

  lemma {:induction false} BeforeFine(g: Assumed, s: Option<set<nat>>, code: seq<Instr>, out: set<nat>, i: nat)
    requires Covers(g, s, code, out) && i < |code|
    ensures Fine(g, Before(g, s, code, i), code[i])
    decreases |code|
  {
    hide Fine, Next, AtLabel;
    if i > 0 {
      BeforeFine(g, if code[0].Mark? then Some(AtLabel(g, code[0].l)) else Next(s, code[0]), code[1..], out, i - 1);
    }
  }

  lemma {:induction false} BeforeNext(g: Assumed, s: Option<set<nat>>, code: seq<Instr>, i: nat)
    requires i < |code|
    ensures Before(g, s, code, i + 1)
         == if code[i].Mark? then Some(AtLabel(g, code[i].l)) else Next(Before(g, s, code, i), code[i])
    decreases |code|
  {
    hide Next, AtLabel;
    var t := if code[0].Mark? then Some(AtLabel(g, code[0].l)) else Next(s, code[0]);
    if i > 0 { BeforeNext(g, t, code[1..], i - 1); }
  }

  /** Enough is written for going on at `pc`. */
  predicate Enough(g: Assumed, code: seq<Instr>, pc: nat, w: set<nat>)
    requires pc < |code|
  {
    if code[pc].Mark? then AtLabel(g, code[pc].l) <= w
    else Before(g, Some({}), code, pc).Some? && Before(g, Some({}), code, pc).value <= w
  }

  lemma EnoughMoves(g: Assumed, code: seq<Instr>, pc: nat, to: nat, w: set<nat>)
    requires Covers(g, Some({}), code, {}) && Moves(code, pc, to) && Enough(g, code, pc, w)
    ensures Enough(g, code, to, w + Writes(code[pc]))
  {
    hide AtLabel, Covers, Uses, Writes, Before;
    BeforeFine(g, Some({}), code, {}, pc);
    BeforeFine(g, Some({}), code, {}, to);
    BeforeNext(g, Some({}), code, pc);
    NoExits(code[pc]);
  }

  lemma {:induction false} PathEnough(g: Assumed, code: seq<Instr>, path: seq<nat>)
    requires Covers(g, Some({}), code, {}) && IsPath(code, path)
    ensures (forall k :: 0 <= k < |path| ==> path[k] < |code|)
      && Enough(g, code, path[|path| - 1], WrittenOn(code, path))
    decreases |path|
  {
    hide Covers, Enough, Writes;
    var n := |path| - 1;
    if n == 0 {
      StartEnough(g, code);
    } else {
      var init := path[..n];
      assert IsPath(code, init);
      PathEnough(g, code, init);
      assert Moves(code, path[n - 1], path[n]);
      EnoughMoves(g, code, path[n - 1], path[n], WrittenOn(code, init));
    }
  }

  lemma StartEnough(g: Assumed, code: seq<Instr>)
    requires code != [] && Covers(g, Some({}), code, {})
    ensures Enough(g, code, 0, {})
  {
    hide AtLabel;
  }

  /** Main result: wherever a path through a compiled function leads, what is read there was written on the way. */
  lemma NothingReadUnwritten(f: TFunc, path: seq<nat>)
    requires EmitFunc(f).Some? && IsPath(EmitFunc(f).value, path)
    ensures forall k :: 0 <= k < |path| ==> path[k] < |EmitFunc(f).value|
    ensures Uses(EmitFunc(f).value[path[|path| - 1]]) <= WrittenOn(EmitFunc(f).value, path)
  {
    hide EmitFunc, Covers, Before, AtLabel, WrittenOn;
    var g := FunctionCovered(f);
    var code := EmitFunc(f).value;
    PathEnough(g, code, path);
    BeforeFine(g, Some({}), code, {}, path[|path| - 1]);
  }

  // ----- runs -----

  lemma StepMoves(code: seq<Instr>, c: Config)
    requires c.Running? && c.pc < |code| && Step(code, c).Running? && Step(code, c).pc < |code|
    ensures Moves(code, c.pc, Step(code, c).pc)
    ensures forall x :: x in c.regs ==> x in Step(code, c).regs
    ensures forall n :: n in Writes(code[c.pc]) ==> T(n) in Step(code, c).regs
  {
    hide Machine, Read, FindFrom;
    var i := code[c.pc];
    if i.Jnz? {
      FoundMark(code, i.thn, 0);
      FoundMark(code, i.els, 0);
    }
    if i.Jmp? { FoundMark(code, i.l, 0); }
  }

  lemma {:induction false} FoundMark(code: seq<Instr>, l: Lbl, i: nat)
    ensures FindFrom(code, l, i).Some? ==>
      FindFrom(code, l, i).value < |code| && code[FindFrom(code, l, i).value] == Mark(l)
    decreases |code| - i
  {
    if i < |code| { FoundMark(code, l, i + 1); }
  }

  /** A run follows a path, and what the path wrote has a value. */
  lemma {:induction false} RunPath(code: seq<Instr>, c: Config, k: nat) returns (path: seq<nat>)
    requires c.Running? && c.pc == 0 && Run(code, k, c).Running? && Run(code, k, c).pc < |code|
    ensures IsPath(code, path) && path[|path| - 1] == Run(code, k, c).pc
      && forall i :: 0 <= i < |path| ==> path[i] < |code|
    ensures forall n :: n in WrittenOn(code, path) ==> T(n) in Run(code, k, c).regs
    decreases k
  {
    hide Step, Writes, Moves;
    if k == 0 {
      path := [0];
    } else {
      RunAdd(code, k - 1, 1, c);
      var b := Run(code, k - 1, c);
      LastStep(code, b);
      var init := RunPath(code, c, k - 1);
      StepMoves(code, b);
      path := init + [Step(code, b).pc];
      assert path[..|path| - 1] == init;
    }
  }

  lemma LastStep(code: seq<Instr>, b: Config)
    requires Run(code, 1, b).Running?
    ensures b.Running? && b.pc < |code| && Run(code, 1, b) == Step(code, b)
  {
    hide Machine, Read, FindFrom;
    assert Run(code, 1, b) == Run(code, 0, Step(code, b));
  }

  /**
   No run of a compiled function, whatever its arguments, comes to an instruction that reads an unwritten
   temporary.
   */
  lemma RunsReadWritten(f: TFunc, c: Config, k: nat)
    requires EmitFunc(f).Some? && c.Running? && c.pc == 0
    requires Run(EmitFunc(f).value, k, c).Running? && Run(EmitFunc(f).value, k, c).pc < |EmitFunc(f).value|
    ensures
      var d := Run(EmitFunc(f).value, k, c);
      forall n :: n in Uses(EmitFunc(f).value[d.pc]) ==> T(n) in d.regs
  {
    hide EmitFunc, Run, Uses, WrittenOn, Moves;
    var path := RunPath(EmitFunc(f).value, c, k);
    NothingReadUnwritten(f, path);
  }
}
