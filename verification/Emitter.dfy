/**
 The emitter of qbe.c as it runs: instructions are appended to the output, one counter
 numbers temporaries and labels, a stack holds the enclosing loops.
 */
module Emitter {
  import opened Options
  import opened Words
  import opened Typed
  import opened Il
  import opened Codegen

  lemma Assoc(a: seq<Instr>, b: seq<Instr>, c: seq<Instr>)
    ensures a + b + c == a + (b + c)
  {
  }

  class Emitter {
    var out: seq<Instr>
    var tmp: nat
    var ctx: seq<LoopCtx>
    const rt: Ty

    constructor (result: Ty)
      ensures out == [] && tmp == 0 && ctx == [] && rt == result
    {
      out, tmp, ctx, rt := [], 0, [], result;
    }

    method NewTmp() returns (t: nat)
      modifies this`tmp
      ensures t == old(tmp) && tmp == t + 1
    {
      t := tmp;
      tmp := tmp + 1;
    }

    /** The code printed since `start` is `code`. */
    ghost predicate Printed(start: seq<Instr>, code: seq<Instr>)
      reads this`out
    {
      out == start + code
    }

    method Print(i: Instr, ghost start: seq<Instr>, ghost code: seq<Instr>)
      requires Printed(start, code)
      modifies this`out
      ensures Printed(start, code + [i])
    {
      out := out + [i];
    }

    method LvalueAddr(id: nat, ghost start: seq<Instr>, ghost code: seq<Instr>) returns (t: nat)
      requires Printed(start, code)
      modifies this`out, this`tmp
      ensures t == old(tmp) && tmp == t + 1 && Printed(start, code + AddressOf(t, id))
    {
      t := NewTmp();
      Print(Copy(T(t), Long, V(id)), start, code);
    }

    method LoadFromAddr(addr: nat, ty: Ty, ghost start: seq<Instr>, ghost code: seq<Instr>) returns (t: nat)
      requires Printed(start, code)
      modifies this`out, this`tmp
      ensures t == old(tmp) && tmp == t + 1 && Printed(start, code + [Load(T(t), ty, T(addr))])
    {
      t := NewTmp();
      Print(Load(T(t), ty, T(addr)), start, code);
    }

    /** The code of a sub-expression, after `code`. */
    method SubExpr(e: TExpr, ghost start: seq<Instr>, ghost code: seq<Instr>) returns (t: nat)
      requires Printed(start, code)
      modifies this`out, this`tmp
      ensures
        var c := EmitExpr(e, old(tmp));
        t == c.res && tmp == c.next && Printed(start, code + c.instrs)
      decreases e, 1
    {
      t := ExprVal(e);
      Assoc(start, code, EmitExpr(e, old(tmp)).instrs);
    }

    /** Emits code for `e`; the result is the temporary that holds its value. */
    method ExprVal(e: TExpr) returns (t: nat)
      modifies this`out, this`tmp
      ensures
        var c := EmitExpr(e, old(tmp));
        t == c.res && tmp == c.next && out == old(out) + c.instrs
      decreases e, 0
    {
      hide CastCode, ArithCode, CompareCode, LogicCode, CompoundCode, AssignCode, PostfixCode, CondCode;
      ghost var start := out;
      ghost var n := tmp;
      match e
      case TLit(v, ty) =>
        t := NewTmp();
        Print(Const(T(t), ty, v), start, []);
      case TVar(id, ty) =>
        var addr := LvalueAddr(id, start, []);
        t := LoadFromAddr(addr, ty, start, [] + AddressOf(addr, id));
      case TCast(x, to) => t := CastVal(x, to);
      case TArith(op, l, r) => t := BinaryVal(e, l, r);
      case TCompare(cmp, l, r) => t := BinaryVal(e, l, r);
      case TLogic(isAnd, l, r) => t := ShortCircuit(isAnd, l, r);
      case TAssign(aop, id, ty, rhs) => t := AssignVal(aop, id, ty, rhs);
      case TPostfix(inc, id, ty) => t := PostfixVal(inc, id, ty);
      case TCond(c, a, b, ty) => t := ConditionalVal(c, a, b, ty);
      case TComma(l, r) =>
        var a := SubExpr(l, start, []);
        ghost var c := EmitExpr(l, n);
        t := SubExpr(r, start, [] + c.instrs);
        Nothing(c.instrs);
    }

    method CastVal(x: TExpr, to: Ty) returns (t: nat)
      modifies this`out, this`tmp
      ensures
        var c := CastCode(EmitExpr(x, old(tmp)), to, TypeOf(x));
        t == c.res && tmp == c.next && out == old(out) + c.instrs
      decreases TCast(x, to), 0, 0
    {
      hide EmitExpr;
      ghost var start := out;
      ghost var c := EmitExpr(x, tmp);
      var src := SubExpr(x, start, []);
      Nothing(c.instrs);
      t := NewTmp();
      Print(Convert(t, to, src, TypeOf(x)), start, c.instrs);
    }

    /** An arithmetic or comparison operator `e` on `l` and `r`. */
    method BinaryVal(e: TExpr, l: TExpr, r: TExpr) returns (t: nat)
      requires (e.TArith? || e.TCompare?) && e.l == l && e.r == r
      modifies this`out, this`tmp
      ensures
        var c := EmitExpr(l, old(tmp));
        var d := EmitExpr(r, c.next);
        var z := if e.TArith? then ArithCode(e.op, TypeOf(l), c, d) else CompareCode(e.cmp, TypeOf(l), c, d);
        t == z.res && tmp == z.next && out == old(out) + z.instrs
      decreases e, 0, 0
    {
      hide EmitExpr;
      ghost var start := out;
      ghost var c := EmitExpr(l, tmp);
      ghost var d := EmitExpr(r, c.next);
      var a := SubExpr(l, start, []);
      Nothing(c.instrs);
      var b := SubExpr(r, start, c.instrs);
      t := NewTmp();
      var i := if e.TArith? then Bin(T(t), TypeOf(l), e.op, T(a), T(b)) else Cmp(T(t), e.cmp, TypeOf(l), T(a), T(b));
      Print(i, start, c.instrs + d.instrs);
      Assoc(c.instrs, d.instrs, [i]);
    }

    method ShortCircuit(isAnd: bool, l: TExpr, r: TExpr) returns (t: nat)
      modifies this`out, this`tmp
      ensures
        var c := EmitExpr(l, old(tmp) + 2);
        var z := LogicCode(isAnd, old(tmp), c, EmitExpr(r, c.next));
        t == z.res && tmp == z.next && out == old(out) + z.instrs
      decreases TLogic(isAnd, l, r), 0, 0
    {
      hide EmitExpr, LogicCode, LogicTest, LogicEnd;
      ghost var start := out;
      var id := NewTmp();
      t := NewTmp();
      ghost var c := EmitExpr(l, id + 2);
      ghost var d := EmitExpr(r, c.next);
      var a := SubExpr(l, start, []);
      Nothing(c.instrs);
      PrintTest(isAnd, id, t, a, start, c.instrs);
      var b := SubExpr(r, start, c.instrs + LogicTest(isAnd, id, a));
      var rc := NewTmp();
      PrintEnd(id, t, rc, b, d, start, c.instrs + LogicTest(isAnd, id, a) + d.instrs);
      LogicParts(isAnd, id, c, d);
    }

    method PrintTest(isAnd: bool, id: nat, t: nat, a: nat, ghost start: seq<Instr>, ghost code: seq<Instr>)
      requires Printed(start, code) && t == id + 1
      modifies this`out
      ensures Printed(start, code + LogicTest(isAnd, id, a))
    {
      var rhs, end := Lbl(ScRhs, id), Lbl(ScEnd, id);
      var init := Const(T(t), Int, Truth(!isAnd));
      var test := if isAnd then Jnz(T(a), rhs, end) else Jnz(T(a), end, rhs);
      Print(init, start, code);
      Print(test, start, code + [init]);
      Print(Mark(rhs), start, code + [init] + [test]);
      assert code + [init] + [test] + [Mark(rhs)] == code + LogicTest(isAnd, id, a);
    }

    method PrintEnd(id: nat, t: nat, rc: nat, b: nat, ghost d: Code, ghost start: seq<Instr>, ghost code: seq<Instr>)
      requires Printed(start, code) && t == id + 1 && d.res == b && d.next == rc
      modifies this`out
      ensures Printed(start, code + LogicEnd(id, d))
    {
      var i0, i1, i2 := Cnew0(T(rc), T(b)), Copy(T(t), Int, T(rc)), Mark(Lbl(ScEnd, id));
      Print(i0, start, code);
      Print(i1, start, code + [i0]);
      Print(i2, start, code + [i0] + [i1]);
      assert code + [i0] + [i1] + [i2] == code + [i0, i1, i2];
    }

    method AssignVal(aop: Option<ArithOp>, id: nat, ty: Ty, rhs: TExpr) returns (t: nat)
      modifies this`out, this`tmp
      ensures
        var c := EmitExpr(rhs, old(tmp) + 1);
        var z := if aop.Some? then CompoundCode(aop.value, old(tmp), id, ty, c) else AssignCode(old(tmp), id, ty, c);
        t == z.res && tmp == z.next && out == old(out) + z.instrs
      decreases TAssign(aop, id, ty, rhs), 0, 0
    {
      hide EmitExpr;
      ghost var start := out;
      ghost var n := tmp;
      ghost var c := EmitExpr(rhs, n + 1);
      Nothing(AddressOf(n, id));
      var addr := LvalueAddr(id, start, []);
      t := SubExpr(rhs, start, AddressOf(n, id));
      ghost var code := AddressOf(n, id) + c.instrs;
      if aop.Some? {
        var cur := LoadFromAddr(addr, ty, start, code);
        var load := Load(T(cur), ty, T(addr));
        var v := NewTmp();
        var op := Bin(T(v), ty, aop.value, T(cur), T(t));
        Print(op, start, code + [load]);
        t := v;
        Print(Store(ty, T(t), T(addr)), start, code + [load] + [op]);
        assert [load] + [op] + [Store(ty, T(t), T(addr))] == CompoundEnd(aop.value, ty, n, c);
        Nest3(code, [load], [op], [Store(ty, T(t), T(addr))]);
        Assoc([load], [op], [Store(ty, T(t), T(addr))]);
        Assoc(AddressOf(n, id), c.instrs, CompoundEnd(aop.value, ty, n, c));
      } else {
        Print(Store(ty, T(t), T(addr)), start, code);
        Assoc(AddressOf(n, id), c.instrs, AssignEnd(ty, n, c));
      }
    }

    method PostfixVal(inc: bool, id: nat, ty: Ty) returns (t: nat)
      modifies this`out, this`tmp
      ensures
        var c := PostfixCode(inc, old(tmp), id, ty);
        t == c.res && tmp == c.next && out == old(out) + c.instrs
    {
      ghost var start := out;
      ghost var n := tmp;
      var addr := LvalueAddr(id, start, []);
      t := LoadFromAddr(addr, ty, start, [] + AddressOf(addr, id));
      ghost var code := [] + AddressOf(addr, id) + [Load(T(t), ty, T(addr))];
      var one := NewTmp();
      Print(Const(T(one), ty, 1), start, code);
      code := code + [Const(T(one), ty, 1)];
      var v := NewTmp();
      var add := Bin(T(v), ty, if inc then Add else Sub, T(t), T(one));
      Print(add, start, code);
      Print(Store(ty, T(v), T(addr)), start, code + [add]);
      assert code + [add] + [Store(ty, T(v), T(addr))] == PostfixCode(inc, n, id, ty).instrs;
    }

    method ConditionalVal(c: TExpr, a: TExpr, b: TExpr, ty: Ty) returns (t: nat)
      modifies this`out, this`tmp
      ensures
        var x := EmitExpr(c, old(tmp));
        var y := EmitExpr(a, x.next + 2);
        var r := CondCode(x, y, EmitExpr(b, y.next), ty);
        t == r.res && tmp == r.next && out == old(out) + r.instrs
      decreases TCond(c, a, b, ty), 0, 0
    {
      hide EmitExpr;
      ghost var start := out;
      ghost var x := EmitExpr(c, tmp);
      ghost var y := EmitExpr(a, x.next + 2);
      ghost var z := EmitExpr(b, y.next);
      var test := SubExpr(c, start, []);
      Nothing(x.instrs);
      ghost var code := x.instrs;
      var id := NewTmp();
      t := NewTmp();
      Print2(Jnz(T(test), Lbl(CondThen, id), Lbl(CondElse, id)), Mark(Lbl(CondThen, id)), start, code);
      code := code + CondTest(x);
      var v := SubExpr(a, start, code);
      code := code + y.instrs;
      Print3(Copy(T(t), ty, T(v)), Jmp(Lbl(CondEnd, id)), Mark(Lbl(CondElse, id)), start, code);
      code := code + CondMiddle(x, y, ty);
      var w := SubExpr(b, start, code);
      code := code + z.instrs;
      Print2(Copy(T(t), ty, T(w)), Mark(Lbl(CondEnd, id)), start, code);
      Nest5(x.instrs, CondTest(x), y.instrs, CondMiddle(x, y, ty), z.instrs, CondLast(x, z, ty));
    }

    method Print2(i: Instr, j: Instr, ghost start: seq<Instr>, ghost code: seq<Instr>)
      requires Printed(start, code)
      modifies this`out
      ensures Printed(start, code + [i, j])
    {
      Print(i, start, code);
      Print(j, start, code + [i]);
      assert code + [i] + [j] == code + [i, j];
    }

    method Print3(i: Instr, j: Instr, k: Instr, ghost start: seq<Instr>, ghost code: seq<Instr>)
      requires Printed(start, code)
      modifies this`out
      ensures Printed(start, code + [i, j, k])
    {
      Print2(i, j, start, code);
      Print(k, start, code + [i, j]);
      assert code + [i, j] + [k] == code + [i, j, k];
    }

    // ----- statements -----

    /** An optional expression, after `code`. */
    method SubOpt(e: Option<TExpr>, ghost start: seq<Instr>, ghost code: seq<Instr>) returns (t: nat)
      requires Printed(start, code)
      modifies this`out, this`tmp
      ensures
        var c := EmitOpt(e, old(tmp));
        t == c.res && tmp == c.next && Printed(start, code + c.instrs)
    {
      match e
      case None =>
        t := tmp;
        Nothing(code);
      case Some(x) => t := SubExpr(x, start, code);
    }

    /** A sub-statement, after `code`. */
    method SubStmt(s: TStmt, ghost start: seq<Instr>, ghost code: seq<Instr>) returns (ok: bool)
      requires Printed(start, code)
      modifies this
      ensures
        var c := EmitStmt(s, old(tmp), old(ctx), rt);
        ok == c.ok && (ok ==> tmp == c.next && ctx == old(ctx) && Printed(start, code + c.instrs))
      decreases s, 1
    {
      ghost var c := EmitStmt(s, tmp, ctx, rt);
      ok := Statement(s);
      if ok { Assoc(start, code, c.instrs); }
    }

    /** Emits code for `s`; `ok` is false when the compiler exits with an error. */
    method Statement(s: TStmt) returns (ok: bool)
      modifies this
      ensures
        var c := EmitStmt(s, old(tmp), old(ctx), rt);
        ok == c.ok && (ok ==> tmp == c.next && ctx == old(ctx) && out == old(out) + c.instrs)
      decreases s, 0
    {
      hide EmitExpr, IfCode, IfElseCode, WhileCode, DoCode, ForCode, AssignCode;
      ghost var start := out;
      match s
      case TEval(e) =>
        ghost var c := EmitOpt(e, tmp);
        var t := SubOpt(e, start, []);
        Nothing(c.instrs);
        ok := true;
      case TBlock(ss) => ok := Block(ss);
      case TIf(c, t, els) =>
        if els.Some? { ok := IfElseStatement(c, t, els.value); } else { ok := IfStatement(c, t); }
      case TWhile(c, body) => ok := WhileStatement(c, body);
      case TDo(body, c) => ok := DoStatement(body, c);
      case TFor(i, c, p, body) => ok := ForStatement(i, c, p, body);
      case TReturn(e) =>
        ghost var c := EmitExpr(e, tmp);
        var t := SubExpr(e, start, []);
        Nothing(c.instrs);
        Print(Ret(rt, T(t)), start, c.instrs);
        ok := true;
      case TBreak =>
        if ctx == [] { return false; }
        Print(Jmp(Lbl(WhileEnd, ctx[|ctx| - 1].breakId)), start, []);
        ok := true;
      case TContinue =>
        if ctx == [] { return false; }
        Print(Jmp(Lbl(WhileCond, ctx[|ctx| - 1].continueId)), start, []);
        ok := true;
      case TDecl(id, ty, e) =>
        if e.Some? { var t := AssignVal(None, id, ty, e.value); }
        ok := true;
    }

    method Block(ss: seq<TStmt>) returns (ok: bool)
      modifies this
      ensures
        var c := EmitStmts(ss, old(tmp), old(ctx), rt);
        ok == c.ok && (ok ==> tmp == c.next && ctx == old(ctx) && out == old(out) + c.instrs)
      decreases ss
    {
      hide EmitStmt;
      ghost var start := out;
      ghost var all := EmitStmts(ss, tmp, ctx, rt);
      var i := 0;
      assert ss[0..] == ss;
      while i < |ss|
        invariant 0 <= i <= |ss| && ctx == old(ctx)
        invariant
          var rest := EmitStmts(ss[i..], tmp, ctx, rt);
          out + rest.instrs == start + all.instrs && rest.next == all.next && rest.ok == all.ok
        decreases |ss| - i
      {
        ghost var x := EmitStmt(ss[i], tmp, ctx, rt);
        ghost var rest := EmitStmts(ss[i + 1..], x.next, ctx, rt);
        ghost var before := out;
        assert ss[i..][0] == ss[i] && ss[i..][1..] == ss[i + 1..];
        assert EmitStmts(ss[i..], tmp, ctx, rt) == SeqCode(x, rest);
        ok := Statement(ss[i]);
        if !ok { return; }
        Assoc(before, x.instrs, rest.instrs);
        i := i + 1;
      }
      assert ss[i..] == [];
      Nothing(out);
      ok := true;
    }

    method IfStatement(c: TExpr, t: TStmt) returns (ok: bool)
      modifies this
      ensures
        var x := EmitExpr(c, old(tmp));
        var z := IfCode(x, EmitStmt(t, x.next + 1, old(ctx), rt));
        ok == z.ok && (ok ==> tmp == z.next && ctx == old(ctx) && out == old(out) + z.instrs)
      decreases t, 2
    {
      hide EmitExpr, EmitStmt;
      ghost var start := out;
      ghost var x := EmitExpr(c, tmp);
      ghost var y := EmitStmt(t, x.next + 1, ctx, rt);
      var test := SubExpr(c, start, []);
      Nothing(x.instrs);
      var id := NewTmp();
      Print2(Jnz(T(test), Lbl(IfThen, id), Lbl(IfEnd, id)), Mark(Lbl(IfThen, id)), start, x.instrs);
      ok := SubStmt(t, start, x.instrs + IfTest(x, IfEnd));
      if !ok { return; }
      Print(Mark(Lbl(IfEnd, id)), start, x.instrs + IfTest(x, IfEnd) + y.instrs);
      Nest3(x.instrs, IfTest(x, IfEnd), y.instrs, [Mark(Lbl(IfEnd, id))]);
    }

    /** A jump printed unless the statement before it ends in a terminator. */
    method PrintJump(closed: bool, l: Lbl, ghost start: seq<Instr>, ghost code: seq<Instr>)
      requires Printed(start, code)
      modifies this`out
      ensures Printed(start, code + JumpUnless(closed, l))
    {
      if closed { Nothing(code); } else { Print(Jmp(l), start, code); }
    }

    method IfElseStatement(c: TExpr, t: TStmt, e: TStmt) returns (ok: bool)
      modifies this
      ensures
        var x := EmitExpr(c, old(tmp));
        var y := EmitStmt(t, x.next + 1, old(ctx), rt);
        var z := IfElseCode(x, y, EmitStmt(e, y.next, old(ctx), rt), EndsInTerminator(t));
        ok == z.ok && (ok ==> tmp == z.next && ctx == old(ctx) && out == old(out) + z.instrs)
      decreases TIf(c, t, Some(e)), 0, 0
    {
      hide EmitExpr, EmitStmt, EndsInTerminator;
      ghost var start := out;
      ghost var x := EmitExpr(c, tmp);
      ghost var y := EmitStmt(t, x.next + 1, ctx, rt);
      ghost var z := EmitStmt(e, y.next, ctx, rt);
      var test := SubExpr(c, start, []);
      Nothing(x.instrs);
      var id := NewTmp();
      ghost var code := x.instrs + IfTest(x, IfElse);
      Print2(Jnz(T(test), Lbl(IfThen, id), Lbl(IfElse, id)), Mark(Lbl(IfThen, id)), start, x.instrs);
      ok := SubStmt(t, start, code);
      if !ok { return; }
      code := code + y.instrs;
      PrintJump(EndsInTerminator(t), Lbl(IfEnd, id), start, code);
      ghost var jmp := JumpUnless(EndsInTerminator(t), Lbl(IfEnd, id));
      code := code + jmp;
      Print(Mark(Lbl(IfElse, id)), start, code);
      code := code + [Mark(Lbl(IfElse, id))];
      ok := SubStmt(e, start, code);
      if !ok { return; }
      Print(Mark(Lbl(IfEnd, id)), start, code + z.instrs);
      Nest3(x.instrs + IfTest(x, IfElse) + y.instrs, jmp, [Mark(Lbl(IfElse, id))] + z.instrs, [Mark(Lbl(IfEnd, id))]);
      Nest6(x.instrs, IfTest(x, IfElse), y.instrs, jmp, [Mark(Lbl(IfElse, id))], z.instrs, [Mark(Lbl(IfEnd, id))]);
    }

    method WhileStatement(c: TExpr, body: TStmt) returns (ok: bool)
      modifies this
      ensures
        var n := old(tmp);
        var x := EmitExpr(c, n + 1);
        var z := WhileCode(n, x, EmitStmt(body, x.next, old(ctx) + [LoopCtx(n, n)], rt), EndsInTerminator(body));
        ok == z.ok && (ok ==> tmp == z.next && ctx == old(ctx) && out == old(out) + z.instrs)
      decreases body, 2
    {
      hide EmitExpr, EmitStmt, EndsInTerminator;
      ghost var start := out;
      var id := NewTmp();
      ghost var x := EmitExpr(c, id + 1);
      ghost var y := EmitStmt(body, x.next, ctx + [LoopCtx(id, id)], rt);
      var top, end := Mark(Lbl(WhileCond, id)), Mark(Lbl(WhileEnd, id));
      Print(top, start, []);
      Nothing([top]);
      var test := SubExpr(c, start, [top]);
      Print2(Jnz(T(test), Lbl(WhileBody, id), Lbl(WhileEnd, id)), Mark(Lbl(WhileBody, id)), start, [top] + x.instrs);
      ctx := ctx + [LoopCtx(id, id)];
      ok := SubStmt(body, start, [top] + x.instrs + WhileTest(id, x));
      if !ok { return; }
      ctx := ctx[..|ctx| - 1];
      ghost var code := [top] + x.instrs + WhileTest(id, x) + y.instrs;
      ghost var jmp := JumpUnless(EndsInTerminator(body), Lbl(WhileCond, id));
      PrintJump(EndsInTerminator(body), Lbl(WhileCond, id), start, code);
      Print(end, start, code + jmp);
      Nest5([top], x.instrs, WhileTest(id, x), y.instrs, jmp, [end]);
    }

    method DoStatement(body: TStmt, c: TExpr) returns (ok: bool)
      modifies this
      ensures
        var n := old(tmp);
        var y := EmitStmt(body, n + 1, old(ctx) + [LoopCtx(n, n)], rt);
        var z := DoCode(n, y, EmitExpr(c, y.next));
        ok == z.ok && (ok ==> tmp == z.next && ctx == old(ctx) && out == old(out) + z.instrs)
      decreases body, 2
    {
      hide EmitExpr, EmitStmt;
      ghost var start := out;
      var id := NewTmp();
      ghost var y := EmitStmt(body, id + 1, ctx + [LoopCtx(id, id)], rt);
      ghost var x := EmitExpr(c, y.next);
      var top, mid := Mark(Lbl(DoBody, id)), Mark(Lbl(DoCond, id));
      Print(top, start, []);
      Nothing([top]);
      ctx := ctx + [LoopCtx(id, id)];
      ok := SubStmt(body, start, [top]);
      if !ok { return; }
      ctx := ctx[..|ctx| - 1];
      ghost var code := [top] + y.instrs;
      Print(mid, start, code);
      var test := SubExpr(c, start, code + [mid]);
      Print2(Jnz(T(test), Lbl(DoBody, id), Lbl(DoEnd, id)), Mark(Lbl(DoEnd, id)), start, code + [mid] + x.instrs);
      Nest3([top] + y.instrs, [mid], x.instrs, DoTest(id, x));
      Assoc([top], y.instrs, [mid] + (x.instrs + DoTest(id, x)));
    }

    method ForStatement(i: Option<TExpr>, c: Option<TExpr>, p: Option<TExpr>, body: TStmt) returns (ok: bool)
      modifies this
      ensures
        var n := old(tmp);
        var w := EmitOpt(i, n + 1);
        var x := EmitOpt(c, w.next);
        var y := EmitStmt(body, x.next, old(ctx) + [LoopCtx(n, n)], rt);
        var z := ForCode(n, w, x, c.Some?, y, EmitOpt(p, y.next));
        ok == z.ok && (ok ==> tmp == z.next && ctx == old(ctx) && out == old(out) + z.instrs)
      decreases body, 2
    {
      hide EmitExpr, EmitOpt, EmitStmt;
      ghost var start := out;
      var id := NewTmp();
      ghost var w := EmitOpt(i, id + 1);
      ghost var x := EmitOpt(c, w.next);
      ghost var y := EmitStmt(body, x.next, ctx + [LoopCtx(id, id)], rt);
      ghost var z := EmitOpt(p, y.next);
      var cond, post := Mark(Lbl(ForCond, id)), Mark(Lbl(ForPost, id));
      var t := SubOpt(i, start, []);
      Nothing(w.instrs);
      Print(cond, start, w.instrs);
      ghost var code := w.instrs + [cond];
      t := SubOpt(c, start, code);
      code := code + x.instrs;
      PrintForTest(c.Some?, id, t, x, start, code);
      code := code + ForTest(id, x, c.Some?);
      ctx := ctx + [LoopCtx(id, id)];
      ok := SubStmt(body, start, code);
      if !ok { return; }
      ctx := ctx[..|ctx| - 1];
      code := code + y.instrs;
      Print(post, start, code);
      t := SubOpt(p, start, code + [post]);
      Print2(Jmp(Lbl(ForCond, id)), Mark(Lbl(ForEnd, id)), start, code + [post] + z.instrs);
      Nest3(code, [post], z.instrs, ForLast(id));
      Nest5(w.instrs, [cond], x.instrs, ForTest(id, x, c.Some?), y.instrs, [post] + (z.instrs + ForLast(id)));
    }

    method PrintForTest(tested: bool, id: nat, t: nat, ghost x: Code, ghost start: seq<Instr>, ghost code: seq<Instr>)
      requires Printed(start, code) && x.res == t
      modifies this`out
      ensures Printed(start, code + ForTest(id, x, tested))
    {
      var body := Mark(Lbl(ForBody, id));
      if tested {
        Print2(Jnz(T(t), Lbl(ForBody, id), Lbl(ForEnd, id)), body, start, code);
      } else {
        Print(body, start, code);
      }
      assert ForTest(id, x, tested) == if tested then [Jnz(T(t), Lbl(ForBody, id), Lbl(ForEnd, id)), body] else [body];
    }

    // ----- functions -----

    /** Slots for the parameters, which are stored into them. */
    method Params(ps: seq<TParam>)
      modifies this`out
      ensures out == old(out) + EmitParams(ps)
    {
      ghost var start := out;
      var i := 0;
      assert ps[0..] == ps;
      while i < |ps|
        invariant 0 <= i <= |ps| && out + EmitParams(ps[i..]) == start + EmitParams(ps)
      {
        assert ps[i..][0] == ps[i] && ps[i..][1..] == ps[i + 1..];
        ghost var before := out;
        var alloc, store := Alloc(ps[i].id, Size(ps[i].ty)), Store(ps[i].ty, P(ps[i].id), V(ps[i].id));
        out := out + [alloc];
        out := out + [store];
        assert before + [alloc] + [store] == before + [alloc, store];
        Assoc(before, [alloc, store], EmitParams(ps[i + 1..]));
        i := i + 1;
      }
      assert ps[i..] == [];
      Nothing(out);
    }

    /** Slots for the declarations directly in the body. */
    method Locals(ss: seq<TStmt>)
      modifies this`out
      ensures out == old(out) + EmitLocals(ss)
    {
      ghost var start := out;
      var i := 0;
      assert ss[0..] == ss;
      while i < |ss|
        invariant 0 <= i <= |ss| && out + EmitLocals(ss[i..]) == start + EmitLocals(ss)
      {
        assert ss[i..][0] == ss[i] && ss[i..][1..] == ss[i + 1..];
        ghost var before := out;
        ghost var rest := EmitLocals(ss[i + 1..]);
        if ss[i].TDecl? {
          out := out + [Alloc(ss[i].id, Size(ss[i].ty))];
          Assoc(before, [Alloc(ss[i].id, Size(ss[i].ty))], rest);
        } else {
          Nothing(rest);
        }
        i := i + 1;
      }
      assert ss[i..] == [];
      Nothing(out);
    }

    /** A whole function; `ok` is false when the compiler exits with an error. */
    method Func(f: TFunc) returns (ok: bool)
      requires f.result == rt && ctx == []
      modifies this
      ensures ok == EmitFunc(f).Some? && (ok ==> out == old(out) + EmitFunc(f).value && ctx == [])
    {
      hide EmitStmts, EmitParams, EmitLocals;
      ghost var start := out;
      var top := Mark(Lbl(Start, 0));
      Print(top, start, []);
      Params(f.params);
      Locals(f.body);
      Nest3(start, [top], EmitParams(f.params), EmitLocals(f.body));
      assert out == start + Prologue(f);
      tmp := 0;
      ghost var c := EmitStmts(f.body, 0, [], rt);
      ok := Block(f.body);
      if !ok { return; }
      Assoc(start, Prologue(f), c.instrs);
      if !ListEndsInTerminator(f.body) {
        Print(RetConst(rt, 0), start, Prologue(f) + c.instrs);
        Assoc(Prologue(f), c.instrs, [RetConst(rt, 0)]);
      } else {
        Nothing(c.instrs);
      }
    }
  }

  lemma LogicParts(isAnd: bool, n: nat, c: Code, d: Code)
    ensures LogicCode(isAnd, n, c, d)
         == Code(c.instrs + LogicTest(isAnd, n, c.res) + d.instrs + LogicEnd(n, d), n + 1, d.next + 1)
  {
    Nest3(c.instrs, LogicTest(isAnd, n, c.res), d.instrs, LogicEnd(n, d));
  }

  lemma Nothing(a: seq<Instr>)
    ensures [] + a == a && a + [] == a
  {
  }

  lemma Nest3(a: seq<Instr>, b: seq<Instr>, c: seq<Instr>, d: seq<Instr>)
    ensures a + b + c + d == a + (b + (c + d))
  {
  }

  lemma Nest6(a: seq<Instr>, b: seq<Instr>, c: seq<Instr>, d: seq<Instr>, e: seq<Instr>, f: seq<Instr>, g: seq<Instr>)
    ensures a + b + c + d + e + f + g == a + (b + (c + (d + (e + (f + g)))))
  {
  }

  lemma Nest5(a: seq<Instr>, b: seq<Instr>, c: seq<Instr>, d: seq<Instr>, e: seq<Instr>, f: seq<Instr>)
    ensures a + b + c + d + e + f == a + (b + (c + (d + (e + f))))
  {
  }
}
