/** Which functions the compiler accepts: the conditions of analysis and code generation, on the parsed tree. */
module Acceptance {
  import opened Options
  import opened Words
  import opened Ast
  import opened Typed
  import opened Scopes
  import opened Sema
  import opened Events
  import opened Walks
  import opened Binding
  import opened Codegen

  // ----- code generation -----

  /** `break` and `continue` stand inside loops; `inside` when the statement itself does. */
  predicate InLoops(s: TStmt, inside: bool)
    decreases s
  {
    match s
    case TBlock(ss) => AllInLoops(ss, inside)
    case TIf(_, t, els) => InLoops(t, inside) && (els.Some? ==> InLoops(els.value, inside))
    case TWhile(_, body) => InLoops(body, true)
    case TDo(body, _) => InLoops(body, true)
    case TFor(_, _, _, body) => InLoops(body, true)
    case TBreak => inside
    case TContinue => inside
    case _ => true
  }

  predicate AllInLoops(ss: seq<TStmt>, inside: bool)
    decreases ss
  {
    ss == [] || (InLoops(ss[0], inside) && AllInLoops(ss[1..], inside))
  }

  /** Code generation exits on a jump outside of loops and on nothing else. */
  lemma {:induction false} EmitsExactly(s: TStmt, n: nat, ctx: seq<LoopCtx>, rt: Ty)
    ensures EmitStmt(s, n, ctx, rt).ok <==> InLoops(s, ctx != [])
    decreases s
  {
    hide EmitExpr, EmitOpt, EndsInTerminator;
    match s
    case TBlock(ss) => AllEmitExactly(ss, n, ctx, rt);
    case TIf(c, t, els) =>
      var m := EmitExpr(c, n).next + 1;
      EmitsExactly(t, m, ctx, rt);
      if els.Some? { EmitsExactly(els.value, EmitStmt(t, m, ctx, rt).next, ctx, rt); }
    case TWhile(c, body) => EmitsExactly(body, EmitExpr(c, n + 1).next, ctx + [LoopCtx(n, n)], rt);
    case TDo(body, c) => EmitsExactly(body, n + 1, ctx + [LoopCtx(n, n)], rt);
    case TFor(i, c, p, body) =>
      EmitsExactly(body, EmitOpt(c, EmitOpt(i, n + 1).next).next, ctx + [LoopCtx(n, n)], rt);
    case _ =>
  }

  lemma {:induction false} AllEmitExactly(ss: seq<TStmt>, n: nat, ctx: seq<LoopCtx>, rt: Ty)
    ensures EmitStmts(ss, n, ctx, rt).ok <==> AllInLoops(ss, ctx != [])
    decreases ss
  {
    hide EmitStmt;
    if ss != [] {
      EmitsExactly(ss[0], n, ctx, rt);
      AllEmitExactly(ss[1..], EmitStmt(ss[0], n, ctx, rt).next, ctx, rt);
    }
  }

  // ----- the same on the parsed tree -----

  predicate JumpsInLoops(s: Stmt, inside: bool)
    decreases s
  {
    match s
    case Block(ss) => AllJumpInLoops(ss, inside)
    case If(_, t, els) => JumpsInLoops(t, inside) && (els.Some? ==> JumpsInLoops(els.value, inside))
    case While(_, body) => JumpsInLoops(body, true)
    case Do(body, _) => JumpsInLoops(body, true)
    case For(_, _, _, body) => JumpsInLoops(body, true)
    case Break => inside
    case Continue => inside
    case _ => true
  }

  predicate AllJumpInLoops(ss: seq<Stmt>, inside: bool)
    decreases ss
  {
    ss == [] || (JumpsInLoops(ss[0], inside) && AllJumpInLoops(ss[1..], inside))
  }

  /** Analysis moves no jump. */
  lemma {:induction false} JumpsKept(s: Stmt, ch: Chain, n: nat, rt: Ty, inside: bool)
    requires ch != [] && ElabStmt(s, ch, n, rt).Ok?
    ensures InLoops(ElabStmt(s, ch, n, rt).value.node, inside) <==> JumpsInLoops(s, inside)
    decreases s
  {
    hide ElabExpr, ElabOpt, MakeCast, Declared;
    match s
    case Block(ss) => AllJumpsKept(ss, [[]] + ch, n, rt, inside);
    case If(c, t, els) =>
      JumpsKept(t, ch, n, rt, inside);
      if els.Some? {
        var d := ElabStmt(t, ch, n, rt).value;
        JumpsKept(els.value, d.ch, d.n, rt, inside);
      }
    case While(c, body) => JumpsKept(body, ch, n, rt, true);
    case Do(body, c) => JumpsKept(body, ch, n, rt, true);
    case For(i, c, p, body) => JumpsKept(body, [[]] + ch, n, rt, true);
    case _ =>
  }

  lemma {:induction false} AllJumpsKept(ss: seq<Stmt>, ch: Chain, n: nat, rt: Ty, inside: bool)
    requires ch != [] && ElabStmts(ss, ch, n, rt).Ok?
    ensures AllInLoops(ElabStmts(ss, ch, n, rt).value.node, inside) <==> AllJumpInLoops(ss, inside)
    decreases ss
  {
    hide ElabStmt, InLoops, JumpsInLoops;
    if ss != [] {
      var d := ElabStmt(ss[0], ch, n, rt).value;
      var rest := ElabStmts(ss[1..], d.ch, d.n, rt).value.node;
      assert ([d.node] + rest)[1..] == rest;
      JumpsKept(ss[0], ch, n, rt, inside);
      AllJumpsKept(ss[1..], d.ch, d.n, rt, inside);
    }
  }

  // ----- functions -----

  /** Forms that are handled, names that are declared before they are used, jumps that have a loop. */
  ghost predicate Acceptable(f: Func) {
    FuncFragment(f) && AllBound(FuncEvents(f)) && AllJumpInLoops(f.body, false)
  }

  /** Main result: a function is compiled exactly when that holds. */
  lemma FunctionAccepted(f: Func, globals: Scope)
    requires GlobalScope(globals)
    ensures ElabFunc(f, globals).Ok? && EmitFunc(ElabFunc(f, globals).value).Some? <==> Acceptable(f)
  {
    hide ElabFunc, EmitStmts, FuncFragment, AllBound, FuncEvents, AllJumpInLoops, Prologue, ListEndsInTerminator;
    FunctionBindings(f, globals);
    if ElabFunc(f, globals).Ok? {
      var t := ElabFunc(f, globals).value;
      AllEmitExactly(t.body, 0, [], t.result);
      BodyJumps(f, globals);
    }
  }

  lemma BodyJumps(f: Func, globals: Scope)
    requires ElabFunc(f, globals).Ok?
    ensures AllInLoops(ElabFunc(f, globals).value.body, false) <==> AllJumpInLoops(f.body, false)
  {
    hide ElabParams, ElabStmts, AllInLoops, AllJumpInLoops;
    var d := ElabParams(f.params, [[]] + [globals], 0).value;
    AllJumpsKept(f.body, [[]] + d.ch, d.n, Core(f.result).value, false);
  }
}
