/** From parsed C function to running IL: semantic analysis and code generation together. */
module Pipeline {
  import opened Options
  import opened Words
  import opened Ast
  import opened Typed
  import opened Meaning
  import opened CMeaning
  import opened Scopes
  import opened Sema
  import opened Il
  import opened Codegen
  import opened ExprSim
  import opened FuncSim
  import opened ElabSound

  /** Declarations only directly in the body; no compound division narrows its right side. */
  predicate PlainBody(ss: seq<Stmt>, g: Env, next: nat) {
    ss == [] ||
    if ss[0].VarDecl? then
      Core(ss[0].declType).Some?
      && var g' := g[ss[0].name := Var(next, Core(ss[0].declType).value)];
         NarrowOpt(ss[0].initial, g') && PlainBody(ss[1..], g', next + 1)
    else Undeclaring(ss[0]) && NarrowStmt(ss[0], g) && PlainBody(ss[1..], g, next)
  }

  /** A new object is visible under its name; everything else resolves as before. */
  lemma AgreeDeclared(ch: Chain, g: Env, lay: Layout, name: string, ct: Ast.CType, id: nat)
    requires ch != [] && Agree(ch, g, lay) && Core(ct).Some? && HasLocal(lay, id, Core(ct).value)
    ensures Agree(Declared(ch, Symbol(name, Object(ct), id, false)), g[name := Var(id, Core(ct).value)], lay)
  {
    var sym := Symbol(name, Object(ct), id, false);
    var ch' := Declared(ch, sym);
    var g' := g[name := Var(id, Core(ct).value)];
    assert ch'[1..] == ch[1..] && ch'[0][1..] == ch[0];
    forall x ensures Resolves(ch', g', lay, x) {
      assert Resolves(ch, g, lay, x);
      if x != name { assert Lookup(ch', x) == Lookup(ch, x); }
    }
  }

  /** The first statement of a body and the rest, elaborated. */
  ghost predicate Split(ss: seq<Stmt>, d: Done<TStmt>, ts: seq<TStmt>, rest: seq<TStmt>, ch: Chain, n: nat, rt: Ty) {
    ss != [] && ch != [] && d.ch != []
    && ElabStmt(ss[0], ch, n, rt) == Ok(d) && ElabStmts(ss[1..], d.ch, d.n, rt).Ok?
    && ElabStmts(ss[1..], d.ch, d.n, rt).value.node == rest && ts == [d.node] + rest
  }

  lemma Head(ss: seq<Stmt>, ch: Chain, n: nat, rt: Ty) returns (d: Done<TStmt>, rest: seq<TStmt>)
    requires ss != [] && ch != [] && ElabStmts(ss, ch, n, rt).Ok?
    ensures Split(ss, d, ElabStmts(ss, ch, n, rt).value.node, rest, ch, n, rt)
  {
    d := ElabStmt(ss[0], ch, n, rt).value;
    rest := ElabStmts(ss[1..], d.ch, d.n, rt).value.node;
  }

  /** A declaration gets the next id and is visible from its initialiser on. */
  lemma Declares(ss: seq<Stmt>, d: Done<TStmt>, ts: seq<TStmt>, rest: seq<TStmt>, ch: Chain, g: Env, pre: Layout,
                 lay: Layout, rt: Ty)
    returns (ty: Ty)
    requires Split(ss, d, ts, rest, ch, |pre|, rt) && ss[0].VarDecl? && lay == pre + DeclTypes(ts) && Agree(ch, g, lay)
    ensures Core(ss[0].declType) == Some(ty) && d.n == |pre| + 1 && lay == pre + [ty] + DeclTypes(rest)
    ensures HasLocal(lay, |pre|, ty) && Agree(d.ch, g[ss[0].name := Var(|pre|, ty)], lay)
    ensures d.node.TDecl? && d.node.id == |pre| && d.node.ty == ty
    ensures
      match ss[0].initial
      case None => d.node.initial == None
      case Some(e) => ElabExpr(e, d.ch).Ok? && d.node.initial == Some(MakeCast(ElabExpr(e, d.ch).value, ty))
  {
    hide Agree, ElabExpr, MakeCast;
    ty := Core(ss[0].declType).value;
    assert ts[1..] == rest && pre + DeclTypes(ts) == pre + [ty] + DeclTypes(rest);
    assert lay[|pre|] == ty;
    AgreeDeclared(ch, g, lay, ss[0].name, ss[0].declType, |pre|);
  }

  /** The elaborated body: ids in order, types as laid out, everything well typed. */
  lemma {:induction false} BodyTyped(ss: seq<Stmt>, ch: Chain, g: Env, pre: Layout, lay: Layout, rt: Ty)
    requires ch != [] && PlainBody(ss, g, |pre|) && ElabStmts(ss, ch, |pre|, rt).Ok?
    requires lay == pre + DeclTypes(ElabStmts(ss, ch, |pre|, rt).value.node) && Agree(ch, g, lay)
    ensures
      var ts := ElabStmts(ss, ch, |pre|, rt).value.node;
      InOrder(ts, |pre|) && WellTypedStmts(ts, lay, rt)
    decreases |ss|
  {
    hide Agree, WellTyped, MakeCast, ElabExpr, ElabStmt;
    if ss != [] {
      var ts := ElabStmts(ss, ch, |pre|, rt).value.node;
      var d, rest := Head(ss, ch, |pre|, rt);
      assert ts[0] == d.node && ts[1..] == rest;
      if ss[0].VarDecl? {
        var ty := Declares(ss, d, ts, rest, ch, g, pre, lay, rt);
        if ss[0].initial.Some? {
          ElabTyped(ss[0].initial.value, d.ch, g[ss[0].name := Var(|pre|, ty)], lay);
          MakeCastTyped(ElabExpr(ss[0].initial.value, d.ch).value, ty, lay);
        }
        BodyTyped(ss[1..], d.ch, g[ss[0].name := Var(|pre|, ty)], pre + [ty], lay, rt);
      } else {
        ElabStmtTyped(ss[0], ch, |pre|, rt, g, lay);
        NoDeclIsNoDecl(d.node);
        BodyTyped(ss[1..], ch, g, pre, lay, rt);
      }
    }
  }

  lemma NoDeclIsNoDecl(t: TStmt)
    requires NoDecls(t)
    ensures !t.TDecl?
  {
  }

  /** The elaborated body does what the body does. */
  lemma {:induction false} BodyMeaning(ss: seq<Stmt>, ts: seq<TStmt>, ch: Chain, g: Env, pre: Layout, lay: Layout,
                                       rt: Ty,
                                       st: Meaning.Store, fuel: nat)
    requires ch != [] && PlainBody(ss, g, |pre|) && ElabStmts(ss, ch, |pre|, rt).Ok?
      && ts == ElabStmts(ss, ch, |pre|, rt).value.node
    requires lay == pre + DeclTypes(ts) && Agree(ch, g, lay) && StoreOk(st, lay)
    ensures SameOutcome(CExecBody(ss, g, |pre|, rt, st, fuel), ExecAll(ts, st, fuel), lay)
    decreases |ss|
  {
    hide Agree, WellTyped, MakeCast, ElabExpr, StoreOk, Eval, CEvalOpt, ElabStmt, ElabStmts, DeclTypes, CExec,
      Undeclaring, NarrowStmt;
    if ss == [] {
      NothingElaborated(ch, |pre|, rt);
    } else {
      var d, rest := Head(ss, ch, |pre|, rt);
      assert ts[0] == d.node && ts[1..] == rest;
      if ss[0].VarDecl? {
        var ty := Declares(ss, d, ts, rest, ch, g, pre, lay, rt);
        var g' := g[ss[0].name := Var(|pre|, ty)];
        match ss[0].initial {
          case None => BodyMeaning(ss[1..], rest, d.ch, g', pre + [ty], lay, rt, st, fuel);
          case Some(e) =>
            ElabReturn(e, d.ch, ty, g', lay, st);
            if CEvalOpt(Some(e), g', st).Some? {
              var x := CEvalOpt(Some(e), g', st).value;
              Initialised(x.st, lay, |pre|, ty, x.v);
              BodyMeaning(ss[1..], rest, d.ch, g', pre + [ty], lay, rt, x.st[|pre| := Wrap(ty, x.v)], fuel);
            }
        }
      } else {
        Continues(ss, d, ts, rest, ch, g, pre, lay, rt);
        ElabExec(ss[0], d.node, ch, |pre|, rt, g, lay, st, fuel);
        var out := CExec(ss[0], g, rt, st, fuel);
        if out.Normal? { BodyMeaning(ss[1..], rest, ch, g, pre, lay, rt, out.st, fuel); }
      }
    }
  }

  lemma NothingElaborated(ch: Chain, n: nat, rt: Ty)
    requires ch != []
    ensures ElabStmts([], ch, n, rt).Ok? && ElabStmts([], ch, n, rt).value.node == []
  {
  }

  /** A statement that is no declaration leaves scopes, ids and layout alone. */
  lemma Continues(ss: seq<Stmt>, d: Done<TStmt>, ts: seq<TStmt>, rest: seq<TStmt>, ch: Chain, g: Env, pre: Layout,
                  lay: Layout, rt: Ty)
    requires Split(ss, d, ts, rest, ch, |pre|, rt) && Undeclaring(ss[0]) && lay == pre + DeclTypes(ts)
      && Agree(ch, g, lay)
    ensures d.ch == ch && d.n == |pre| && lay == pre + DeclTypes(rest)
  {
    hide Agree;
    ElabStmtTyped(ss[0], ch, |pre|, rt, g, lay);
    NoDeclIsNoDecl(d.node);
    assert ts[1..] == rest;
  }

  lemma Initialised(st: Meaning.Store, lay: Layout, n: nat, ty: Ty, v: int)
    requires StoreOk(st, lay) && HasLocal(lay, n, ty)
    ensures StoreOk(st[n := Wrap(ty, v)], lay)
  {
    WrapFacts(ty, v);
  }

  // ----- parameters -----

  /** The types of the parameters, all of them supported. */
  function CoreTypes(ps: seq<Param>): Layout
    requires forall p :: p in ps ==> Core(p.ptype).Some?
  {
    seq(|ps|, i requires 0 <= i < |ps| => Core(ps[i].ptype).value)
  }

  /** Parameters are numbered in order and resolve as C says, later ones hiding earlier ones of the same name. */
  lemma {:induction false} ParamsElaborated(ps: seq<Param>, ch: Chain, g: Env, i: nat, lay: Layout)
    requires ch != [] && ElabParams(ps, ch, i).Ok? && Agree(ch, g, lay) && i + |ps| <= |lay|
    requires forall k :: 0 <= k < |ps| && Core(ps[k].ptype).Some? ==> lay[i + k] == Core(ps[k].ptype).value
    ensures forall p :: p in ps ==> Core(p.ptype).Some?
    ensures
      var d := ElabParams(ps, ch, i).value;
      d.n == i + |ps| && |d.node| == |ps| && Agree(d.ch, ParamEnv(ps, g, i), lay)
      && forall k :: 0 <= k < |ps| ==> d.node[k] == TParam(i + k, Core(ps[k].ptype).value)
    decreases |ps|
  {
    hide Agree;
    if ps != [] {
      var ty := Core(ps[0].ptype).value;
      assert HasLocal(lay, i, ty) by { assert lay[i + 0] == ty; }
      AgreeDeclared(ch, g, lay, ps[0].name, ps[0].ptype, i);
      forall k | 0 <= k < |ps[1..]| && Core(ps[1..][k].ptype).Some?
        ensures lay[i + 1 + k] == Core(ps[1..][k].ptype).value
      {
        assert ps[1..][k] == ps[k + 1];
      }
      ParamsElaborated(ps[1..], Declared(ch, Symbol(ps[0].name, Object(ps[0].ptype), i, false)),
        g[ps[0].name := Var(i, ty)], i + 1, lay);
    }
  }

  // ----- main results -----

  lemma NothingLocal(globals: Scope, lay: Layout)
    requires GlobalScope(globals)
    ensures Agree([[]] + [globals], map[], lay)
  {
    var ch := [[]] + [globals];
    forall x ensures Resolves(ch, map[], lay, x) {
      assert ch[1..] == [globals] && [globals][1..] == [];
      assert Lookup(ch, x) == Lookup([globals], x) == FindIn(globals, x);
      FoundGlobal(globals, x);
    }
  }

  predicate Plain(f: Func) {
    (forall p :: p in f.params ==> Core(p.ptype).Some?)
    && PlainBody(f.body, ParamEnv(f.params, map[], 0), |f.params|)
  }

  predicate CArgsFit(f: Func, args: seq<int>) {
    |args| == |f.params|
    && forall i :: 0 <= i < |args| ==> Core(f.params[i].ptype).Some? && InRange(Core(f.params[i].ptype).value, args[i])
  }

  /** Elaborated functions are well formed: distinct consecutive ids, and every operand of its operator's type. */
  lemma ElaboratedWellFormed(f: Func, globals: Scope)
    requires GlobalScope(globals) && Plain(f) && ElabFunc(f, globals).Ok?
    ensures WellFormed(ElabFunc(f, globals).value)
  {
    hide Agree, WellTyped, ElabStmts;
    var t := ElabFunc(f, globals).value;
    var lay := LayoutOf(t);
    var ch, g := ParamChain(f, globals, t, lay);
    BodyTyped(f.body, ch, g, CoreTypes(f.params), lay, t.result);
  }

  /** The scopes the body is analysed in, and what they stand for. */
  lemma ParamChain(f: Func, globals: Scope, t: TFunc, lay: Layout) returns (ch: Chain, g: Env)
    requires GlobalScope(globals) && Plain(f) && ElabFunc(f, globals) == Ok(t) && lay == LayoutOf(t)
    ensures ch != [] && g == ParamEnv(f.params, map[], 0) && Agree(ch, g, lay)
    ensures ParamTypes(t.params) == CoreTypes(f.params) && |t.params| == |f.params|
    ensures forall i :: 0 <= i < |t.params| ==> t.params[i].id == i
    ensures Core(f.result) == Some(t.result)
    ensures ElabStmts(f.body, ch, |f.params|, t.result).Ok?
      && ElabStmts(f.body, ch, |f.params|, t.result).value.node == t.body
  {
    hide Agree, ElabStmts;
    var base := [[]] + [globals];
    ParamNodes(f.params, base, 0);
    NothingLocal(globals, lay);
    assert forall k :: 0 <= k < |f.params| ==> lay[0 + k] == ParamTypes(t.params)[k];
    ParamsElaborated(f.params, base, map[], 0, lay);
    var d := ElabParams(f.params, base, 0).value;
    g := ParamEnv(f.params, map[], 0);
    ch := [[]] + d.ch;
    AgreeInside(d.ch, g, lay);
  }

  lemma {:induction false} ParamNodes(ps: seq<Param>, ch: Chain, i: nat)
    requires ch != [] && ElabParams(ps, ch, i).Ok?
    ensures
      var d := ElabParams(ps, ch, i).value;
      |d.node| == |ps|
      && forall k :: 0 <= k < |ps| ==>
           Core(ps[k].ptype).Some? && d.node[k] == TParam(i + k, Core(ps[k].ptype).value)
    decreases |ps|
  {
    if ps != [] {
      ParamNodes(ps[1..], Declared(ch, Symbol(ps[0].name, Object(ps[0].ptype), i, false)), i + 1);
    }
  }

  /** Elaboration keeps the meaning of whole functions. */
  lemma ElaborationCorrect(f: Func, globals: Scope, args: seq<int>, fuel: nat)
    requires GlobalScope(globals) && Plain(f) && ElabFunc(f, globals).Ok? && CArgsFit(f, args)
    requires CRun(f, args, fuel) != Undefined
    ensures RunFunction(ElabFunc(f, globals).value, args, fuel) == CRun(f, args, fuel)
  {
    hide Agree, ElabStmts, ExecAll, CExecBody;
    var t := ElabFunc(f, globals).value;
    var lay := LayoutOf(t);
    var ch, g := ParamChain(f, globals, t, lay);
    forall i | i in Arguments(args) ensures i < |lay| && InRange(lay[i], Arguments(args)[i]) {
      assert lay[i] == ParamTypes(t.params)[i];
    }
    BodyMeaning(f.body, t.body, ch, g, CoreTypes(f.params), lay, t.result, Arguments(args), fuel);
  }

  /** The function is inside the fragment the compiler handles right. */
  predicate InFragment(f: Func, globals: Scope) {
    Plain(f) && ElabFunc(f, globals).Ok?
    && IntTestsStmts(ElabFunc(f, globals).value.body) && WhileJumpsAll(ElabFunc(f, globals).value.body, NoLoop)
  }

  predicate Supported(f: Func, globals: Scope) { GlobalScope(globals) && InFragment(f, globals) }

  /**
   Main result: for every supported function, arguments and amount of fuel, if the C function
   returns then the compiled one returns the same value leaving the same locals, and if the
   C function is still running so is the compiled one.
   */
  lemma CompilerCorrect(f: Func, globals: Scope, args: seq<int>, fuel: nat)
    requires Supported(f, globals) && CArgsFit(f, args)
    ensures EmitFunc(ElabFunc(f, globals).value).Some? && |ElabFunc(f, globals).value.params| == |args|
    ensures
      var t := ElabFunc(f, globals).value;
      match CRun(f, args, fuel)
      case Returned(v, st) => CompiledReturns(t, args, v, st)
      case OutOfFuel => forall k :: 0 <= k <= fuel ==> Run(EmitFunc(t).value, k, CallOf(t, args)).Running?
      case out => out.Undefined?
  {
    hide EmitFunc, ExecAll, CRun, RunFunction, CompiledReturns, IntTestsStmts, WhileJumpsAll, WellTypedStmts, ElabStmts;
    var t := ElabFunc(f, globals).value;
    ElaboratedWellFormed(f, globals);
    var ch, g := ParamChain(f, globals, t, LayoutOf(t));
    ArgsOk(f, t, args);
    CompilationCorrect(t, args, fuel);
    if CRun(f, args, fuel) != Undefined { ElaborationCorrect(f, globals, args, fuel); }
  }

  lemma ArgsOk(f: Func, t: TFunc, args: seq<int>)
    requires forall p :: p in f.params ==> Core(p.ptype).Some?
    requires CArgsFit(f, args) && ParamTypes(t.params) == CoreTypes(f.params) && |t.params| == |f.params|
    ensures ArgsFit(t, args)
  {
    forall i | 0 <= i < |args| ensures InRange(t.params[i].ty, args[i]) {
      assert ParamTypes(t.params)[i] == CoreTypes(f.params)[i];
    }
  }

  /** The converse: what the compiled function returns is what C prescribes, unless C prescribes nothing. */
  lemma CompiledCodeIsRight(f: Func, globals: Scope, args: seq<int>, k: nat)
    requires Supported(f, globals) && CArgsFit(f, args)
    requires |ElabFunc(f, globals).value.params| == |args| && EmitFunc(ElabFunc(f, globals).value).Some?
    requires Run(EmitFunc(ElabFunc(f, globals).value).value, k, CallOf(ElabFunc(f, globals).value, args)).Halted?
    ensures
      var t := ElabFunc(f, globals).value;
      var out := CRun(f, args, k);
      out.Undefined? || (out.Returned? && Run(EmitFunc(t).value, k, CallOf(t, args)).v == Enc(t.result, out.v))
  {
    hide EmitFunc, ExecAll, CRun, RunFunction, CompiledReturns, IntTestsStmts, WhileJumpsAll, WellTypedStmts, ElabStmts;
    var t := ElabFunc(f, globals).value;
    ElaboratedWellFormed(f, globals);
    var ch, g := ParamChain(f, globals, t, LayoutOf(t));
    ArgsOk(f, t, args);
    CompiledReturnIsRight(t, args, k);
    if CRun(f, args, k) != Undefined { ElaborationCorrect(f, globals, args, k); }
  }
}
