/** Semantic analysis of a tree does what a walk over its braces, declarations and uses does. */
module Walks {
  import opened Options
  import opened Words
  import opened Ast
  import opened Typed
  import opened Scopes
  import opened Sema
  import opened Events

  /** The names left so far, the scopes and the local counter. */
  datatype Walk = Walk(names: seq<Named>, ch: Chain, n: nat)

  function Move(x: Event, w: Walk): Result<Walk> {
    match x
    case Open => Ok(w.(ch := [[]] + w.ch))
    case Close => if |w.ch| < 2 then Err(Unsupported) else Ok(w.(ch := w.ch[1..]))
    case Decl(name, ct) =>
      if w.ch == [] || Core(ct).None? then Err(Unsupported)
      else Ok(Walk(w.names + [Made(w.n, Core(ct).value)], Declared(w.ch, Symbol(name, Object(ct), w.n, false)),
      w.n + 1))
    case Use(name) =>
      match ElabIdent(name, w.ch)
      case Err(x) => Err(x)
      case Ok(t) => if t.TVar? then Ok(w.(names := w.names + [Used(t.id, t.ty)])) else Err(Unsupported)
  }

  function Visit(ev: seq<Event>, w: Walk): Result<Walk> {
    if ev == [] then Ok(w)
    else
      match Visit(ev[..|ev| - 1], w)
      case Err(x) => Err(x)
      case Ok(v) => Move(ev[|ev| - 1], v)
  }

  function Then(r: Result<Walk>, ev: seq<Event>): Result<Walk> {
    match r
    case Err(_) => r
    case Ok(w) => Visit(ev, w)
  }

  lemma {:induction false} VisitAppend(a: seq<Event>, b: seq<Event>, w: Walk)
    ensures Visit(a + b, w) == Then(Visit(a, w), b)
  {
    hide Move;
    if b == [] {
      assert a + b == a;
    } else {
      var b' := b[..|b| - 1];
      assert (a + b)[..|a + b| - 1] == a + b';
      VisitAppend(a, b', w);
    }
  }

  lemma VisitOne(x: Event, w: Walk)
    ensures Visit([x], w) == Move(x, w)
  {
    hide Move;
    assert [x][..0] == [];
  }

  /** Analysis of an expression does what the walk over its events does, leaving the names `ts`. */
  predicate Agrees(r: Result<Walk>, ok: Result<TExpr>, w: Walk) {
    match ok
    case Err(x) => r == Err(x)
    case Ok(t) => r == Ok(w.(names := w.names + ExprNames(t)))
  }

  lemma CastNames(t: TExpr, to: Ty)
    ensures ExprNames(MakeCast(t, to)) == ExprNames(t)
  {
  }

  lemma {:induction false} ExprVisits(e: Expr, w: Walk)
    requires ExprFragment(e)
    ensures Agrees(Visit(ExprEvents(e), w), ElabExpr(e, w.ch), w)
    decreases e, 1
  {
    hide *;
    if e.Binary? || e.Comma? || e.Assign? { TwoVisits(e, w); }
    else if e.Conditional? { CondVisits(e, w); }
    else { LeafVisits(e, w); }
  }

  lemma LeafVisits(e: Expr, w: Walk)
    requires ExprFragment(e) && !e.Binary? && !e.Comma? && !e.Assign? && !e.Conditional?
    ensures Agrees(Visit(ExprEvents(e), w), ElabExpr(e, w.ch), w)
  {
    hide Visit, Lookup, ElabIdent;
    VisitNone(w);
    if e.Ident? { IdentVisits(e.name, w); }
    if e.Postfix? { IdentVisits(e.operand.name, w); }
    assert w.names + [] == w.names;
  }

  lemma VisitNone(w: Walk)
    ensures Visit([], w) == Ok(w)
  {
  }

  lemma IdentVisits(name: string, w: Walk)
    ensures ElabIdent(name, w.ch).Ok? ==> ElabIdent(name, w.ch).value.TVar?
    ensures Agrees(Visit([Use(name)], w), ElabIdent(name, w.ch), w)
  {
    hide Visit, Lookup;
    VisitOne(Use(name), w);
  }

  /** Two subtrees, one after the other. */
  lemma {:induction false} PairVisits(e: Expr, l: Expr, r: Expr, w: Walk)
    requires ExprFragment(l) && ExprFragment(r) && l < e && r < e
    ensures
      var both := Visit(ExprEvents(l) + ExprEvents(r), w);
      match ElabExpr(l, w.ch)
      case Err(x) => both == Err(x)
      case Ok(t) =>
        match ElabExpr(r, w.ch)
        case Err(x) => both == Err(x)
        case Ok(u) => both == Ok(w.(names := w.names + (ExprNames(t) + ExprNames(u))))
    decreases e, 0, 0
  {
    hide ElabExpr, ExprEvents, Visit, ExprNames, ExprFragment;
    VisitAppend(ExprEvents(l), ExprEvents(r), w);
    ExprVisits(l, w);
    if ElabExpr(l, w.ch).Ok? {
      var t := ElabExpr(l, w.ch).value;
      var v := w.(names := w.names + ExprNames(t));
      ExprVisits(r, v);
      if ElabExpr(r, w.ch).Ok? {
        var u := ElabExpr(r, w.ch).value;
        assert w.names + ExprNames(t) + ExprNames(u) == w.names + (ExprNames(t) + ExprNames(u));
      }
    }
  }

  lemma {:induction false} TwoVisits(e: Expr, w: Walk)
    requires ExprFragment(e) && (e.Binary? || e.Comma? || e.Assign?)
    ensures Agrees(Visit(ExprEvents(e), w), ElabExpr(e, w.ch), w)
    decreases e, 0, 1
  {
    hide Visit, ElabBinary, MakeCast, Lookup;
    PairVisits(e, e.lhs, e.rhs, w);
    if ElabExpr(e.lhs, w.ch).Ok? && ElabExpr(e.rhs, w.ch).Ok? {
      var t, u := ElabExpr(e.lhs, w.ch).value, ElabExpr(e.rhs, w.ch).value;
      if e.Binary? { BinaryNames(e.bop, t, u); }
      if e.Assign? { CastNames(u, t.ty); }
    }
  }

  lemma {:induction false} BinaryNames(bop: BinOp, t: TExpr, u: TExpr)
    ensures ExprNames(ElabBinary(bop, t, u)) == ExprNames(t) + ExprNames(u)
  {
    hide MakeCast, TypeOf, Common;
    var common := Common(TypeOf(t), TypeOf(u));
    CastNames(t, common);
    CastNames(u, common);
  }

  lemma CondElab(e: Expr, ch: Chain)
    requires e.Conditional?
    ensures
      ElabExpr(e, ch) ==
        match (ElabExpr(e.cond, ch), ElabExpr(e.thn, ch), ElabExpr(e.els, ch))
        case (Ok(x), Ok(y), Ok(z)) =>
          var common := Common(TypeOf(y), TypeOf(z));
          Ok(TCond(x, MakeCast(y, common), MakeCast(z, common), common))
        case (Ok(x), Ok(y), Err(z)) => Err(z)
        case (Ok(x), Err(y), _) => Err(y)
        case (Err(x), _, _) => Err(x)
  {
    hide MakeCast, TypeOf, Common;
  }

  lemma CondNames(t: TExpr, a: TExpr, b: TExpr, ty: Ty)
    ensures ExprNames(TCond(t, MakeCast(a, ty), MakeCast(b, ty), ty)) == ExprNames(t) + (ExprNames(a) + ExprNames(b))
  {
    hide MakeCast;
    CastNames(a, ty);
    CastNames(b, ty);
  }

  lemma {:induction false} CondVisits(e: Expr, w: Walk)
    requires ExprFragment(e) && e.Conditional?
    ensures Agrees(Visit(ExprEvents(e), w), ElabExpr(e, w.ch), w)
    decreases e, 0, 1
  {
    hide Visit, MakeCast, Lookup, TypeOf, Common, ElabExpr, ExprNames;
    CondElab(e, w.ch);
    ExprVisits(e.cond, w);
    VisitAppend(ExprEvents(e.cond), ExprEvents(e.thn) + ExprEvents(e.els), w);
    if ElabExpr(e.cond, w.ch).Ok? {
      var t := ElabExpr(e.cond, w.ch).value;
      var v := w.(names := w.names + ExprNames(t));
      PairVisits(e, e.thn, e.els, v);
      if ElabExpr(e.thn, w.ch).Ok? && ElabExpr(e.els, w.ch).Ok? {
        var a, b := ElabExpr(e.thn, w.ch).value, ElabExpr(e.els, w.ch).value;
        CondNames(t, a, b, Common(TypeOf(a), TypeOf(b)));
        assert v.names + (ExprNames(a) + ExprNames(b)) == w.names + (ExprNames(t) + (ExprNames(a) + ExprNames(b)));
      }
    }
  }

  predicate OptAgrees(r: Result<Walk>, ok: Result<Option<TExpr>>, w: Walk) {
    match ok
    case Err(x) => r == Err(x)
    case Ok(t) => r == Ok(w.(names := w.names + OptNames(t)))
  }

  lemma OptVisits(e: Option<Expr>, w: Walk)
    requires OptFragment(e)
    ensures OptAgrees(Visit(OptEvents(e), w), ElabOpt(e, w.ch), w)
  {
    hide Visit, ElabExpr, ExprEvents, ExprNames, ExprFragment;
    VisitNone(w);
    assert w.names + [] == w.names;
    if e.Some? { ExprVisits(e.value, w); }
  }

  /** Analysis of a statement does what the walk over its events does: same names, same scopes, same counter. */
  predicate StmtAgrees(r: Result<Walk>, ok: Result<Done<TStmt>>, w: Walk) {
    match ok
    case Err(x) => r == Err(x)
    case Ok(d) => r == Ok(Walk(w.names + StmtNames(d.node), d.ch, d.n))
  }

  predicate StmtsAgree(r: Result<Walk>, ok: Result<Done<seq<TStmt>>>, w: Walk) {
    match ok
    case Err(x) => r == Err(x)
    case Ok(d) => r == Ok(Walk(w.names + StmtsNames(d.node), d.ch, d.n))
  }

  lemma {:induction false} StmtVisits(s: Stmt, w: Walk, rt: Ty)
    requires StmtFragment(s) && w.ch != []
    ensures StmtAgrees(Visit(StmtEvents(s), w), ElabStmt(s, w.ch, w.n, rt), w)
    decreases s, 2
  {
    hide *;
    if s.Block? { BlockVisits(s, w, rt); }
    else if s.For? { ForVisits(s, w, rt); }
    else if s.If? { IfVisits(s, w, rt); }
    else if s.While? || s.Do? { LoopVisits(s, w, rt); }
    else if s.VarDecl? { DeclVisits(s, w, rt); }
    else { SimpleVisits(s, w, rt); }
  }

  lemma SimpleVisits(s: Stmt, w: Walk, rt: Ty)
    requires StmtFragment(s) && w.ch != []
    requires !s.Block? && !s.For? && !s.If? && !s.While? && !s.Do? && !s.VarDecl?
    ensures StmtAgrees(Visit(StmtEvents(s), w), ElabStmt(s, w.ch, w.n, rt), w)
  {
    hide Visit, ElabExpr, ExprEvents, ExprNames, ExprFragment, MakeCast;
    VisitNone(w);
    assert w.names + [] == w.names;
    if s.ExprStmt? {
      OptVisits(s.e, w);
    } else if s.Return? {
      ExprVisits(s.e.value, w);
      if ElabExpr(s.e.value, w.ch).Ok? { CastNames(ElabExpr(s.e.value, w.ch).value, rt); }
    }
  }

  lemma {:induction false} StmtsVisits(ss: seq<Stmt>, w: Walk, rt: Ty)
    requires StmtsFragment(ss) && w.ch != []
    ensures StmtsAgree(Visit(StmtsEvents(ss), w), ElabStmts(ss, w.ch, w.n, rt), w)
    decreases ss
  {
    hide Visit, ElabStmt, StmtEvents, StmtNames, StmtFragment;
    VisitNone(w);
    if ss == [] {
      assert w.names + [] == w.names;
    } else {
      StmtVisits(ss[0], w, rt);
      VisitAppend(StmtEvents(ss[0]), StmtsEvents(ss[1..]), w);
      var r := ElabStmt(ss[0], w.ch, w.n, rt);
      if r.Ok? {
        var d := r.value;
        var v := Walk(w.names + StmtNames(d.node), d.ch, d.n);
        StmtsVisits(ss[1..], v, rt);
        var r' := ElabStmts(ss[1..], d.ch, d.n, rt);
        if r'.Ok? {
          ConsNames(d.node, r'.value.node);
          assert v.names + StmtsNames(r'.value.node) == w.names + (StmtNames(d.node) + StmtsNames(r'.value.node));
        }
      }
    }
  }

  lemma ConsNames(t: TStmt, ts: seq<TStmt>)
    ensures StmtsNames([t] + ts) == StmtNames(t) + StmtsNames(ts)
  {
    hide StmtNames;
    assert ([t] + ts)[1..] == ts;
  }

  /** A block: its own scope, in place while its statements are analysed. */
  lemma {:induction false} BlockVisits(s: Stmt, w: Walk, rt: Ty)
    requires s.Block? && StmtFragment(s) && w.ch != []
    ensures StmtAgrees(Visit(StmtEvents(s), w), ElabStmt(s, w.ch, w.n, rt), w)
    decreases s, 1
  {
    hide Visit, StmtsEvents, StmtsFragment, StmtsNames, ElabStmts;
    var v := w.(ch := [[]] + w.ch);
    VisitAppend([Open], StmtsEvents(s.stmts) + [Close], w);
    VisitOne(Open, w);
    VisitAppend(StmtsEvents(s.stmts), [Close], v);
    StmtsVisits(s.stmts, v, rt);
    var r := ElabStmts(s.stmts, v.ch, w.n, rt);
    if r.Ok? { VisitOne(Close, Walk(w.names + StmtsNames(r.value.node), r.value.ch, r.value.n)); }
  }

  /** A condition, then a statement. */
  lemma {:induction false} GuardVisits(s: Stmt, c: Expr, t: Stmt, w: Walk, rt: Ty)
    requires ExprFragment(c) && StmtFragment(t) && w.ch != [] && t < s
    ensures
      var both := Visit(ExprEvents(c) + StmtEvents(t), w);
      match ElabExpr(c, w.ch)
      case Err(x) => both == Err(x)
      case Ok(x) =>
        match ElabStmt(t, w.ch, w.n, rt)
        case Err(y) => both == Err(y)
        case Ok(d) => both == Ok(Walk(w.names + (ExprNames(x) + StmtNames(d.node)), d.ch, d.n))
    decreases s, 0
  {
    hide Visit, ElabExpr, ElabStmt, ExprEvents, StmtEvents, ExprNames, StmtNames, ExprFragment, StmtFragment;
    VisitAppend(ExprEvents(c), StmtEvents(t), w);
    ExprVisits(c, w);
    if ElabExpr(c, w.ch).Ok? {
      var x := ElabExpr(c, w.ch).value;
      var v := w.(names := w.names + ExprNames(x));
      StmtVisits(t, v, rt);
      if ElabStmt(t, w.ch, w.n, rt).Ok? {
        var d := ElabStmt(t, w.ch, w.n, rt).value;
        assert v.names + StmtNames(d.node) == w.names + (ExprNames(x) + StmtNames(d.node));
      }
    }
  }

  lemma {:induction false} LoopVisits(s: Stmt, w: Walk, rt: Ty)
    requires (s.While? || s.Do?) && StmtFragment(s) && w.ch != []
    ensures StmtAgrees(Visit(StmtEvents(s), w), ElabStmt(s, w.ch, w.n, rt), w)
    decreases s, 1
  {
    hide Visit, ElabExpr, ExprEvents, ExprNames, ExprFragment;
    GuardVisits(s, s.cond, s.body, w, rt);
  }

  lemma {:induction false} IfVisits(s: Stmt, w: Walk, rt: Ty)
    requires s.If? && StmtFragment(s) && w.ch != []
    ensures StmtAgrees(Visit(StmtEvents(s), w), ElabStmt(s, w.ch, w.n, rt), w)
    decreases s, 1
  {
    hide Visit, ElabExpr, ExprEvents, ExprNames, ExprFragment;
    GuardVisits(s, s.cond, s.thn, w, rt);
    if s.els.Some? {
      var a, b, c := ExprEvents(s.cond), StmtEvents(s.thn), StmtEvents(s.els.value);
      assert a + (b + c) == (a + b) + c;
      VisitAppend(a + b, c, w);
      if ElabExpr(s.cond, w.ch).Ok? && ElabStmt(s.thn, w.ch, w.n, rt).Ok? {
        var x, d := ElabExpr(s.cond, w.ch).value, ElabStmt(s.thn, w.ch, w.n, rt).value;
        var v := Walk(w.names + (ExprNames(x) + StmtNames(d.node)), d.ch, d.n);
        StmtVisits(s.els.value, v, rt);
        if ElabStmt(s.els.value, d.ch, d.n, rt).Ok? {
          var f := ElabStmt(s.els.value, d.ch, d.n, rt).value;
          assert v.names + StmtNames(f.node)
            == w.names + (ExprNames(x) + (StmtNames(d.node) + StmtNames(f.node)));
        }
      }
    }
  }

  lemma {:induction false} DeclVisits(s: Stmt, w: Walk, rt: Ty)
    requires s.VarDecl? && StmtFragment(s) && w.ch != []
    ensures StmtAgrees(Visit(StmtEvents(s), w), ElabStmt(s, w.ch, w.n, rt), w)
  {
    hide Visit, ElabOpt, OptEvents, ExprNames, OptFragment, MakeCast;
    var ty := Core(s.declType).value;
    var v := Walk(w.names + [Made(w.n, ty)], Declared(w.ch, Symbol(s.name, Object(s.declType), w.n, false)), w.n + 1);
    VisitAppend([Decl(s.name, s.declType)], OptEvents(s.initial), w);
    VisitOne(Decl(s.name, s.declType), w);
    OptVisits(s.initial, v);
    if ElabOpt(s.initial, v.ch).Ok? {
      var x := ElabOpt(s.initial, v.ch).value;
      if x.Some? { CastNames(x.value, ty); }
      assert v.names + OptNames(x) == w.names + ([Made(w.n, ty)] + OptNames(x));
    }
  }

  /** The three expressions of a `for`. */
  lemma HeadVisits(i: Option<Expr>, c: Option<Expr>, p: Option<Expr>, w: Walk)
    requires OptFragment(i) && OptFragment(c) && OptFragment(p)
    ensures
      var all := Visit(OptEvents(i) + (OptEvents(c) + OptEvents(p)), w);
      match (ElabOpt(i, w.ch), ElabOpt(c, w.ch), ElabOpt(p, w.ch))
      case (Err(x), _, _) => all == Err(x)
      case (Ok(x), Err(y), _) => all == Err(y)
      case (Ok(x), Ok(y), Err(z)) => all == Err(z)
      case (Ok(x), Ok(y), Ok(z)) => all == Ok(w.(names := w.names + (OptNames(x) + (OptNames(y) + OptNames(z)))))
  {
    hide Visit, ElabOpt, OptEvents, OptNames, OptFragment;
    VisitAppend(OptEvents(i), OptEvents(c) + OptEvents(p), w);
    OptVisits(i, w);
    if ElabOpt(i, w.ch).Ok? {
      var x := ElabOpt(i, w.ch).value;
      var v := w.(names := w.names + OptNames(x));
      VisitAppend(OptEvents(c), OptEvents(p), v);
      OptVisits(c, v);
      if ElabOpt(c, w.ch).Ok? {
        var y := ElabOpt(c, w.ch).value;
        var u := v.(names := v.names + OptNames(y));
        OptVisits(p, u);
        if ElabOpt(p, w.ch).Ok? {
          var z := ElabOpt(p, w.ch).value;
          assert u.names + OptNames(z) == w.names + (OptNames(x) + (OptNames(y) + OptNames(z)));
        }
      }
    }
  }

  /** A `for`: its own scope around everything in it. */
  lemma {:induction false} ForVisits(s: Stmt, w: Walk, rt: Ty)
    requires s.For? && StmtFragment(s) && w.ch != []
    ensures StmtAgrees(Visit(StmtEvents(s), w), ElabStmt(s, w.ch, w.n, rt), w)
    decreases s, 1
  {
    hide Visit, OptEvents, OptFragment, OptNames, ElabOpt;
    var v := w.(ch := [[]] + w.ch);
    var i, c, p, b := OptEvents(s.init), OptEvents(s.test), OptEvents(s.post), StmtEvents(s.body);
    var head := i + (c + p);
    assert StmtEvents(s) == [Open] + (head + (b + [Close]));
    VisitAppend([Open], head + (b + [Close]), w);
    VisitOne(Open, w);
    VisitAppend(head, b + [Close], v);
    HeadVisits(s.init, s.test, s.post, v);
    if ElabOpt(s.init, v.ch).Ok? && ElabOpt(s.test, v.ch).Ok? && ElabOpt(s.post, v.ch).Ok? {
      var x, y, z := ElabOpt(s.init, v.ch).value, ElabOpt(s.test, v.ch).value, ElabOpt(s.post, v.ch).value;
      var u := v.(names := v.names + (OptNames(x) + (OptNames(y) + OptNames(z))));
      VisitAppend(b, [Close], u);
      StmtVisits(s.body, u, rt);
      var r := ElabStmt(s.body, v.ch, w.n, rt);
      if r.Ok? {
        var d := r.value;
        VisitOne(Close, Walk(u.names + StmtNames(d.node), d.ch, d.n));
        assert u.names + StmtNames(d.node)
          == w.names + (OptNames(x) + (OptNames(y) + (OptNames(z) + StmtNames(d.node))));
      }
    }
  }

  lemma {:induction false} ParamsVisits(ps: seq<Param>, w: Walk)
    requires ParamsFragment(ps) && w.ch != []
    ensures ElabParams(ps, w.ch, w.n).Ok?
    ensures
      var d := ElabParams(ps, w.ch, w.n).value;
      Visit(ParamEvents(ps), w) == Ok(Walk(w.names + ParamNames(d.node), d.ch, d.n))
    decreases |ps|
  {
    hide Visit;
    VisitNone(w);
    if ps == [] {
      assert w.names + [] == w.names;
    } else {
      var ty := Core(ps[0].ptype).value;
      var made := [Made(w.n, ty)];
      var v := Walk(w.names + made, Declared(w.ch, Symbol(ps[0].name, Object(ps[0].ptype), w.n, false)), w.n + 1);
      VisitAppend([Decl(ps[0].name, ps[0].ptype)], ParamEvents(ps[1..]), w);
      VisitOne(Decl(ps[0].name, ps[0].ptype), w);
      ParamsVisits(ps[1..], v);
      var d := ElabParams(ps[1..], v.ch, v.n).value;
      assert ([TParam(w.n, ty)] + d.node)[1..] == d.node;
      assert v.names + ParamNames(d.node) == w.names + (made + ParamNames(d.node));
    }
  }

  /** The walk over a function starts in the scope of the file. */
  function Start(globals: Scope): Walk { Walk([], [globals], 0) }

  lemma FuncVisits(f: Func, globals: Scope)
    requires FuncFragment(f)
    ensures
      var r := Visit(FuncEvents(f), Start(globals));
      match ElabFunc(f, globals)
      case Err(x) => r == Err(x)
      case Ok(t) => r.Ok? && r.value.names == FuncNames(t)
  {
    hide Visit, ParamsFragment, StmtsFragment, StmtsEvents, ParamEvents, StmtsNames, ParamNames, ElabParams, ElabStmts;
    var w := Start(globals);
    var v := w.(ch := [[]] + w.ch);
    VisitAppend([Open], ParamEvents(f.params) + ([Open] + StmtsEvents(f.body)), w);
    VisitOne(Open, w);
    VisitAppend(ParamEvents(f.params), [Open] + StmtsEvents(f.body), v);
    ParamsVisits(f.params, v);
    var d := ElabParams(f.params, v.ch, 0).value;
    var u := Walk(ParamNames(d.node), d.ch, d.n);
    assert v.names + ParamNames(d.node) == ParamNames(d.node);
    VisitAppend([Open], StmtsEvents(f.body), u);
    VisitOne(Open, u);
    StmtsVisits(f.body, u.(ch := [[]] + u.ch), Core(f.result).value);
  }

  // ----- nothing else is analysed -----

  lemma {:induction false} ExprForm(e: Expr, ch: Chain)
    requires ElabExpr(e, ch).Ok?
    ensures ExprFragment(e)
    ensures ElabExpr(e, ch).value.TVar? ==> e.Ident?
  {
    hide Lookup, MakeCast, ElabIdent, TypeOf, Common;
    match e
    case Binary(_, l, r) => ExprForm(l, ch); ExprForm(r, ch);
    case Assign(_, l, r) => ExprForm(l, ch); ExprForm(r, ch);
    case Conditional(c, a, b) => ExprForm(c, ch); ExprForm(a, ch); ExprForm(b, ch);
    case Comma(l, r) => ExprForm(l, ch); ExprForm(r, ch);
    case Postfix(_, x) => ExprForm(x, ch);
    case _ =>
  }

  lemma OptForm(e: Option<Expr>, ch: Chain)
    requires ElabOpt(e, ch).Ok?
    ensures OptFragment(e)
  {
    hide ElabExpr, ExprFragment;
    if e.Some? { ExprForm(e.value, ch); }
  }

  lemma {:induction false} StmtForm(s: Stmt, ch: Chain, n: nat, rt: Ty)
    requires ch != [] && ElabStmt(s, ch, n, rt).Ok?
    ensures StmtFragment(s)
    decreases s
  {
    hide ElabExpr, ExprFragment, ElabOpt, OptFragment, MakeCast;
    match s
    case ExprStmt(e) => OptForm(e, ch);
    case Block(ss) => StmtsForm(ss, [[]] + ch, n, rt);
    case If(c, t, els) =>
      ExprForm(c, ch);
      StmtForm(t, ch, n, rt);
      if els.Some? {
        var d := ElabStmt(t, ch, n, rt).value;
        StmtForm(els.value, d.ch, d.n, rt);
      }
    case While(c, body) => ExprForm(c, ch); StmtForm(body, ch, n, rt);
    case Do(body, c) => ExprForm(c, ch); StmtForm(body, ch, n, rt);
    case For(i, c, p, body) =>
      OptForm(i, [[]] + ch);
      OptForm(c, [[]] + ch);
      OptForm(p, [[]] + ch);
      StmtForm(body, [[]] + ch, n, rt);
    case Return(e) => if e.Some? { ExprForm(e.value, ch); }
    case VarDecl(name, ct, initial) =>
      if Core(ct).Some? { OptForm(initial, Declared(ch, Symbol(name, Object(ct), n, false))); }
    case _ =>
  }

  lemma {:induction false} StmtsForm(ss: seq<Stmt>, ch: Chain, n: nat, rt: Ty)
    requires ch != [] && ElabStmts(ss, ch, n, rt).Ok?
    ensures StmtsFragment(ss)
    decreases ss
  {
    hide ElabStmt, StmtFragment;
    if ss != [] {
      StmtForm(ss[0], ch, n, rt);
      var d := ElabStmt(ss[0], ch, n, rt).value;
      StmtsForm(ss[1..], d.ch, d.n, rt);
    }
  }

  lemma {:induction false} ParamsForm(ps: seq<Param>, ch: Chain, i: nat)
    requires ch != [] && ElabParams(ps, ch, i).Ok?
    ensures ParamsFragment(ps)
    decreases |ps|
  {
    if ps != [] { ParamsForm(ps[1..], Declared(ch, Symbol(ps[0].name, Object(ps[0].ptype), i, false)), i + 1); }
  }

  lemma FuncForm(f: Func, globals: Scope)
    requires ElabFunc(f, globals).Ok?
    ensures FuncFragment(f)
  {
    hide ElabParams, ElabStmts, ParamsFragment, StmtsFragment;
    ParamsForm(f.params, [[]] + [globals], 0);
    var d := ElabParams(f.params, [[]] + [globals], 0).value;
    StmtsForm(f.body, [[]] + d.ch, d.n, Core(f.result).value);
  }
}
