/** Elaboration keeps the meaning of C programs and makes every node well typed. */
module ElabSound {
  import opened Options
  import opened Words
  import opened Ast
  import opened Typed
  import opened Meaning
  import opened CMeaning
  import opened Scopes
  import opened Sema
  import opened ExprSim
  import opened FuncSim
  import opened Narrow

  /** The chain resolves every name to the object the environment gives it. */
  ghost predicate Resolves(ch: Chain, g: Env, lay: Layout, x: string) {
    (ElabIdent(x, ch).Ok? <==> x in g)
    && (x in g ==> ElabIdent(x, ch) == Ok(TVar(g[x].loc, g[x].ty)) && HasLocal(lay, g[x].loc, g[x].ty))
  }

  ghost predicate Agree(ch: Chain, g: Env, lay: Layout) {
    forall x :: Resolves(ch, g, lay, x)
  }

  /** A constant the narrowing conversion does no harm to as a divisor. */
  predicate SafeConstant(op: ArithOp, e: Expr) { e.IntLit? && SafeDivisor(op, e.value) }

  /**
   No compound division or remainder has a right side wider than its left, where the narrowing
   conversion changes the result, but for safe constants.
   */
  predicate NoWideDivision(e: Expr, g: Env) {
    match e
    case Binary(_, l, r) => NoWideDivision(l, g) && NoWideDivision(r, g)
    case Assign(aop, l, r) =>
      NoWideDivision(l, g) && NoWideDivision(r, g)
      && (aop == Some(Div) || aop == Some(Rem) ==>
            l.Ident? && l.name in g
            && (g[l.name].ty == Int ==> TypeIn(r, g) == Some(Int) || SafeConstant(aop.value, r)))
    case Conditional(c, a, b) => NoWideDivision(c, g) && NoWideDivision(a, g) && NoWideDivision(b, g)
    case Comma(l, r) => NoWideDivision(l, g) && NoWideDivision(r, g)
    case _ => true
  }

  lemma MakeCastTyped(e: TExpr, to: Ty, lay: Layout)
    requires WellTyped(e, lay)
    ensures WellTyped(MakeCast(e, to), lay) && TypeOf(MakeCast(e, to)) == to
  {
  }

  lemma BinaryTyped(bop: BinOp, x: TExpr, y: TExpr, lay: Layout)
    requires WellTyped(x, lay) && WellTyped(y, lay)
    ensures WellTyped(ElabBinary(bop, x, y), lay)
    ensures TypeOf(ElabBinary(bop, x, y))
         == match bop
            case Arithmetic(op) => if Shift(op) then TypeOf(x) else UsualType(TypeOf(x), TypeOf(y))
            case _ => Int
  {
    hide MakeCast;
    MakeCastTyped(x, Common(TypeOf(x), TypeOf(y)), lay);
    MakeCastTyped(y, Common(TypeOf(x), TypeOf(y)), lay);
  }

  /** An elaborated expression has the type C gives it, and every operand has the type its operator works in. */
  lemma {:induction false} ElabTyped(e: Expr, ch: Chain, g: Env, lay: Layout)
    requires Agree(ch, g, lay) && ElabExpr(e, ch).Ok?
    ensures TypeIn(e, g) == Some(TypeOf(ElabExpr(e, ch).value))
    ensures WellTyped(ElabExpr(e, ch).value, lay)
    decreases e, 1
  {
    hide MakeCast, ElabBinary, Lookup, ElabIdent, UsualType, Shift;
    match e
    case IntLit(_, _) =>
    case CharLit(_) =>
    case Ident(x) => assert Resolves(ch, g, lay, x);
    case Binary(_, _, _) => OperatorTyped(e, ch, g, lay);
    case Assign(_, _, _) => AssignTyped(e, ch, g, lay);
    case Conditional(_, _, _) => ConditionalTyped(e, ch, g, lay);
    case Comma(l, r) => ElabTyped(l, ch, g, lay); ElabTyped(r, ch, g, lay);
    case Postfix(_, x) =>
      ElabTyped(x, ch, g, lay);
      VariableIsIdent(x, ch);
      assert Resolves(ch, g, lay, x.name);
  }

  lemma {:induction false} OperatorTyped(e: Expr, ch: Chain, g: Env, lay: Layout)
    requires e.Binary? && Agree(ch, g, lay) && ElabExpr(e, ch).Ok?
    ensures TypeIn(e, g) == Some(TypeOf(ElabExpr(e, ch).value)) && WellTyped(ElabExpr(e, ch).value, lay)
    decreases e, 0
  {
    hide MakeCast, ElabBinary, Lookup, ElabIdent, Agree, UsualType, Shift;
    ElabTyped(e.lhs, ch, g, lay);
    ElabTyped(e.rhs, ch, g, lay);
    BinaryTyped(e.bop, ElabExpr(e.lhs, ch).value, ElabExpr(e.rhs, ch).value, lay);
  }

  lemma {:induction false} AssignTyped(e: Expr, ch: Chain, g: Env, lay: Layout)
    requires e.Assign? && Agree(ch, g, lay) && ElabExpr(e, ch).Ok?
    ensures TypeIn(e, g) == Some(TypeOf(ElabExpr(e, ch).value)) && WellTyped(ElabExpr(e, ch).value, lay)
    decreases e, 0
  {
    hide MakeCast, Lookup, ElabIdent;
    ElabTyped(e.lhs, ch, g, lay);
    ElabTyped(e.rhs, ch, g, lay);
    VariableIsIdent(e.lhs, ch);
    assert Resolves(ch, g, lay, e.lhs.name);
    MakeCastTyped(ElabExpr(e.rhs, ch).value, ElabExpr(e.lhs, ch).value.ty, lay);
  }

  lemma {:induction false} ConditionalTyped(e: Expr, ch: Chain, g: Env, lay: Layout)
    requires e.Conditional? && Agree(ch, g, lay) && ElabExpr(e, ch).Ok?
    ensures TypeIn(e, g) == Some(TypeOf(ElabExpr(e, ch).value)) && WellTyped(ElabExpr(e, ch).value, lay)
    decreases e, 0
  {
    hide MakeCast, Lookup, ElabIdent, Agree;
    ElabTyped(e.cond, ch, g, lay);
    ElabTyped(e.thn, ch, g, lay);
    ElabTyped(e.els, ch, g, lay);
    var y, z := ElabExpr(e.thn, ch).value, ElabExpr(e.els, ch).value;
    MakeCastTyped(y, Common(TypeOf(y), TypeOf(z)), lay);
    MakeCastTyped(z, Common(TypeOf(y), TypeOf(z)), lay);
  }

  lemma VariableIsIdent(e: Expr, ch: Chain)
    requires ElabExpr(e, ch).Ok? && ElabExpr(e, ch).value.TVar?
    ensures e.Ident?
  {
  }

  // ----- values -----

  lemma WrapFits(ty: Ty, v: int)
    requires InRange(ty, v)
    ensures Wrap(ty, v) == v
  {
    SignedBits(ty, v);
  }

  /** A value of a type converts to the common type unchanged. */
  lemma WidenExact(a: Ty, b: Ty, v: int)
    requires InRange(a, v)
    ensures Wrap(Common(a, b), v) == v && Wrap(Common(b, a), v) == v
  {
    WrapFits(Common(a, b), v);
  }

  /** A cast converts the value, present or not. */
  lemma MakeCastEval(e: TExpr, to: Ty, st: Meaning.Store, lay: Layout)
    requires WellTyped(e, lay) && StoreOk(st, lay)
    ensures Eval(MakeCast(e, to), st)
         == match Eval(e, st) case None => None case Some(x) => Some(Evaluated(Wrap(to, x.v), x.st))
  {
    if Eval(e, st).Some? {
      EvalInRange(e, st, lay);
      if TypeOf(e) == to { WrapFits(to, Eval(e, st).value.v); }
    }
  }

  /** What C defines, the elaborated expression computes, value and store. */
  ghost predicate SameValue(e: Expr, ch: Chain, g: Env, st: Meaning.Store) {
    ElabExpr(e, ch).Ok? && TypeIn(e, g).Some?
    && (CEval(e, g, st).Some? ==> Eval(ElabExpr(e, ch).value, st) == CEval(e, g, st))
  }

  lemma {:induction false} ElabEval(e: Expr, ch: Chain, g: Env, lay: Layout, st: Meaning.Store)
    requires Agree(ch, g, lay) && ElabExpr(e, ch).Ok? && NoWideDivision(e, g) && StoreOk(st, lay)
    ensures SameValue(e, ch, g, st)
    decreases e, 1
  {
    ElabTyped(e, ch, g, lay);
    if CEval(e, g, st).Some? {
      match e
      case IntLit(_, _) =>
      case CharLit(_) =>
      case Ident(x) => assert Resolves(ch, g, lay, x);
      case Binary(bop, l, r) =>
        if bop.LogAnd? || bop.LogOr? { ElabLogic(e, ch, g, lay, st); }
        else if bop.Arithmetic? { ElabArithmetic(e, ch, g, lay, st); }
        else { ElabComparison(e, ch, g, lay, st); }
      case Assign(aop, l, r) => ElabAssign(e, ch, g, lay, st);
      case Conditional(c, a, b) => ElabConditional(e, ch, g, lay, st);
      case Comma(l, r) =>
        var x := Operand(l, ch, g, lay, st);
        ElabEval(r, ch, g, lay, x.st);
      case Postfix(inc, x) =>
        VariableIsIdent(x, ch);
        assert Resolves(ch, g, lay, x.name);
    }
  }

  /** The first operand, and that the store stays in range. */
  lemma Operand(e: Expr, ch: Chain, g: Env, lay: Layout, st: Meaning.Store) returns (x: Evaluated)
    requires Agree(ch, g, lay) && ElabExpr(e, ch).Ok? && NoWideDivision(e, g) && StoreOk(st, lay)
    requires TypeIn(e, g).Some? && CEval(e, g, st).Some?
    ensures x == CEval(e, g, st).value && Eval(ElabExpr(e, ch).value, st) == Some(x)
    ensures StoreOk(x.st, lay) && InRange(TypeOf(ElabExpr(e, ch).value), x.v)
    ensures WellTyped(ElabExpr(e, ch).value, lay) && TypeIn(e, g) == Some(TypeOf(ElabExpr(e, ch).value))
    decreases e, 2
  {
    ElabTyped(e, ch, g, lay);
    ElabEval(e, ch, g, lay, st);
    EvalInRange(ElabExpr(e, ch).value, st, lay);
    x := CEval(e, g, st).value;
  }

  lemma ElabArithmetic(e: Expr, ch: Chain, g: Env, lay: Layout, st: Meaning.Store)
    requires e.Binary? && e.bop.Arithmetic?
    requires Agree(ch, g, lay) && ElabExpr(e, ch).Ok? && NoWideDivision(e, g) && StoreOk(st, lay)
    requires TypeIn(e, g).Some? && CEval(e, g, st).Some?
    ensures Eval(ElabExpr(e, ch).value, st) == CEval(e, g, st)
    decreases e, 0
  {
    hide Agree, Resolves, StoreOk, WellTyped, InRange, Wrap, Arith, Compare, MakeCast, ElabIdent, Lookup;
    var x := Operand(e.lhs, ch, g, lay, st);
    var y := Operand(e.rhs, ch, g, lay, x.st);
    var l, r := ElabExpr(e.lhs, ch).value, ElabExpr(e.rhs, ch).value;
    var common := Common(TypeOf(l), TypeOf(r));
    MakeCastEval(l, common, st, lay);
    MakeCastEval(r, common, x.st, lay);
    MakeCastTyped(l, common, lay);
  }

  lemma ElabComparison(e: Expr, ch: Chain, g: Env, lay: Layout, st: Meaning.Store)
    requires e.Binary? && e.bop.Comparison?
    requires Agree(ch, g, lay) && ElabExpr(e, ch).Ok? && NoWideDivision(e, g) && StoreOk(st, lay)
    requires TypeIn(e, g).Some? && CEval(e, g, st).Some?
    ensures Eval(ElabExpr(e, ch).value, st) == CEval(e, g, st)
    decreases e, 0
  {
    hide Agree, Resolves, StoreOk, WellTyped, InRange, Wrap, Arith, Compare, MakeCast, ElabIdent, Lookup;
    var x := Operand(e.lhs, ch, g, lay, st);
    var y := Operand(e.rhs, ch, g, lay, x.st);
    var l, r := ElabExpr(e.lhs, ch).value, ElabExpr(e.rhs, ch).value;
    var common := Common(TypeOf(l), TypeOf(r));
    MakeCastEval(l, common, st, lay);
    MakeCastEval(r, common, x.st, lay);
    MakeCastTyped(l, common, lay);
  }

  lemma ElabLogic(e: Expr, ch: Chain, g: Env, lay: Layout, st: Meaning.Store)
    requires e.Binary? && (e.bop.LogAnd? || e.bop.LogOr?)
    requires Agree(ch, g, lay) && ElabExpr(e, ch).Ok? && NoWideDivision(e, g) && StoreOk(st, lay)
    requires TypeIn(e, g).Some? && CEval(e, g, st).Some?
    ensures Eval(ElabExpr(e, ch).value, st) == CEval(e, g, st)
    decreases e, 0
  {
    hide Agree, Resolves, StoreOk, WellTyped, InRange, Wrap, Arith, Compare, MakeCast, ElabIdent, Lookup;
    var x := Operand(e.lhs, ch, g, lay, st);
    ElabTyped(e.rhs, ch, g, lay);
    var l, r := ElabExpr(e.lhs, ch).value, ElabExpr(e.rhs, ch).value;
    var common := Common(TypeOf(l), TypeOf(r));
    MakeCastEval(l, common, st, lay);
    WidenExact(TypeOf(l), TypeOf(r), x.v);
    if (x.v != 0) == e.bop.LogAnd? {
      var y := Operand(e.rhs, ch, g, lay, x.st);
      MakeCastEval(r, common, x.st, lay);
      WidenExact(TypeOf(r), TypeOf(l), y.v);
    }
  }

  lemma ElabConditional(e: Expr, ch: Chain, g: Env, lay: Layout, st: Meaning.Store)
    requires e.Conditional?
    requires Agree(ch, g, lay) && ElabExpr(e, ch).Ok? && NoWideDivision(e, g) && StoreOk(st, lay)
    requires TypeIn(e, g).Some? && CEval(e, g, st).Some?
    ensures Eval(ElabExpr(e, ch).value, st) == CEval(e, g, st)
    decreases e, 0
  {
    hide Agree, Resolves, StoreOk, WellTyped, InRange, Wrap, Arith, Compare, MakeCast, ElabIdent, Lookup;
    var x := Operand(e.cond, ch, g, lay, st);
    ElabTyped(e.thn, ch, g, lay);
    ElabTyped(e.els, ch, g, lay);
    var a, b := ElabExpr(e.thn, ch).value, ElabExpr(e.els, ch).value;
    var common := Common(TypeOf(a), TypeOf(b));
    if x.v != 0 {
      var y := Operand(e.thn, ch, g, lay, x.st);
      MakeCastEval(a, common, x.st, lay);
    } else {
      var y := Operand(e.els, ch, g, lay, x.st);
      MakeCastEval(b, common, x.st, lay);
    }
  }

  lemma ElabAssign(e: Expr, ch: Chain, g: Env, lay: Layout, st: Meaning.Store)
    requires e.Assign?
    requires Agree(ch, g, lay) && ElabExpr(e, ch).Ok? && NoWideDivision(e, g) && StoreOk(st, lay)
    requires TypeIn(e, g).Some? && CEval(e, g, st).Some?
    ensures Eval(ElabExpr(e, ch).value, st) == CEval(e, g, st)
    decreases e, 0
  {
    VariableIsIdent(e.lhs, ch);
    var name := e.lhs.name;
    assert Resolves(ch, g, lay, name);
    var y := Operand(e.rhs, ch, g, lay, st);
    var r := ElabExpr(e.rhs, ch).value;
    MakeCastEval(r, g[name].ty, st, lay);
    if e.aop.Some? {
      CompoundValue(e.aop.value, g[name].ty, y.st[g[name].loc], TypeOf(r), y.v);
    }
  }

  /** Converting the right side of a compound assignment first gives C's result, but for wide unsafe divisors. */
  lemma CompoundValue(op: ArithOp, a: Ty, x: int, b: Ty, y: int)
    requires InRange(a, x) && InRange(b, y)
    requires op.Div? || op.Rem? ==> a == Int ==> b == Int || SafeDivisor(op, y)
    requires Operate(op, a, x, b, y).Some?
    ensures Arith(op, a, x, Wrap(a, y)) == Some(Wrap(a, Operate(op, a, x, b, y).value))
  {
    WrapFits(a, x);
    if a == Int && b == Long {
      WrapFits(Long, x);
      WrapFits(Long, y);
      if op.Div? || op.Rem? { DivisorKept(op, x, y); } else { NarrowFirst(op, x, y); }
    } else {
      WrapFits(a, y);
      ArithInRange(op, a, x, y);
      WrapFits(a, Arith(op, a, x, y).value);
    }
  }

  /**
   What the elaborated compound assignment computes, whatever the types: the right side cast to the type of the
   left before the operator. `CompoundValue`, `NarrowExactly` and `DivisorExactly` say when that is what C prescribes.
   */
  lemma CompoundElaborated(e: Expr, ch: Chain, g: Env, lay: Layout, st: Meaning.Store)
    requires e.Assign? && e.aop.Some? && Agree(ch, g, lay) && ElabExpr(e, ch).Ok? && StoreOk(st, lay)
    ensures e.lhs.Ident? && e.lhs.name in g && ElabExpr(e.rhs, ch).Ok?
    ensures
      Eval(ElabExpr(e, ch).value, st) ==
        match Eval(ElabExpr(e.rhs, ch).value, st)
        case None => None
        case Some(y) =>
          var x := g[e.lhs.name];
          if x.loc !in y.st then None
          else match Arith(e.aop.value, x.ty, y.st[x.loc], Wrap(x.ty, y.v))
            case None => None
            case Some(v) => Some(Evaluated(v, y.st[x.loc := v]))
  {
    hide Agree, Resolves, StoreOk, WellTyped, InRange, Wrap, Arith, MakeCast, Lookup;
    VariableIsIdent(e.lhs, ch);
    NameResolves(e.lhs.name, ch, g, lay);
    ElabTyped(e.rhs, ch, g, lay);
    MakeCastEval(ElabExpr(e.rhs, ch).value, g[e.lhs.name].ty, st, lay);
  }

  lemma NameResolves(x: string, ch: Chain, g: Env, lay: Layout)
    requires Agree(ch, g, lay) && ElabIdent(x, ch).Ok?
    ensures x in g && ElabIdent(x, ch) == Ok(TVar(g[x].loc, g[x].ty))
  {
    hide ElabIdent;
    assert Resolves(ch, g, lay, x);
  }

  // ----- statements -----

  /** No declaration inside the statement. */
  predicate Undeclaring(s: Stmt) {
    match s
    case Block(ss) => UndeclaringAll(ss)
    case If(_, t, els) => Undeclaring(t) && (els.Some? ==> Undeclaring(els.value))
    case While(_, body) => Undeclaring(body)
    case Do(body, _) => Undeclaring(body)
    case For(_, _, _, body) => Undeclaring(body)
    case VarDecl(_, _, _) => false
    case _ => true
  }

  predicate UndeclaringAll(ss: seq<Stmt>) {
    ss == [] || (Undeclaring(ss[0]) && UndeclaringAll(ss[1..]))
  }

  predicate NarrowOpt(e: Option<Expr>, g: Env) { e.Some? ==> NoWideDivision(e.value, g) }

  /** No compound division narrows its right side. */
  predicate NarrowStmt(s: Stmt, g: Env) {
    match s
    case ExprStmt(e) => NarrowOpt(e, g)
    case Block(ss) => NarrowStmts(ss, g)
    case If(c, t, els) => NoWideDivision(c, g) && NarrowStmt(t, g) && (els.Some? ==> NarrowStmt(els.value, g))
    case While(c, body) => NoWideDivision(c, g) && NarrowStmt(body, g)
    case Do(body, c) => NoWideDivision(c, g) && NarrowStmt(body, g)
    case For(i, c, p, body) => NarrowOpt(i, g) && NarrowOpt(c, g) && NarrowOpt(p, g) && NarrowStmt(body, g)
    case Return(e) => NarrowOpt(e, g)
    case _ => true
  }

  predicate NarrowStmts(ss: seq<Stmt>, g: Env) {
    ss == [] || (NarrowStmt(ss[0], g) && NarrowStmts(ss[1..], g))
  }

  lemma AgreeInside(ch: Chain, g: Env, lay: Layout)
    requires Agree(ch, g, lay)
    ensures Agree([[]] + ch, g, lay)
  {
    assert ([[]] + ch)[1..] == ch;
    forall x ensures Resolves([[]] + ch, g, lay, x) {
      assert Resolves(ch, g, lay, x);
      assert Lookup([[]] + ch, x) == Lookup(ch, x);
    }
  }

  lemma OptTyped(e: Option<Expr>, ch: Chain, g: Env, lay: Layout)
    requires Agree(ch, g, lay) && ElabOpt(e, ch).Ok?
    ensures WellTypedOpt(ElabOpt(e, ch).value, lay)
  {
    if e.Some? { ElabTyped(e.value, ch, g, lay); }
  }

  /** An elaborated statement without declarations is well typed and leaves scopes and ids as they were. */
  lemma {:induction false} ElabStmtTyped(s: Stmt, ch: Chain, n: nat, rt: Ty, g: Env, lay: Layout)
    requires ch != [] && Agree(ch, g, lay) && ElabStmt(s, ch, n, rt).Ok? && Undeclaring(s)
    ensures
      var d := ElabStmt(s, ch, n, rt).value;
      d.ch == ch && d.n == n && NoDecls(d.node) && WellTypedStmt(d.node, lay, rt)
    decreases s
  {
    hide MakeCast, Agree, WellTyped, ElabExpr;
    match s
    case ExprStmt(e) => OptTyped(e, ch, g, lay);
    case Block(ss) =>
      AgreeInside(ch, g, lay);
      ElabStmtsTyped(ss, [[]] + ch, n, rt, g, lay);
      assert ([[]] + ch)[1..] == ch;
    case If(c, t, els) =>
      ElabTyped(c, ch, g, lay);
      ElabStmtTyped(t, ch, n, rt, g, lay);
      if els.Some? { ElabStmtTyped(els.value, ch, n, rt, g, lay); }
    case While(c, body) =>
      ElabTyped(c, ch, g, lay);
      ElabStmtTyped(body, ch, n, rt, g, lay);
    case Do(body, c) =>
      ElabTyped(c, ch, g, lay);
      ElabStmtTyped(body, ch, n, rt, g, lay);
    case For(i, c, p, body) =>
      AgreeInside(ch, g, lay);
      OptTyped(i, [[]] + ch, g, lay);
      OptTyped(c, [[]] + ch, g, lay);
      OptTyped(p, [[]] + ch, g, lay);
      ElabStmtTyped(body, [[]] + ch, n, rt, g, lay);
      assert ([[]] + ch)[1..] == ch;
    case Return(e) =>
      ElabTyped(e.value, ch, g, lay);
      MakeCastTyped(ElabExpr(e.value, ch).value, rt, lay);
    case Break =>
    case Continue =>
  }

  lemma {:induction false} ElabStmtsTyped(ss: seq<Stmt>, ch: Chain, n: nat, rt: Ty, g: Env, lay: Layout)
    requires ch != [] && Agree(ch, g, lay) && ElabStmts(ss, ch, n, rt).Ok? && UndeclaringAll(ss)
    ensures
      var d := ElabStmts(ss, ch, n, rt).value;
      d.ch == ch && d.n == n && NoDeclsAll(d.node) && WellTypedStmts(d.node, lay, rt)
    decreases ss
  {
    if ss != [] {
      ElabStmtTyped(ss[0], ch, n, rt, g, lay);
      ElabStmtsTyped(ss[1..], ch, n, rt, g, lay);
      var d := ElabStmts(ss, ch, n, rt).value;
      assert d.node[1..] == ElabStmts(ss[1..], ch, n, rt).value.node;
    }
  }

  /** The same result whenever C defines one. */
  ghost predicate SameOutcome(c: Outcome, t: Outcome, lay: Layout) {
    c != Undefined ==> t == c && (c.Normal? || c.Broke? || c.Continued? || c.Returned? ==> StoreOk(c.st, lay))
  }

  lemma OptEval(e: Option<Expr>, ch: Chain, g: Env, lay: Layout, st: Meaning.Store)
    requires Agree(ch, g, lay) && ElabOpt(e, ch).Ok? && NarrowOpt(e, g) && StoreOk(st, lay)
    ensures CEvalOpt(e, g, st).Some? ==>
      EvalOpt(ElabOpt(e, ch).value, st) == CEvalOpt(e, g, st) && StoreOk(CEvalOpt(e, g, st).value.st, lay)
  {
    if e.Some? && CEvalOpt(e, g, st).Some? { var x := Operand(e.value, ch, g, lay, st); }
  }

  lemma TestEval(e: Expr, ch: Chain, g: Env, lay: Layout, st: Meaning.Store)
    requires Agree(ch, g, lay) && ElabExpr(e, ch).Ok? && NoWideDivision(e, g) && StoreOk(st, lay)
    ensures CEvalOpt(Some(e), g, st).Some? ==>
      Eval(ElabExpr(e, ch).value, st) == CEvalOpt(Some(e), g, st) && StoreOk(CEvalOpt(Some(e), g, st).value.st, lay)
  {
    if CEvalOpt(Some(e), g, st).Some? { var x := Operand(e, ch, g, lay, st); }
  }

  /** A statement the elaboration of which is `t`, in agreeing scopes. */
  ghost predicate Elaborated(s: Stmt, t: TStmt, ch: Chain, n: nat, rt: Ty, g: Env, lay: Layout) {
    ch != [] && Agree(ch, g, lay) && Undeclaring(s) && NarrowStmt(s, g)
    && ElabStmt(s, ch, n, rt).Ok? && ElabStmt(s, ch, n, rt).value.node == t
  }

  ghost predicate ElaboratedAll(ss: seq<Stmt>, ts: seq<TStmt>, ch: Chain, n: nat, rt: Ty, g: Env, lay: Layout) {
    ch != [] && Agree(ch, g, lay) && UndeclaringAll(ss) && NarrowStmts(ss, g)
    && ElabStmts(ss, ch, n, rt).Ok? && ElabStmts(ss, ch, n, rt).value.node == ts
  }

  /** Elaboration keeps the meaning of statements. */
  lemma {:induction false} ElabExec(s: Stmt, t: TStmt, ch: Chain, n: nat, rt: Ty, g: Env, lay: Layout,
                                    st: Meaning.Store, fuel: nat)
    requires Elaborated(s, t, ch, n, rt, g, lay) && StoreOk(st, lay)
    ensures SameOutcome(CExec(s, g, rt, st, fuel), Exec(t, st, fuel), lay)
    decreases fuel, s, 4
  {
    hide MakeCast, Agree, NoWideDivision, ElabExpr, StoreOk, Eval, CEvalOpt;
    match s
    case ExprStmt(e) => OptEval(e, ch, g, lay, st);
    case Block(ss) =>
      AgreeInside(ch, g, lay);
      ElabExecAll(ss, t.stmts, [[]] + ch, n, rt, g, lay, st, fuel);
    case If(c, thn, els) => ElabIf(s, t, ch, n, rt, g, lay, st, fuel);
    case While(c, body) => ElabWhile(s, t, ch, n, rt, g, lay, st, fuel);
    case Do(body, c) => ElabDo(s, t, ch, n, rt, g, lay, st, fuel);
    case For(i, _, _, _) =>
      AgreeInside(ch, g, lay);
      OptEval(i, [[]] + ch, g, lay, st);
      if CEvalOpt(i, g, st).Some? { ElabFor(s, t, ch, n, rt, g, lay, CEvalOpt(i, g, st).value.st, fuel); }
    case Return(e) => ElabReturn(e.value, ch, rt, g, lay, st);
    case Break =>
    case Continue =>
  }

  lemma ElabReturn(e: Expr, ch: Chain, rt: Ty, g: Env, lay: Layout, st: Meaning.Store)
    requires Agree(ch, g, lay) && ElabExpr(e, ch).Ok? && NoWideDivision(e, g) && StoreOk(st, lay)
    ensures
      var c := CEvalOpt(Some(e), g, st);
      c.Some? ==>
        Eval(MakeCast(ElabExpr(e, ch).value, rt), st) == Some(Evaluated(Wrap(rt, c.value.v), c.value.st))
        && StoreOk(c.value.st, lay)
  {
    ElabTyped(e, ch, g, lay);
    if CEvalOpt(Some(e), g, st).Some? {
      var x := Operand(e, ch, g, lay, st);
      MakeCastEval(ElabExpr(e, ch).value, rt, st, lay);
    }
  }

  lemma {:induction false} ElabExecAll(ss: seq<Stmt>, ts: seq<TStmt>, ch: Chain, n: nat, rt: Ty, g: Env, lay: Layout,
                                       st: Meaning.Store, fuel: nat)
    requires ElaboratedAll(ss, ts, ch, n, rt, g, lay) && StoreOk(st, lay)
    ensures SameOutcome(CExecAll(ss, g, rt, st, fuel), ExecAll(ts, st, fuel), lay)
    decreases fuel, ss, 3
  {
    hide Agree, StoreOk;
    if ss != [] {
      ElabStmtTyped(ss[0], ch, n, rt, g, lay);
      ElabExec(ss[0], ts[0], ch, n, rt, g, lay, st, fuel);
      var out := CExec(ss[0], g, rt, st, fuel);
      assert ts[1..] == ElabStmts(ss[1..], ch, n, rt).value.node;
      if out.Normal? { ElabExecAll(ss[1..], ts[1..], ch, n, rt, g, lay, out.st, fuel); }
    }
  }

  lemma ElabIf(s: Stmt, t: TStmt, ch: Chain, n: nat, rt: Ty, g: Env, lay: Layout, st: Meaning.Store, fuel: nat)
    requires s.If? && Elaborated(s, t, ch, n, rt, g, lay) && StoreOk(st, lay)
    ensures SameOutcome(CExec(s, g, rt, st, fuel), Exec(t, st, fuel), lay)
    decreases fuel, s, 3
  {
    hide Agree, StoreOk, Eval, CEvalOpt, ElabExpr, NoWideDivision;
    TestEval(s.cond, ch, g, lay, st);
    ElabStmtTyped(s.thn, ch, n, rt, g, lay);
    if CEvalOpt(Some(s.cond), g, st).Some? {
      var x := CEvalOpt(Some(s.cond), g, st).value;
      if x.v != 0 { ElabExec(s.thn, t.thn, ch, n, rt, g, lay, x.st, fuel); }
      else if s.els.Some? { ElabExec(s.els.value, t.els.value, ch, n, rt, g, lay, x.st, fuel); }
    }
  }

  lemma {:induction false} ElabWhile(s: Stmt, t: TStmt, ch: Chain, n: nat, rt: Ty, g: Env, lay: Layout,
                                     st: Meaning.Store, fuel: nat)
    requires s.While? && Elaborated(s, t, ch, n, rt, g, lay) && StoreOk(st, lay)
    ensures SameOutcome(CExec(s, g, rt, st, fuel), Exec(t, st, fuel), lay)
    decreases fuel, s, 3
  {
    hide Agree, StoreOk, Eval, CEvalOpt, ElabExpr, NoWideDivision;
    if fuel > 0 {
      TestEval(s.cond, ch, g, lay, st);
      if CEvalOpt(Some(s.cond), g, st).Some? {
        var x := CEvalOpt(Some(s.cond), g, st).value;
        if x.v != 0 {
          ElabExec(s.body, t.body, ch, n, rt, g, lay, x.st, fuel);
          var out := CExec(s.body, g, rt, x.st, fuel);
          if out.Normal? || out.Continued? { ElabWhile(s, t, ch, n, rt, g, lay, out.st, fuel - 1); }
        }
      }
    }
  }

  lemma {:induction false} ElabDo(s: Stmt, t: TStmt, ch: Chain, n: nat, rt: Ty, g: Env, lay: Layout, st: Meaning.Store,
                                  fuel: nat)
    requires s.Do? && Elaborated(s, t, ch, n, rt, g, lay) && StoreOk(st, lay)
    ensures SameOutcome(CExec(s, g, rt, st, fuel), Exec(t, st, fuel), lay)
    decreases fuel, s, 3
  {
    hide Agree, StoreOk, Eval, CEvalOpt, ElabExpr, NoWideDivision;
    if fuel > 0 {
      ElabExec(s.body, t.body, ch, n, rt, g, lay, st, fuel);
      var out := CExec(s.body, g, rt, st, fuel);
      if out.Normal? || out.Continued? {
        TestEval(s.cond, ch, g, lay, out.st);
        if CEvalOpt(Some(s.cond), g, out.st).Some? {
          var x := CEvalOpt(Some(s.cond), g, out.st).value;
          if x.v != 0 { ElabDo(s, t, ch, n, rt, g, lay, x.st, fuel - 1); }
        }
      }
    }
  }

  lemma {:induction false} ElabFor(s: Stmt, t: TStmt, ch: Chain, n: nat, rt: Ty, g: Env, lay: Layout, st: Meaning.Store,
                                   fuel: nat)
    requires s.For? && Elaborated(s, t, ch, n, rt, g, lay) && StoreOk(st, lay)
    ensures SameOutcome(CExecFor(s, g, rt, st, fuel), ExecFor(t, st, fuel), lay)
    decreases fuel, s, 3
  {
    hide Agree, StoreOk, Eval, CEvalOpt, EvalOpt, ElabExpr, ElabOpt, NoWideDivision, NarrowOpt;
    var inner := [[]] + ch;
    AgreeInside(ch, g, lay);
    if fuel > 0 {
      OptEval(s.test, inner, g, lay, st);
      if CEvalOpt(s.test, g, st).Some? {
        var x := CEvalOpt(s.test, g, st).value;
        if x.v != 0 {
          ElabExec(s.body, t.body, inner, n, rt, g, lay, x.st, fuel);
          var out := CExec(s.body, g, rt, x.st, fuel);
          if out.Normal? || out.Continued? {
            OptEval(s.post, inner, g, lay, out.st);
            if CEvalOpt(s.post, g, out.st).Some? {
              ElabFor(s, t, ch, n, rt, g, lay, CEvalOpt(s.post, g, out.st).value.st, fuel - 1);
            }
          }
        }
      }
    }
  }
}
