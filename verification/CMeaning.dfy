/**
 What a C function of the fragment means, stated on the parsed tree by the rules of
 ISO C11: usual arithmetic conversions, assignment conversion, scope of declarations.
 Both sides of `=` and of an operator are evaluated left to right; the old value of a
 compound assignment is read after its right-hand side.
 */
module CMeaning {
  import opened Options
  import opened Words
  import opened Ast
  import opened Meaning

  /** A visible object: where it is stored and its type. */
  datatype Var = Var(loc: nat, ty: Ty)

  type Env = map<string, Var>

  /** Section 6.3.1.8: the type two integer operands are converted to. */
  function UsualType(a: Ty, b: Ty): Ty { if a == b then a else Long }

  predicate Shift(op: ArithOp) { op == Shl || op == Shr }

  /** The type of an expression, when it has one. */
  function TypeIn(e: Expr, g: Env): Option<Ty> {
    match e
    case IntLit(_, ct) => Core(ct)
    case CharLit(_) => Some(Int)
    case Ident(x) => if x in g then Some(g[x].ty) else None
    case Binary(bop, l, r) =>
      (match (TypeIn(l, g), TypeIn(r, g))
       case (Some(a), Some(b)) =>
         (match bop
          case Arithmetic(op) => Some(if Shift(op) then a else UsualType(a, b))
          case _ => Some(Int))
       case _ => None)
    case Assign(_, Ident(x), r) => if x in g && TypeIn(r, g).Some? then Some(g[x].ty) else None
    case Conditional(c, a, b) =>
      (match (TypeIn(c, g), TypeIn(a, g), TypeIn(b, g))
       case (Some(_), Some(x), Some(y)) => Some(UsualType(x, y))
       case _ => None)
    case Comma(l, r) => if TypeIn(l, g).Some? then TypeIn(r, g) else None
    case Postfix(_, Ident(x)) => if x in g then Some(g[x].ty) else None
    case _ => None
  }

  /** The value of an operator on operands of types `a` and `b`. */
  function Operate(op: ArithOp, a: Ty, x: int, b: Ty, y: int): Option<int> {
    if Shift(op) then Arith(op, a, x, y)
    else Arith(op, UsualType(a, b), Wrap(UsualType(a, b), x), Wrap(UsualType(a, b), y))
  }

  /** The value of a typed expression, `None` where C leaves it undefined; no constant of C is negative. */
  function CEval(e: Expr, g: Env, st: Store): Option<Evaluated>
    requires TypeIn(e, g).Some?
  {
    match e
    case IntLit(v, ct) => if 0 <= v && InRange(Core(ct).value, v) then Some(Evaluated(v, st)) else None
    case CharLit(c) => if InRange(Int, c) then Some(Evaluated(c, st)) else None
    case Ident(x) => if g[x].loc in st then Some(Evaluated(st[g[x].loc], st)) else None
    case Binary(bop, l, r) =>
      (match CEval(l, g, st)
       case None => None
       case Some(x) =>
         var a, b := TypeIn(l, g).value, TypeIn(r, g).value;
         match bop
         case LogAnd =>
           if x.v == 0 then Some(Evaluated(0, x.st))
           else (match CEval(r, g, x.st) case None => None case Some(y) => Some(Evaluated(Truth(y.v != 0), y.st)))
         case LogOr =>
           if x.v != 0 then Some(Evaluated(1, x.st))
           else (match CEval(r, g, x.st) case None => None case Some(y) => Some(Evaluated(Truth(y.v != 0), y.st)))
         case Arithmetic(op) =>
           (match CEval(r, g, x.st)
            case None => None
            case Some(y) =>
              match Operate(op, a, x.v, b, y.v)
              case None => None
              case Some(v) => Some(Evaluated(v, y.st)))
         case Comparison(cmp) =>
           (match CEval(r, g, x.st)
            case None => None
            case Some(y) =>
              var ty := UsualType(a, b);
              Some(Evaluated(Truth(Compare(cmp, Wrap(ty, x.v), Wrap(ty, y.v))), y.st))))
    case Assign(None, Ident(x), r) =>
      (match CEval(r, g, st)
       case None => None
       case Some(y) =>
         var v := Wrap(g[x].ty, y.v);
         Some(Evaluated(v, y.st[g[x].loc := v])))
    case Assign(Some(op), Ident(x), r) =>
      (match CEval(r, g, st)
       case None => None
       case Some(y) =>
         if g[x].loc !in y.st then None
         else
           match Operate(op, g[x].ty, y.st[g[x].loc], TypeIn(r, g).value, y.v)
           case None => None
           case Some(z) =>
             var v := Wrap(g[x].ty, z);
             Some(Evaluated(v, y.st[g[x].loc := v])))
    case Conditional(c, a, b) =>
      (match CEval(c, g, st)
       case None => None
       case Some(x) =>
         match CEval(if x.v != 0 then a else b, g, x.st)
         case None => None
         case Some(y) => Some(Evaluated(Wrap(UsualType(TypeIn(a, g).value, TypeIn(b, g).value), y.v), y.st)))
    case Comma(l, r) =>
      (match CEval(l, g, st)
       case None => None
       case Some(x) => CEval(r, g, x.st))
    case Postfix(inc, Ident(x)) =>
      if g[x].loc !in st then None
      else
        var cur := st[g[x].loc];
        Some(Evaluated(cur, st[g[x].loc := Wrap(g[x].ty, if inc then cur + 1 else cur - 1)]))
  }

  /** An absent expression has no effect; an absent loop test is true. */
  function CEvalOpt(e: Option<Expr>, g: Env, st: Store): Option<Evaluated> {
    match e
    case None => Some(Evaluated(1, st))
    case Some(x) => if TypeIn(x, g).Some? then CEval(x, g, st) else None
  }

  /** Statements without declarations; a declaration or unsupported statement has no meaning here. */
  function CExec(s: Stmt, g: Env, rt: Ty, st: Store, fuel: nat): Outcome
    decreases fuel, s, 1
  {
    match s
    case ExprStmt(e) =>
      (match CEvalOpt(e, g, st) case None => Undefined case Some(x) => Normal(x.st))
    case Block(ss) => CExecAll(ss, g, rt, st, fuel)
    case If(c, t, els) =>
      (match CEvalOpt(Some(c), g, st)
       case None => Undefined
       case Some(x) =>
         if x.v != 0 then CExec(t, g, rt, x.st, fuel)
         else if els.Some? then CExec(els.value, g, rt, x.st, fuel)
         else Normal(x.st))
    case While(c, body) =>
      if fuel == 0 then OutOfFuel
      else
        (match CEvalOpt(Some(c), g, st)
         case None => Undefined
         case Some(x) =>
           if x.v == 0 then Normal(x.st)
           else
             match CExec(body, g, rt, x.st, fuel)
             case Normal(st') => CExec(s, g, rt, st', fuel - 1)
             case Continued(st') => CExec(s, g, rt, st', fuel - 1)
             case Broke(st') => Normal(st')
             case other => other)
    case Do(body, c) =>
      if fuel == 0 then OutOfFuel
      else
        (match CExec(body, g, rt, st, fuel)
         case Normal(st') => CDoTest(s, g, rt, st', fuel)
         case Continued(st') => CDoTest(s, g, rt, st', fuel)
         case Broke(st') => Normal(st')
         case other => other)
    case For(i, _, _, _) =>
      (match CEvalOpt(i, g, st)
       case None => Undefined
       case Some(x) => CExecFor(s, g, rt, x.st, fuel))
    case Return(Some(e)) =>
      (match CEvalOpt(Some(e), g, st)
       case None => Undefined
       case Some(x) => Returned(Wrap(rt, x.v), x.st))
    case Break => Broke(st)
    case Continue => Continued(st)
    case _ => Undefined
  }

  function CDoTest(s: Stmt, g: Env, rt: Ty, st: Store, fuel: nat): Outcome
    requires s.Do? && fuel > 0
    decreases fuel, s, 0
  {
    match CEvalOpt(Some(s.cond), g, st)
    case None => Undefined
    case Some(x) => if x.v == 0 then Normal(x.st) else CExec(s, g, rt, x.st, fuel - 1)
  }

  function CExecFor(s: Stmt, g: Env, rt: Ty, st: Store, fuel: nat): Outcome
    requires s.For?
    decreases fuel, s, 0
  {
    if fuel == 0 then OutOfFuel
    else
      match CEvalOpt(s.test, g, st)
      case None => Undefined
      case Some(x) =>
        if x.v == 0 then Normal(x.st)
        else
          match CExec(s.body, g, rt, x.st, fuel)
          case Normal(st') => CForPost(s, g, rt, st', fuel)
          case Continued(st') => CForPost(s, g, rt, st', fuel)
          case Broke(st') => Normal(st')
          case other => other
  }

  function CForPost(s: Stmt, g: Env, rt: Ty, st: Store, fuel: nat): Outcome
    requires s.For? && fuel > 0
    decreases fuel - 1, s, 2
  {
    match CEvalOpt(s.post, g, st)
    case None => Undefined
    case Some(x) => CExecFor(s, g, rt, x.st, fuel - 1)
  }

  function CExecAll(ss: seq<Stmt>, g: Env, rt: Ty, st: Store, fuel: nat): Outcome
    decreases fuel, ss, 1
  {
    if ss == [] then Normal(st)
    else
      match CExec(ss[0], g, rt, st, fuel)
      case Normal(st') => CExecAll(ss[1..], g, rt, st', fuel)
      case other => other
  }

  /** A function body: each declaration makes a new object, visible from its own initialiser on. */
  function CExecBody(ss: seq<Stmt>, g: Env, next: nat, rt: Ty, st: Store, fuel: nat): Outcome
    decreases |ss|
  {
    if ss == [] then Normal(st)
    else if ss[0].VarDecl? then
      if Core(ss[0].declType).None? then Undefined
      else
        var ty := Core(ss[0].declType).value;
        var g' := g[ss[0].name := Var(next, ty)];
        match ss[0].initial
        case None => CExecBody(ss[1..], g', next + 1, rt, st, fuel)
        case Some(e) =>
          match CEvalOpt(Some(e), g', st)
          case None => Undefined
          case Some(x) => CExecBody(ss[1..], g', next + 1, rt, x.st[next := Wrap(ty, x.v)], fuel)
    else
      match CExec(ss[0], g, rt, st, fuel)
      case Normal(st') => CExecBody(ss[1..], g, next, rt, st', fuel)
      case other => other
  }

  /** The parameters, stored at 0, 1, ... */
  function ParamEnv(ps: seq<Param>, g: Env, i: nat): Env
    requires forall p :: p in ps ==> Core(p.ptype).Some?
  {
    if ps == [] then g else ParamEnv(ps[1..], g[ps[0].name := Var(i, Core(ps[0].ptype).value)], i + 1)
  }

  /** Calling a function; falling off its end returns 0. */
  function CRun(f: Func, args: seq<int>, fuel: nat): Outcome {
    if Core(f.result).None? || exists p :: p in f.params && Core(p.ptype).None? then Undefined
    else
      match CExecBody(f.body, ParamEnv(f.params, map[], 0), |f.params|, Core(f.result).value, Arguments(args), fuel)
      case Normal(st) => Returned(0, st)
      case other => other
  }
}
