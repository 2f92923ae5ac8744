/**
 What elaborated programs mean: big-step evaluation over a store that maps
 the id of every initialised local to its value.
 */
module Meaning {
  import opened Options
  import opened Words
  import opened Typed

  type Store = map<nat, int>

  datatype Evaluated = Evaluated(v: int, st: Store)

  /** Left-to-right evaluation; `None` where the C program has no defined value. */
  function Eval(e: TExpr, st: Store): Option<Evaluated> {
    match e
    case TLit(v, ty) => if InRange(ty, v) then Some(Evaluated(v, st)) else None
    case TVar(id, _) => if id in st then Some(Evaluated(st[id], st)) else None
    case TCast(x, to) =>
      (match Eval(x, st)
       case None => None
       case Some(r) => Some(Evaluated(Wrap(to, r.v), r.st)))
    case TArith(op, l, r) =>
      (match Eval(l, st)
       case None => None
       case Some(x) =>
         match Eval(r, x.st)
         case None => None
         case Some(y) =>
           match Arith(op, TypeOf(l), x.v, y.v)
           case None => None
           case Some(v) => Some(Evaluated(v, y.st)))
    case TCompare(cmp, l, r) =>
      (match Eval(l, st)
       case None => None
       case Some(x) =>
         match Eval(r, x.st)
         case None => None
         case Some(y) => Some(Evaluated(Truth(Compare(cmp, x.v, y.v)), y.st)))
    case TLogic(isAnd, l, r) =>
      (match Eval(l, st)
       case None => None
       case Some(x) =>
         if (x.v != 0) != isAnd then Some(Evaluated(Truth(!isAnd), x.st))
         else
           match Eval(r, x.st)
           case None => None
           case Some(y) => Some(Evaluated(Truth(y.v != 0), y.st)))
    case TAssign(None, id, ty, rhs) =>
      (match Eval(rhs, st)
       case None => None
       case Some(x) => Some(Evaluated(x.v, x.st[id := x.v])))
    case TAssign(Some(op), id, ty, rhs) =>
      (match Eval(rhs, st)
       case None => None
       case Some(x) =>
         if id !in x.st then None
         else
           match Arith(op, ty, x.st[id], x.v)
           case None => None
           case Some(v) => Some(Evaluated(v, x.st[id := v])))
    case TPostfix(inc, id, ty) =>
      if id !in st then None
      else Some(Evaluated(st[id], st[id := Wrap(ty, if inc then st[id] + 1 else st[id] - 1)]))
    case TCond(c, a, b, _) =>
      (match Eval(c, st)
       case None => None
       case Some(x) => Eval(if x.v != 0 then a else b, x.st))
    case TComma(l, r) =>
      (match Eval(l, st)
       case None => None
       case Some(x) => Eval(r, x.st))
  }

  /** An absent expression has no effect; an absent loop test is true. */
  function EvalOpt(e: Option<TExpr>, st: Store): Option<Evaluated> {
    match e
    case None => Some(Evaluated(1, st))
    case Some(x) => Eval(x, st)
  }

  datatype Outcome =
    | Normal(st: Store)
    | Broke(st: Store)
    | Continued(st: Store)
    | Returned(v: int, st: Store)
    | Undefined
    | OutOfFuel

  /** Runs a statement; every loop iteration costs one unit of fuel. */
  function Exec(s: TStmt, st: Store, fuel: nat): Outcome
    decreases fuel, s, 1
  {
    match s
    case TEval(e) =>
      (match EvalOpt(e, st)
       case None => Undefined
       case Some(x) => Normal(x.st))
    case TBlock(ss) => ExecAll(ss, st, fuel)
    case TIf(c, t, els) =>
      (match Eval(c, st)
       case None => Undefined
       case Some(x) =>
         if x.v != 0 then Exec(t, x.st, fuel)
         else if els.Some? then Exec(els.value, x.st, fuel)
         else Normal(x.st))
    case TWhile(c, body) =>
      if fuel == 0 then OutOfFuel
      else
        (match Eval(c, st)
         case None => Undefined
         case Some(x) =>
           if x.v == 0 then Normal(x.st)
           else
             match Exec(body, x.st, fuel)
             case Normal(st') => Exec(s, st', fuel - 1)
             case Continued(st') => Exec(s, st', fuel - 1)
             case Broke(st') => Normal(st')
             case other => other)
    case TDo(body, c) =>
      if fuel == 0 then OutOfFuel
      else
        (match Exec(body, st, fuel)
         case Normal(st') => AfterDoBody(s, st', fuel)
         case Continued(st') => AfterDoBody(s, st', fuel)
         case Broke(st') => Normal(st')
         case other => other)
    case TFor(i, _, _, _) =>
      (match EvalOpt(i, st)
       case None => Undefined
       case Some(x) => ExecFor(s, x.st, fuel))
    case TReturn(e) =>
      (match Eval(e, st)
       case None => Undefined
       case Some(x) => Returned(x.v, x.st))
    case TBreak => Broke(st)
    case TContinue => Continued(st)
    case TDecl(id, _, e) =>
      (match e
       case None => Normal(st)
       case Some(x) =>
         match Eval(x, st)
         case None => Undefined
         case Some(y) => Normal(y.st[id := y.v]))
  }

  /** The test of a `do` loop and, when it holds, the next iterations. */
  function AfterDoBody(s: TStmt, st: Store, fuel: nat): Outcome
    requires s.TDo? && fuel > 0
    decreases fuel, s, 0
  {
    match Eval(s.cond, st)
    case None => Undefined
    case Some(x) => if x.v == 0 then Normal(x.st) else Exec(s, x.st, fuel - 1)
  }

  /** The iterations of a `for` loop, its initialisation done. */
  function ExecFor(s: TStmt, st: Store, fuel: nat): Outcome
    requires s.TFor?
    decreases fuel, s, 0
  {
    if fuel == 0 then OutOfFuel
    else
      match EvalOpt(s.test, st)
      case None => Undefined
      case Some(x) =>
        if x.v == 0 then Normal(x.st)
        else
          match Exec(s.body, x.st, fuel)
          case Normal(st') => AfterForBody(s, st', fuel)
          case Continued(st') => AfterForBody(s, st', fuel)
          case Broke(st') => Normal(st')
          case other => other
  }

  function AfterForBody(s: TStmt, st: Store, fuel: nat): Outcome
    requires s.TFor? && fuel > 0
    decreases fuel - 1, s, 2
  {
    match EvalOpt(s.post, st)
    case None => Undefined
    case Some(x) => ExecFor(s, x.st, fuel - 1)
  }

  function ExecAll(ss: seq<TStmt>, st: Store, fuel: nat): Outcome
    decreases fuel, ss, 1
  {
    if ss == [] then Normal(st)
    else
      match Exec(ss[0], st, fuel)
      case Normal(st') => ExecAll(ss[1..], st', fuel)
      case other => other
  }

  /** The parameters' ids are 0, 1, ...; each holds its argument. */
  function Arguments(args: seq<int>): Store {
    map i: nat | 0 <= i < |args| :: args[i]
  }

  /** Falling off the end of the body returns 0. */
  function RunFunction(f: TFunc, args: seq<int>, fuel: nat): Outcome {
    match ExecAll(f.body, Arguments(args), fuel)
    case Normal(st) => Returned(0, st)
    case other => other
  }
}
