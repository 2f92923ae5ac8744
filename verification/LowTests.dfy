/**
 What the emitted code tests: `jnz` and `cnew` read 32 bits, so a `long` is tested as if it were
 cast to `int` first. `Low` writes those casts into a tree; a tree without tests of `long` stays as it is.
 */
module LowTests {
  import opened Options
  import opened Words
  import opened Typed
  import opened Meaning
  import opened Codegen

  /** A tested expression, cast to `int` when it is a `long`. */
  function Tested(e: TExpr): TExpr { if TypeOf(e) == Int then e else TCast(e, Int) }

  /** `e` with everything it tests cast to `int`. */
  function Low(e: TExpr): TExpr {
    match e
    case TLit(_, _) => e
    case TVar(_, _) => e
    case TCast(x, to) => TCast(Low(x), to)
    case TArith(op, l, r) => TArith(op, Low(l), Low(r))
    case TCompare(cmp, l, r) => TCompare(cmp, Low(l), Low(r))
    case TLogic(isAnd, l, r) => TLogic(isAnd, Tested(Low(l)), Tested(Low(r)))
    case TAssign(aop, id, ty, rhs) => TAssign(aop, id, ty, Low(rhs))
    case TPostfix(_, _, _) => e
    case TCond(c, a, b, ty) => TCond(Tested(Low(c)), Low(a), Low(b), ty)
    case TComma(l, r) => TComma(Low(l), Low(r))
  }

  function LowOpt(e: Option<TExpr>): Option<TExpr> {
    match e
    case None => None
    case Some(x) => Some(Low(x))
  }

  /** The test of a `for` loop. */
  function LowTest(e: Option<TExpr>): Option<TExpr> {
    match e
    case None => None
    case Some(x) => Some(Tested(Low(x)))
  }

  /** Likewise for a statement: the tests of its expressions and its own. */
  function LowStmt(s: TStmt): TStmt
    decreases s
  {
    match s
    case TEval(e) => TEval(LowOpt(e))
    case TBlock(ss) => TBlock(LowStmts(ss))
    case TIf(c, t, None) => TIf(Tested(Low(c)), LowStmt(t), None)
    case TIf(c, t, Some(els)) => TIf(Tested(Low(c)), LowStmt(t), Some(LowStmt(els)))
    case TWhile(c, body) => TWhile(Tested(Low(c)), LowStmt(body))
    case TDo(body, c) => TDo(LowStmt(body), Tested(Low(c)))
    case TFor(i, c, p, body) => TFor(LowOpt(i), LowTest(c), LowOpt(p), LowStmt(body))
    case TReturn(e) => TReturn(Low(e))
    case TBreak => s
    case TContinue => s
    case TDecl(id, ty, e) => TDecl(id, ty, LowOpt(e))
  }

  function LowStmts(ss: seq<TStmt>): (ts: seq<TStmt>)
    ensures |ts| == |ss|
    decreases ss
  {
    if ss == [] then [] else [LowStmt(ss[0])] + LowStmts(ss[1..])
  }

  function LowFunc(f: TFunc): TFunc { f.(body := LowStmts(f.body)) }

  /** The value a test of `v` looks at. */
  function Seen(ty: Ty, v: int): int { if ty == Int then v else Wrap(Int, v) }

  lemma TestedEval(e: TExpr, st: Store)
    ensures
      match Eval(e, st)
      case None => Eval(Tested(e), st) == None
      case Some(x) => Eval(Tested(e), st) == Some(Evaluated(Seen(TypeOf(e), x.v), x.st))
  {
    hide TypeOf, Wrap;
  }

  // ----- what the operators mean -----

  lemma ArithMeaning(e: TExpr, st: Store)
    requires e.TArith?
    ensures
      Eval(Low(e), st) ==
        match Eval(Low(e.l), st)
        case None => None
        case Some(x) =>
          match Eval(Low(e.r), x.st)
          case None => None
          case Some(y) =>
            match Arith(e.op, TypeOf(e.l), x.v, y.v)
            case None => None
            case Some(v) => Some(Evaluated(v, y.st))
  {
    hide TypeOf, Arith;
    LowTypes(e.l);
  }

  lemma CompoundMeaning(e: TExpr, st: Store)
    requires e.TAssign? && e.aop.Some?
    ensures
      Eval(Low(e), st) ==
        match Eval(Low(e.rhs), st)
        case None => None
        case Some(x) =>
          if e.id !in x.st then None
          else match Arith(e.aop.value, e.ty, x.st[e.id], x.v)
            case None => None
            case Some(v) => Some(Evaluated(v, x.st[e.id := v]))
  {
    hide Arith;
  }

  lemma LogicMeaning(e: TExpr, st: Store)
    requires e.TLogic?
    ensures
      Eval(Low(e), st) ==
        match Eval(Low(e.l), st)
        case None => None
        case Some(x) =>
          if (Seen(TypeOf(e.l), x.v) != 0) != e.isAnd then Some(Evaluated(Truth(!e.isAnd), x.st))
          else match Eval(Low(e.r), x.st)
            case None => None
            case Some(y) => Some(Evaluated(Truth(Seen(TypeOf(e.r), y.v) != 0), y.st))
  {
    hide TypeOf, Seen, Tested;
    LowTypes(e.l);
    LowTypes(e.r);
    TestedEval(Low(e.l), st);
    if Eval(Low(e.l), st).Some? { TestedEval(Low(e.r), Eval(Low(e.l), st).value.st); }
  }

  lemma CondMeaning(e: TExpr, st: Store)
    requires e.TCond?
    ensures
      Eval(Low(e), st) ==
        match Eval(Low(e.c), st)
        case None => None
        case Some(x) => Eval(Low(if Seen(TypeOf(e.c), x.v) != 0 then e.a else e.b), x.st)
  {
    hide TypeOf, Seen, Tested;
    LowTypes(e.c);
    TestedEval(Low(e.c), st);
  }

  // ----- the casts change no type -----

  lemma {:induction false} LowTypes(e: TExpr)
    ensures TypeOf(Low(e)) == TypeOf(e)
  {
    match e
    case TArith(_, l, _) => LowTypes(l);
    case TComma(_, r) => LowTypes(r);
    case _ =>
  }

  lemma {:induction false} LowTyped(e: TExpr, lay: Layout)
    requires WellTyped(e, lay)
    ensures WellTyped(Low(e), lay) && TypeOf(Low(e)) == TypeOf(e)
  {
    LowTypes(e);
    match e
    case TCast(x, _) => LowTyped(x, lay);
    case TArith(_, l, r) => LowTyped(l, lay); LowTyped(r, lay);
    case TCompare(_, l, r) => LowTyped(l, lay); LowTyped(r, lay);
    case TLogic(_, l, r) => LowTyped(l, lay); LowTyped(r, lay);
    case TAssign(_, _, _, rhs) => LowTyped(rhs, lay);
    case TCond(c, a, b, _) => LowTyped(c, lay); LowTyped(a, lay); LowTyped(b, lay);
    case TComma(l, r) => LowTyped(l, lay); LowTyped(r, lay);
    case _ =>
  }

  // ----- no test of a `long`, no cast -----

  lemma {:induction false} LowSame(e: TExpr)
    requires IntTests(e)
    ensures Low(e) == e
  {
    match e
    case TCast(x, _) => LowSame(x);
    case TArith(_, l, r) => LowSame(l); LowSame(r);
    case TCompare(_, l, r) => LowSame(l); LowSame(r);
    case TLogic(_, l, r) => LowSame(l); LowSame(r);
    case TAssign(_, _, _, rhs) => LowSame(rhs);
    case TCond(c, a, b, _) => LowSame(c); LowSame(a); LowSame(b);
    case TComma(l, r) => LowSame(l); LowSame(r);
    case _ =>
  }

  lemma LowSameOpt(e: Option<TExpr>)
    requires IntTestsOpt(e)
    ensures LowOpt(e) == e
    ensures (e.Some? ==> TypeOf(e.value) == Int) ==> LowTest(e) == e
  {
    if e.Some? { LowSame(e.value); }
  }

  lemma {:induction false} LowSameStmt(s: TStmt)
    requires IntTestsStmt(s)
    ensures LowStmt(s) == s
    decreases s
  {
    match s
    case TEval(e) => LowSameOpt(e);
    case TBlock(ss) => LowSameStmts(ss);
    case TIf(c, t, els) =>
      LowSame(c);
      LowSameStmt(t);
      if els.Some? { LowSameStmt(els.value); }
    case TWhile(c, body) => LowSame(c); LowSameStmt(body);
    case TDo(body, c) => LowSame(c); LowSameStmt(body);
    case TFor(i, c, p, body) => LowSameOpt(i); LowSameOpt(c); LowSameOpt(p); LowSameStmt(body);
    case TReturn(e) => LowSame(e);
    case TDecl(_, _, e) => LowSameOpt(e);
    case _ =>
  }

  lemma {:induction false} LowSameStmts(ss: seq<TStmt>)
    requires IntTestsStmts(ss)
    ensures LowStmts(ss) == ss
    decreases ss
  {
    if ss != [] {
      LowSameStmt(ss[0]);
      LowSameStmts(ss[1..]);
      assert ss == [ss[0]] + ss[1..];
    }
  }

  // ----- the casts change no jump -----

  lemma {:induction false} LowTerminator(s: TStmt)
    ensures EndsInTerminator(LowStmt(s)) <==> EndsInTerminator(s)
    decreases s
  {
    if s.TBlock? && s.stmts != [] {
      LowAt(s.stmts, |s.stmts| - 1);
      LowTerminator(s.stmts[|s.stmts| - 1]);
    }
  }

  lemma {:induction false} LowAt(ss: seq<TStmt>, i: nat)
    requires i < |ss|
    ensures LowStmts(ss)[i] == LowStmt(ss[i])
  {
    if i > 0 { LowAt(ss[1..], i - 1); }
  }

  lemma LowHead(ss: seq<TStmt>)
    requires ss != []
    ensures LowStmts(ss)[0] == LowStmt(ss[0]) && LowStmts(ss)[1..] == LowStmts(ss[1..])
  {
  }

  lemma {:induction false} LowJumps(s: TStmt, inner: Enclosing)
    ensures WhileJumps(LowStmt(s), inner) <==> WhileJumps(s, inner)
    decreases s
  {
    match s
    case TBlock(ss) => LowJumpsAll(ss, inner);
    case TIf(c, t, els) =>
      LowJumps(t, inner);
      if els.Some? { LowJumps(els.value, inner); }
    case TWhile(c, body) => LowJumps(body, WhileLoop);
    case TDo(body, c) => LowJumps(body, OtherLoop);
    case TFor(i, c, p, body) => LowJumps(body, OtherLoop);
    case _ =>
  }

  lemma {:induction false} LowJumpsAll(ss: seq<TStmt>, inner: Enclosing)
    ensures WhileJumpsAll(LowStmts(ss), inner) <==> WhileJumpsAll(ss, inner)
    decreases ss
  {
    if ss != [] {
      LowHead(ss);
      LowJumps(ss[0], inner);
      LowJumpsAll(ss[1..], inner);
    }
  }
}
