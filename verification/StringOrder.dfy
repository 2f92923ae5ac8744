/**
 Which string literals the collecting pass meets (qbe.c:253-326), and that it does so in the order of
 their places.
 */
module StringOrder {
  import opened Options
  import opened Ast
  import opened StringPass

  /** `a` parts from `b` towards an earlier child. */
  ghost predicate Before(a: Path, b: Path) {
    exists k :: 0 <= k < |a| && k < |b| && a[..k] == b[..k] && a[k] < b[k]
  }

  ghost predicate Sorted(ns: seq<Node>) {
    forall i, j :: 0 <= i < j < |ns| ==> Before(ns[i].path, ns[j].path)
  }

  /** All places are below `p`. */
  predicate Below(ns: seq<Node>, p: Path) { forall n :: n in ns ==> p <= n.path }

  /** All places are below the children `lo` up to `hi` of `p`. */
  predicate Under(ns: seq<Node>, p: Path, lo: nat, hi: nat) {
    forall n :: n in ns ==> |p| < |n.path| && p <= n.path && lo <= n.path[|p|] < hi
  }

  /** In order and below the children `lo` up to `hi`. */
  ghost predicate Part(ns: seq<Node>, p: Path, lo: nat, hi: nat) { Sorted(ns) && Under(ns, p, lo, hi) }

  lemma Child(ns: seq<Node>, p: Path, i: nat)
    requires Sorted(ns) && Below(ns, p + [i])
    ensures Part(ns, p, i, i + 1)
  {
    forall n | n in ns ensures |p| < |n.path| && p <= n.path && n.path[|p|] == i {
      assert p + [i] <= n.path;
      assert (p + [i])[..|p|] == p && n.path[..|p| + 1] == p + [i];
      assert n.path[|p|] == n.path[..|p| + 1][|p|];
    }
  }

  lemma Join(a: seq<Node>, b: seq<Node>, p: Path, lo: nat, mid: nat, hi: nat)
    requires Part(a, p, lo, mid) && Part(b, p, mid, hi) && lo <= mid <= hi
    ensures Part(a + b, p, lo, hi)
  {
    var ns := a + b;
    forall i, j | 0 <= i < j < |ns| ensures Before(ns[i].path, ns[j].path) {
      if i < |a| && |a| <= j {
        var x, y := ns[i], ns[j];
        assert x in a && y in b;
        assert x.path[..|p|] == p == y.path[..|p|];
      } else if |a| <= i {
        assert ns[i] == b[i - |a|] && ns[j] == b[j - |a|];
      }
    }
    forall n | n in ns ensures |p| < |n.path| && p <= n.path && lo <= n.path[|p|] < hi {
      assert n in a || n in b;
    }
  }

  lemma Empty(p: Path, lo: nat)
    ensures Part([], p, lo, lo) && Part([], p, lo, lo + 1)
  {
  }

  lemma Whole(ns: seq<Node>, p: Path, hi: nat)
    requires Part(ns, p, 0, hi)
    ensures Sorted(ns) && Below(ns, p)
  {
  }

  lemma OneNode(p: Path, b: string)
    ensures Sorted([Node(p, b)]) && Below([Node(p, b)], p)
  {
  }

  lemma {:induction false} ExprOrder(e: Expr, p: Path)
    ensures Sorted(Collected(e, p)) && Below(Collected(e, p), p)
    decreases e, 2
  {
    hide *;
    if e.Binary? || e.Assign? || e.Comma? || e.Index? { TwoOrder(e, p); }
    else if e.Conditional? { CondOrder(e, p); }
    else if e.Unary? || e.Postfix? { OneOrder(e, p); }
    else if e.Call? { CallOrder(e, p); }
    else { LiteralOrder(e, p); }
  }

  lemma LiteralOrder(e: Expr, p: Path)
    requires !(e.Binary? || e.Assign? || e.Comma? || e.Index? || e.Conditional? || e.Unary? || e.Postfix? || e.Call?)
    ensures Sorted(Collected(e, p)) && Below(Collected(e, p), p)
  {
    hide Sorted, Below;
    NoneBelow(p);
    if e.StrLit? { OneNode(p, e.bytes); }
  }

  lemma {:induction false} TwoOrder(e: Expr, p: Path)
    requires e.Binary? || e.Assign? || e.Comma? || e.Index?
    ensures Sorted(Collected(e, p)) && Below(Collected(e, p), p)
    decreases e, 1
  {
    hide Sorted, Below, Part;
    var (l, r) := if e.Index? then (e.base, e.index) else (e.lhs, e.rhs);
    ExprOrder(l, p + [0]);
    ExprOrder(r, p + [1]);
    PairOrder(l, r, p);
  }

  lemma {:induction false} OneOrder(e: Expr, p: Path)
    requires e.Unary? || e.Postfix?
    ensures Sorted(Collected(e, p)) && Below(Collected(e, p), p)
    decreases e, 1
  {
    hide Sorted, Below, Part;
    var x := e.operand;
    ExprOrder(x, p + [0]);
    Child(Collected(x, p + [0]), p, 0);
    Whole(Collected(x, p + [0]), p, 1);
  }

  lemma {:induction false} CondOrder(e: Expr, p: Path)
    requires e.Conditional?
    ensures Sorted(Collected(e, p)) && Below(Collected(e, p), p)
    decreases e, 1
  {
    hide Sorted, Below, Part;
    ExprOrder(e.cond, p + [0]);
    ExprOrder(e.thn, p + [1]);
    ExprOrder(e.els, p + [2]);
    var (x, y, z) := (Collected(e.cond, p + [0]), Collected(e.thn, p + [1]), Collected(e.els, p + [2]));
    Child(x, p, 0);
    Child(y, p, 1);
    Child(z, p, 2);
    Join(y, z, p, 1, 2, 3);
    Join(x, y + z, p, 0, 1, 3);
    Whole(x + (y + z), p, 3);
  }

  lemma {:induction false} CallOrder(e: Expr, p: Path)
    requires e.Call?
    ensures Sorted(Collected(e, p)) && Below(Collected(e, p), p)
    decreases e, 1
  {
    hide Sorted, Below, Part;
    var (f, k) := (Collected(e.callee, p + [0]), 1 + |e.args|);
    ExprOrder(e.callee, p + [0]);
    ArgsOrder(e, e.args, p, 1);
    Child(f, p, 0);
    Join(f, CollectedArgs(e.args, p, 1), p, 0, 1, k);
    Whole(f + CollectedArgs(e.args, p, 1), p, k);
  }

  lemma NoneBelow(p: Path)
    ensures Sorted([]) && Below([], p)
  {
  }

  lemma PairOrder(l: Expr, r: Expr, p: Path)
    requires Sorted(Collected(l, p + [0])) && Below(Collected(l, p + [0]), p + [0])
    requires Sorted(Collected(r, p + [1])) && Below(Collected(r, p + [1]), p + [1])
    ensures
      var ns := Collected(l, p + [0]) + Collected(r, p + [1]);
      Sorted(ns) && Below(ns, p)
  {
    hide Collected, Sorted, Below, Part;
    var (x, y) := (Collected(l, p + [0]), Collected(r, p + [1]));
    Child(x, p, 0);
    Child(y, p, 1);
    Join(x, y, p, 0, 1, 2);
    Whole(x + y, p, 2);
  }

  lemma {:induction false} ArgsOrder(e: Expr, es: seq<Expr>, p: Path, i: nat)
    requires forall x :: x in es ==> x < e
    ensures Part(CollectedArgs(es, p, i), p, i, i + |es|)
    decreases e, 0, |es|
  {
    hide Sorted, Below, Part, Collected;
    Empty(p, i);
    if es != [] {
      assert es[0] in es && forall x :: x in es[1..] ==> x in es;
      ExprOrder(es[0], p + [i]);
      Child(Collected(es[0], p + [i]), p, i);
      ArgsOrder(e, es[1..], p, i + 1);
      Join(Collected(es[0], p + [i]), CollectedArgs(es[1..], p, i + 1), p, i, i + 1, i + |es|);
    }
  }

  lemma OptOrder(e: Option<Expr>, p: Path, i: nat)
    ensures Part(CollectedOpt(e, p + [i]), p, i, i + 1)
  {
    hide Sorted, Below, Part, Collected;
    Empty(p, i);
    if e.Some? {
      ExprOrder(e.value, p + [i]);
      Child(Collected(e.value, p + [i]), p, i);
    }
  }

  lemma GuardOrder(e: Expr, p: Path)
    ensures Part(Collected(e, p + [0]), p, 0, 1)
  {
    hide Sorted, Below, Part, Collected;
    ExprOrder(e, p + [0]);
    Child(Collected(e, p + [0]), p, 0);
  }

  /** Main result: the literals of a statement are met in the order of their places in the tree. */
  lemma {:induction false} StmtOrder(s: Stmt, p: Path)
    ensures Sorted(CollectedStmt(s, p)) && Below(CollectedStmt(s, p), p)
    decreases s, 1
  {
    hide Sorted, Below, Part, Collected, CollectedOpt;
    if s.Block? {
      ItemsOrder(s.stmts, p, 0);
      Whole(CollectedItems(s.stmts, p, 0), p, |s.stmts|);
    } else if s.If? {
      IfOrder(s, p);
    } else if s.For? {
      ForOrder(s, p);
    } else if s.While? || s.Do? || s.Switch? {
      BodyOrder(s, s.body, p);
      GuardOrder(s.cond, p);
      TwoParts(Collected(s.cond, p + [0]), CollectedStmt(s.body, p + [1]), p);
    } else if s.Case? {
      BodyOrder(s, s.body, p);
      GuardOrder(s.value, p);
      TwoParts(Collected(s.value, p + [0]), CollectedStmt(s.body, p + [1]), p);
    } else if s.Default? {
      BodyOrder(s, s.body, p);
      OnePart(CollectedStmt(s.body, p + [1]), p, 1);
    } else {
      NoneBelow(p);
      LeafOrder(s, p);
    }
  }

  lemma LeafOrder(s: Stmt, p: Path)
    ensures s.ExprStmt? || s.Return? ==>
      Sorted(CollectedOpt(s.e, p + [0])) && Below(CollectedOpt(s.e, p + [0]), p)
    ensures s.VarDecl? ==> Sorted(CollectedOpt(s.initial, p + [0])) && Below(CollectedOpt(s.initial, p + [0]), p)
  {
    hide Sorted, Below, Part, CollectedOpt;
    if s.ExprStmt? || s.Return? {
      OptOrder(s.e, p, 0);
      OnePart(CollectedOpt(s.e, p + [0]), p, 0);
    } else if s.VarDecl? {
      OptOrder(s.initial, p, 0);
      OnePart(CollectedOpt(s.initial, p + [0]), p, 0);
    }
  }

  lemma {:induction false} BodyOrder(s: Stmt, body: Stmt, p: Path)
    requires body < s
    ensures Part(CollectedStmt(body, p + [1]), p, 1, 2)
    decreases s, 0
  {
    hide Sorted, Below, Part, CollectedStmt;
    StmtOrder(body, p + [1]);
    Child(CollectedStmt(body, p + [1]), p, 1);
  }

  lemma OnePart(a: seq<Node>, p: Path, i: nat)
    requires Part(a, p, i, i + 1)
    ensures Sorted(a) && Below(a, p)
  {
  }

  lemma TwoParts(a: seq<Node>, b: seq<Node>, p: Path)
    requires Part(a, p, 0, 1) && Part(b, p, 1, 2)
    ensures Sorted(a + b) && Below(a + b, p)
  {
    hide Part, Sorted, Below;
    Join(a, b, p, 0, 1, 2);
    Whole(a + b, p, 2);
  }

  lemma {:induction false} IfOrder(s: Stmt, p: Path)
    requires s.If?
    ensures Sorted(CollectedStmt(s, p)) && Below(CollectedStmt(s, p), p)
    decreases s, 0
  {
    hide Sorted, Below, Part, Collected;
    GuardOrder(s.cond, p);
    StmtOrder(s.thn, p + [1]);
    Child(CollectedStmt(s.thn, p + [1]), p, 1);
    var (x, y) := (Collected(s.cond, p + [0]), CollectedStmt(s.thn, p + [1]));
    Empty(p, 2);
    if s.els.Some? {
      StmtOrder(s.els.value, p + [2]);
      Child(CollectedStmt(s.els.value, p + [2]), p, 2);
    }
    var z := if s.els.Some? then CollectedStmt(s.els.value, p + [2]) else [];
    Join(y, z, p, 1, 2, 3);
    Join(x, y + z, p, 0, 1, 3);
    Whole(x + (y + z), p, 3);
  }

  lemma {:induction false} ForOrder(s: Stmt, p: Path)
    requires s.For?
    ensures Sorted(CollectedStmt(s, p)) && Below(CollectedStmt(s, p), p)
    decreases s, 0
  {
    hide Sorted, Below, Part, CollectedOpt;
    OptOrder(s.init, p, 0);
    OptOrder(s.test, p, 1);
    OptOrder(s.post, p, 2);
    StmtOrder(s.body, p + [3]);
    var b := CollectedStmt(s.body, p + [3]);
    Child(b, p, 3);
    var (x, y, z) := (CollectedOpt(s.init, p + [0]), CollectedOpt(s.test, p + [1]), CollectedOpt(s.post, p + [2]));
    Join(z, b, p, 2, 3, 4);
    Join(y, z + b, p, 1, 2, 4);
    Join(x, y + (z + b), p, 0, 1, 4);
    Whole(x + (y + (z + b)), p, 4);
  }

  lemma {:induction false} ItemsOrder(ss: seq<Stmt>, p: Path, i: nat)
    ensures Part(CollectedItems(ss, p, i), p, i, i + |ss|)
    decreases ss
  {
    hide Sorted, Below, Part, CollectedStmt;
    Empty(p, i);
    if ss != [] {
      StmtOrder(ss[0], p + [i]);
      Child(CollectedStmt(ss[0], p + [i]), p, i);
      ItemsOrder(ss[1..], p, i + 1);
      Join(CollectedStmt(ss[0], p + [i]), CollectedItems(ss[1..], p, i + 1), p, i, i + 1, i + |ss|);
    }
  }

  /** So are those of a program: function by function, in order of place. */
  lemma {:induction false} ProgramOrder(fs: seq<Func>, i: nat)
    ensures Part(CollectedProgram(fs, i), [], i, i + |fs|)
    decreases fs
  {
    hide Sorted, Below, Part, CollectedStmt;
    Empty([], i);
    if fs != [] {
      var s := Block(fs[0].body);
      StmtOrder(s, [i]);
      assert [] + [i] == [i];
      Child(CollectedStmt(s, [i]), [], i);
      ProgramOrder(fs[1..], i + 1);
      Join(CollectedStmt(s, [i]), CollectedProgram(fs[1..], i + 1), [], i, i + 1, i + |fs|);
    }
  }

  // ----- which literals -----

  datatype Tree = E(e: Expr) | S(s: Stmt)

  /** The children of a node, numbered as in the tree; nothing below members, `sizeof` and labels. */
  function Kid(t: Tree, i: nat): Option<Tree> {
    match t
    case E(e) => ExprKid(e, i)
    case S(s) => StmtKid(s, i)
  }

  function ExprKid(e: Expr, i: nat): (k: Option<Tree>)
    ensures k.Some? ==> k.value.E? && k.value.e < e
  {
    match e
    case Binary(_, l, r) => if i == 0 then Some(E(l)) else if i == 1 then Some(E(r)) else None
    case Assign(_, l, r) => if i == 0 then Some(E(l)) else if i == 1 then Some(E(r)) else None
    case Conditional(c, a, b) =>
      if i == 0 then Some(E(c)) else if i == 1 then Some(E(a)) else if i == 2 then Some(E(b)) else None
    case Comma(l, r) => if i == 0 then Some(E(l)) else if i == 1 then Some(E(r)) else None
    case Unary(_, x) => if i == 0 then Some(E(x)) else None
    case Postfix(_, x) => if i == 0 then Some(E(x)) else None
    case Index(b, x) => if i == 0 then Some(E(b)) else if i == 1 then Some(E(x)) else None
    case Call(f, args) => if i == 0 then Some(E(f)) else if i <= |args| then Some(E(args[i - 1])) else None
    case _ => None
  }

  function OptKid(e: Option<Expr>): Option<Tree> { if e.Some? then Some(E(e.value)) else None }

  function StmtKid(s: Stmt, i: nat): Option<Tree> {
    match s
    case ExprStmt(e) => if i == 0 then OptKid(e) else None
    case Return(e) => if i == 0 then OptKid(e) else None
    case VarDecl(_, _, e) => if i == 0 then OptKid(e) else None
    case Block(ss) => if i < |ss| then Some(S(ss[i])) else None
    case If(c, a, b) =>
      if i == 0 then Some(E(c)) else if i == 1 then Some(S(a))
      else if i == 2 && b.Some? then Some(S(b.value)) else None
    case While(c, b) => if i == 0 then Some(E(c)) else if i == 1 then Some(S(b)) else None
    case Do(b, c) => if i == 0 then Some(E(c)) else if i == 1 then Some(S(b)) else None
    case Switch(c, b) => if i == 0 then Some(E(c)) else if i == 1 then Some(S(b)) else None
    case Case(v, b) => if i == 0 then Some(E(v)) else if i == 1 then Some(S(b)) else None
    case Default(b) => if i == 1 then Some(S(b)) else None
    case For(a, c, q, b) =>
      if i == 0 then OptKid(a) else if i == 1 then OptKid(c) else if i == 2 then OptKid(q)
      else if i == 3 then Some(S(b)) else None
    case _ => None
  }

  /** The literal `b` stands at place `q` of the tree. */
  predicate Stands(t: Tree, q: Path, b: string)
    decreases |q|
  {
    if q == [] then t == E(StrLit(b))
    else Kid(t, q[0]).Some? && Stands(Kid(t, q[0]).value, q[1..], b)
  }

  /** The place of a node below `p`. */
  predicate Placed(t: Tree, p: Path, n: Node) { p <= n.path && Stands(t, n.path[|p|..], n.bytes) }

  /** Below `p` is either at `p` or below one of its children. */
  lemma PlacedStep(t: Tree, p: Path, n: Node)
    requires p <= n.path && |p| < |n.path|
    ensures
      var i := n.path[|p|];
      p + [i] <= n.path
      && (Placed(t, p, n) <==> Kid(t, i).Some? && Placed(Kid(t, i).value, p + [i], n))
  {
    hide Kid;
    var i := n.path[|p|];
    var q := n.path[|p|..];
    assert n.path[..|p| + 1] == p + [i];
    assert q[1..] == n.path[|p| + 1..];
  }

  /** Being placed below child `i` is having `i` next in the path. */
  lemma NextIs(p: Path, i: nat, n: Node)
    ensures p + [i] <= n.path ==> p <= n.path && |p| < |n.path| && n.path[|p|] == i
  {
    if p + [i] <= n.path {
      assert n.path[..|p| + 1] == p + [i];
      assert n.path[|p|] == (p + [i])[|p|] && n.path[..|p|] == (p + [i])[..|p|] == p;
    }
  }

  /** The node is placed below child `i`. */
  predicate InKid(t: Tree, p: Path, i: nat, n: Node) { Kid(t, i).Some? && Placed(Kid(t, i).value, p + [i], n) }

  /** A node is placed in a tree other than a literal when it is placed in one of the children. */
  lemma PlacedInKid(t: Tree, p: Path, n: Node)
    requires !(t.E? && t.e.StrLit?)
    ensures Placed(t, p, n) <==> exists i: nat :: InKid(t, p, i, n)
  {
    hide Kid;
    if Placed(t, p, n) {
      assert n.path[|p|..] != [];
      PlacedStep(t, p, n);
      assert InKid(t, p, n.path[|p|], n);
    }
    if i: nat :| InKid(t, p, i, n) {
      NextIs(p, i, n);
      PlacedStep(t, p, n);
    }
  }

  lemma LiteralPlaced(b: string, p: Path, n: Node)
    ensures Placed(E(StrLit(b)), p, n) <==> n == Node(p, b)
  {
    if p <= n.path && |p| < |n.path| {
      PlacedStep(E(StrLit(b)), p, n);
    } else if p <= n.path {
      assert n.path == p && n.path[|p|..] == [];
    }
  }

  lemma {:induction false} ExprMeets(e: Expr, p: Path, n: Node)
    ensures n in Collected(e, p) <==> Placed(E(e), p, n)
    decreases e, 1
  {
    hide Placed, Collected, ExprKid;
    if e.StrLit? {
      LiteralPlaced(e.bytes, p, n);
      LiteralMet(e, p);
    } else {
      PlacedInKid(E(e), p, n);
      if e.Call? {
        ExprMeets(e.callee, p + [0], n);
        ArgsMeet(e, e.args, p, 1, n);
        CallKids(e, p, n);
      } else {
        forall i: nat | ExprKid(e, i).Some?
          ensures n in Collected(ExprKid(e, i).value.e, p + [i]) <==> InKid(E(e), p, i, n)
        {
          ExprMeets(ExprKid(e, i).value.e, p + [i], n);
        }
        FewKids(e, p, n);
      }
    }
  }

  lemma FewKids(e: Expr, p: Path, n: Node)
    requires !e.StrLit? && !e.Call?
    requires
      forall i: nat :: ExprKid(e, i).Some?
        ==> (n in Collected(ExprKid(e, i).value.e, p + [i]) <==> InKid(E(e), p, i, n))
    ensures n in Collected(e, p) <==> exists i: nat :: InKid(E(e), p, i, n)
  {
    hide *;
    if e.Binary? || e.Assign? || e.Comma? || e.Index? { TwoKids(e, p, n); }
    else if e.Conditional? { ThreeKids(e, p, n); }
    else { OneKid(e, p, n); }
  }

  lemma TwoKids(e: Expr, p: Path, n: Node)
    requires e.Binary? || e.Assign? || e.Comma? || e.Index?
    requires
      forall i: nat :: ExprKid(e, i).Some?
        ==> (n in Collected(ExprKid(e, i).value.e, p + [i]) <==> InKid(E(e), p, i, n))
    ensures n in Collected(e, p) <==> exists i: nat :: InKid(E(e), p, i, n)
  {
    hide Placed;
    assert ExprKid(e, 0).Some? ==> (n in Collected(ExprKid(e, 0).value.e, p + [0]) <==> InKid(E(e), p, 0, n));
    assert ExprKid(e, 1).Some? ==> (n in Collected(ExprKid(e, 1).value.e, p + [1]) <==> InKid(E(e), p, 1, n));
    assert forall i: nat :: InKid(E(e), p, i, n) ==> i in {0, 1};
  }

  lemma ThreeKids(e: Expr, p: Path, n: Node)
    requires e.Conditional?
    requires
      forall i: nat :: ExprKid(e, i).Some?
        ==> (n in Collected(ExprKid(e, i).value.e, p + [i]) <==> InKid(E(e), p, i, n))
    ensures n in Collected(e, p) <==> exists i: nat :: InKid(E(e), p, i, n)
  {
    hide Placed;
    assert ExprKid(e, 0).Some? ==> (n in Collected(ExprKid(e, 0).value.e, p + [0]) <==> InKid(E(e), p, 0, n));
    assert ExprKid(e, 1).Some? ==> (n in Collected(ExprKid(e, 1).value.e, p + [1]) <==> InKid(E(e), p, 1, n));
    assert ExprKid(e, 2).Some? ==> (n in Collected(ExprKid(e, 2).value.e, p + [2]) <==> InKid(E(e), p, 2, n));
    assert forall i: nat :: InKid(E(e), p, i, n) ==> i in {0, 1, 2};
  }

  lemma OneKid(e: Expr, p: Path, n: Node)
    requires !e.StrLit? && !e.Call?
    requires !e.Binary? && !e.Assign? && !e.Comma? && !e.Index? && !e.Conditional?
    requires
      forall i: nat :: ExprKid(e, i).Some?
        ==> (n in Collected(ExprKid(e, i).value.e, p + [i]) <==> InKid(E(e), p, i, n))
    ensures n in Collected(e, p) <==> exists i: nat :: InKid(E(e), p, i, n)
  {
    hide Placed;
    assert ExprKid(e, 0).Some? ==> (n in Collected(ExprKid(e, 0).value.e, p + [0]) <==> InKid(E(e), p, 0, n));
    assert forall i: nat :: InKid(E(e), p, i, n) ==> i == 0;
  }

  lemma {:induction false} ArgsMeet(e: Expr, es: seq<Expr>, p: Path, i: nat, n: Node)
    requires forall x :: x in es ==> x < e
    ensures n in CollectedArgs(es, p, i) <==> exists k :: 0 <= k < |es| && Placed(E(es[k]), p + [i + k], n)
    decreases e, 0, |es|
  {
    hide Placed, Collected;
    if es != [] {
      assert es[0] in es && forall x :: x in es[1..] ==> x in es;
      ExprMeets(es[0], p + [i], n);
      ArgsMeet(e, es[1..], p, i + 1, n);
      assert forall k :: 0 <= k < |es| - 1 ==> es[1..][k] == es[k + 1];
      if k :| 0 <= k < |es| && Placed(E(es[k]), p + [i + k], n) {
        if k > 0 { assert Placed(E(es[1..][k - 1]), p + [i + 1 + (k - 1)], n); }
      }
      if k :| 0 <= k < |es[1..]| && Placed(E(es[1..][k]), p + [i + 1 + k], n) {
        assert Placed(E(es[k + 1]), p + [i + (k + 1)], n);
      }
      if Placed(E(es[0]), p + [i], n) { assert Placed(E(es[0]), p + [i + 0], n); }
    }
  }

  lemma LiteralMet(e: Expr, p: Path)
    requires e.StrLit?
    ensures Collected(e, p) == [Node(p, e.bytes)]
  {
  }

  lemma CallKids(e: Expr, p: Path, n: Node)
    requires e.Call?
    requires n in Collected(e.callee, p + [0]) <==> Placed(E(e.callee), p + [0], n)
    requires
      n in CollectedArgs(e.args, p, 1) <==> exists k :: 0 <= k < |e.args| && Placed(E(e.args[k]), p + [1 + k], n)
    ensures n in Collected(e, p) <==> exists i: nat :: InKid(E(e), p, i, n)
  {
    hide Placed, CollectedArgs;
    if i: nat :| InKid(E(e), p, i, n) {
      if i > 0 { assert Placed(E(e.args[i - 1]), p + [1 + (i - 1)], n); }
    }
    if Placed(E(e.callee), p + [0], n) { assert InKid(E(e), p, 0, n); }
    if k :| 0 <= k < |e.args| && Placed(E(e.args[k]), p + [1 + k], n) { assert InKid(E(e), p, 1 + k, n); }
  }

  lemma OptMeets(e: Option<Expr>, p: Path, i: nat, n: Node)
    ensures n in CollectedOpt(e, p + [i]) <==> e.Some? && Placed(E(e.value), p + [i], n)
  {
    hide Placed, Collected;
    if e.Some? { ExprMeets(e.value, p + [i], n); }
  }

  /** Main result: the literals met are those of the tree but for what stands below members, `sizeof` and labels. */
  lemma {:induction false} StmtMeets(s: Stmt, p: Path, n: Node)
    ensures n in CollectedStmt(s, p) <==> Placed(S(s), p, n)
    decreases s, 2
  {
    hide Placed, Collected, CollectedOpt, CollectedStmt, Kid;
    PlacedInKid(S(s), p, n);
    if s.Block? {
      ItemsMeet(s, s.stmts, p, 0, n);
      BlockKids(s, p, n);
    } else if s.ExprStmt? || s.Return? || s.VarDecl? {
      LeafMeets(s, p, n);
    } else if s.For? {
      ForMeets(s, p, n);
    } else {
      BranchMeets(s, p, n);
    }
  }

  lemma LeafMeets(s: Stmt, p: Path, n: Node)
    requires s.ExprStmt? || s.Return? || s.VarDecl?
    ensures n in CollectedStmt(s, p) <==> exists i: nat :: InKid(S(s), p, i, n)
  {
    hide Placed, Collected, CollectedOpt;
    OptMeets(if s.VarDecl? then s.initial else s.e, p, 0, n);
    assert forall i: nat :: InKid(S(s), p, i, n) ==> i == 0;
    assert n in CollectedStmt(s, p) <==> InKid(S(s), p, 0, n);
  }

  lemma {:induction false} ForMeets(s: Stmt, p: Path, n: Node)
    requires s.For?
    ensures n in CollectedStmt(s, p) <==> exists i: nat :: InKid(S(s), p, i, n)
    decreases s, 1
  {
    hide Placed, Collected, CollectedOpt;
    OptMeets(s.init, p, 0, n);
    OptMeets(s.test, p, 1, n);
    OptMeets(s.post, p, 2, n);
    StmtMeets(s.body, p + [3], n);
    assert forall i: nat :: InKid(S(s), p, i, n) ==> i in {0, 1, 2, 3};
    assert n in CollectedStmt(s, p) <==>
      InKid(S(s), p, 0, n) || InKid(S(s), p, 1, n) || InKid(S(s), p, 2, n) || InKid(S(s), p, 3, n);
  }

  lemma {:induction false} BranchMeets(s: Stmt, p: Path, n: Node)
    requires !s.Block? && !s.For? && !s.ExprStmt? && !s.Return? && !s.VarDecl?
    ensures n in CollectedStmt(s, p) <==> exists i: nat :: InKid(S(s), p, i, n)
    decreases s, 1
  {
    hide Placed, Collected;
    if s.If? {
      ExprMeets(s.cond, p + [0], n);
      StmtMeets(s.thn, p + [1], n);
      if s.els.Some? { StmtMeets(s.els.value, p + [2], n); }
    } else if s.While? || s.Do? || s.Switch? {
      ExprMeets(s.cond, p + [0], n);
      StmtMeets(s.body, p + [1], n);
    } else if s.Case? {
      ExprMeets(s.value, p + [0], n);
      StmtMeets(s.body, p + [1], n);
    } else if s.Default? {
      StmtMeets(s.body, p + [1], n);
    }
    assert forall i: nat :: InKid(S(s), p, i, n) ==> i in {0, 1, 2};
    assert n in CollectedStmt(s, p) <==> InKid(S(s), p, 0, n) || InKid(S(s), p, 1, n) || InKid(S(s), p, 2, n);
  }

  lemma {:induction false} ItemsMeet(s: Stmt, ss: seq<Stmt>, p: Path, i: nat, n: Node)
    requires forall x :: x in ss ==> x < s
    ensures n in CollectedItems(ss, p, i) <==> exists k :: 0 <= k < |ss| && Placed(S(ss[k]), p + [i + k], n)
    decreases s, 1, |ss|
  {
    hide Placed, CollectedStmt;
    if ss != [] {
      assert ss[0] in ss && forall x :: x in ss[1..] ==> x in ss;
      StmtMeets(ss[0], p + [i], n);
      ItemsMeet(s, ss[1..], p, i + 1, n);
      assert forall k :: 0 <= k < |ss| - 1 ==> ss[1..][k] == ss[k + 1];
      if k :| 0 <= k < |ss| && Placed(S(ss[k]), p + [i + k], n) {
        if k > 0 { assert Placed(S(ss[1..][k - 1]), p + [i + 1 + (k - 1)], n); }
      }
      if k :| 0 <= k < |ss[1..]| && Placed(S(ss[1..][k]), p + [i + 1 + k], n) {
        assert Placed(S(ss[k + 1]), p + [i + (k + 1)], n);
      }
      if Placed(S(ss[0]), p + [i], n) { assert Placed(S(ss[0]), p + [i + 0], n); }
    }
  }

  lemma BlockKids(s: Stmt, p: Path, n: Node)
    requires s.Block?
    requires
      n in CollectedItems(s.stmts, p, 0) <==> exists k :: 0 <= k < |s.stmts| && Placed(S(s.stmts[k]), p + [0 + k], n)
    ensures n in CollectedStmt(s, p) <==> exists i: nat :: InKid(S(s), p, i, n)
  {
    hide Placed, CollectedItems;
    if i: nat :| InKid(S(s), p, i, n) { assert Placed(S(s.stmts[i]), p + [0 + i], n); }
    if k :| 0 <= k < |s.stmts| && Placed(S(s.stmts[k]), p + [0 + k], n) { assert InKid(S(s), p, k, n); }
  }
}
