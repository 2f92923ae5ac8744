/**
 The pass that collects the string literals of a program, and the references code generation
 makes to them: which literals the pass reaches, and when every reference finds its datum.
 */
module StringPass {
  import opened Options
  import opened Ast
  import opened Strings

  /** Where a node stands: the way down from the root. */
  type Path = seq<nat>

  /** A string literal node. */
  datatype Node = Node(path: Path, bytes: string)

  // ----- the nodes the collecting pass visits, in order -----

  /** It does not descend into members and `sizeof`. */
  function Collected(e: Expr, p: Path): seq<Node> {
    match e
    case StrLit(b) => [Node(p, b)]
    case Binary(_, l, r) => Collected(l, p + [0]) + Collected(r, p + [1])
    case Assign(_, l, r) => Collected(l, p + [0]) + Collected(r, p + [1])
    case Conditional(c, a, b) => Collected(c, p + [0]) + (Collected(a, p + [1]) + Collected(b, p + [2]))
    case Comma(l, r) => Collected(l, p + [0]) + Collected(r, p + [1])
    case Unary(_, x) => Collected(x, p + [0])
    case Postfix(_, x) => Collected(x, p + [0])
    case Index(b, i) => Collected(b, p + [0]) + Collected(i, p + [1])
    case Call(f, args) => Collected(f, p + [0]) + CollectedArgs(args, p, 1)
    case _ => []
  }

  function CollectedArgs(es: seq<Expr>, p: Path, i: nat): seq<Node> {
    if es == [] then [] else Collected(es[0], p + [i]) + CollectedArgs(es[1..], p, i + 1)
  }

  function CollectedOpt(e: Option<Expr>, p: Path): seq<Node> { if e.Some? then Collected(e.value, p) else [] }

  /** It does not descend into labelled statements. */
  function CollectedStmt(s: Stmt, p: Path): seq<Node> {
    match s
    case ExprStmt(e) => CollectedOpt(e, p + [0])
    case Return(e) => CollectedOpt(e, p + [0])
    case Block(ss) => CollectedItems(ss, p, 0)
    case If(c, a, b) =>
      Collected(c, p + [0])
      + (CollectedStmt(a, p + [1]) + if b.Some? then CollectedStmt(b.value, p + [2]) else [])
    case While(c, b) => Collected(c, p + [0]) + CollectedStmt(b, p + [1])
    case Do(b, c) => Collected(c, p + [0]) + CollectedStmt(b, p + [1])
    case For(i, c, q, b) =>
      CollectedOpt(i, p + [0]) + (CollectedOpt(c, p + [1]) + (CollectedOpt(q, p + [2]) + CollectedStmt(b, p + [3])))
    case Switch(c, b) => Collected(c, p + [0]) + CollectedStmt(b, p + [1])
    case Case(v, b) => Collected(v, p + [0]) + CollectedStmt(b, p + [1])
    case Default(b) => CollectedStmt(b, p + [1])
    case VarDecl(_, _, e) => CollectedOpt(e, p + [0])
    case _ => []
  }

  function CollectedItems(ss: seq<Stmt>, p: Path, i: nat): seq<Node> {
    if ss == [] then [] else CollectedStmt(ss[0], p + [i]) + CollectedItems(ss[1..], p, i + 1)
  }

  /** The bodies of the functions of a program, one after the other. */
  function CollectedProgram(fs: seq<Func>, i: nat): seq<Node> {
    if fs == [] then [] else CollectedStmt(Block(fs[0].body), [i]) + CollectedProgram(fs[1..], i + 1)
  }

  // ----- the nodes code generation refers to -----

  /**
   What evaluating an expression refers to. Prefix operators but `&` and `*` are dropped with
   their operand; members and `sizeof` stop the compiler.
   */
  function Referenced(e: Expr, p: Path): set<Node>
    decreases e, 1
  {
    match e
    case StrLit(b) => {Node(p, b)}
    case Binary(_, l, r) => Referenced(l, p + [0]) + Referenced(r, p + [1])
    case Assign(_, l, r) => ReferencedAddr(l, p + [0]) + Referenced(r, p + [1])
    case Conditional(c, a, b) => Referenced(c, p + [0]) + Referenced(a, p + [1]) + Referenced(b, p + [2])
    case Comma(l, r) => Referenced(l, p + [0]) + Referenced(r, p + [1])
    case Unary(op, x) =>
      if op.AddressOf? then ReferencedAddr(x, p + [0]) else if op.Deref? then Referenced(x, p + [0]) else {}
    case Postfix(_, x) => ReferencedAddr(x, p + [0])
    case Index(_, _) => ReferencedAddr(e, p)
    case Call(f, args) => Referenced(f, p + [0]) + ReferencedArgs(args, p, 1)
    case _ => {}
  }

  /** What computing the address of an expression refers to; only indexing and `*` evaluate anything. */
  function ReferencedAddr(e: Expr, p: Path): set<Node>
    decreases e, 0
  {
    match e
    case Index(b, i) => Referenced(b, p + [0]) + Referenced(i, p + [1])
    case Unary(op, x) => if op.Deref? then Referenced(x, p + [0]) else {}
    case _ => {}
  }

  function ReferencedArgs(es: seq<Expr>, p: Path, i: nat): set<Node> {
    if es == [] then {} else Referenced(es[0], p + [i]) + ReferencedArgs(es[1..], p, i + 1)
  }

  function ReferencedOpt(e: Option<Expr>, p: Path): set<Node> { if e.Some? then Referenced(e.value, p) else {} }

  function ReferencedStmt(s: Stmt, p: Path): set<Node> {
    match s
    case ExprStmt(e) => ReferencedOpt(e, p + [0])
    case Return(e) => ReferencedOpt(e, p + [0])
    case Block(ss) => ReferencedItems(ss, p, 0)
    case If(c, a, b) =>
      Referenced(c, p + [0]) + ReferencedStmt(a, p + [1]) + if b.Some? then ReferencedStmt(b.value, p + [2]) else {}
    case While(c, b) => Referenced(c, p + [0]) + ReferencedStmt(b, p + [1])
    case Do(b, c) => Referenced(c, p + [0]) + ReferencedStmt(b, p + [1])
    case For(i, c, q, b) =>
      ReferencedOpt(i, p + [0]) + ReferencedOpt(c, p + [1]) + ReferencedOpt(q, p + [2]) + ReferencedStmt(b, p + [3])
    case Switch(c, b) => Referenced(c, p + [0]) + Dispatched(b, p + [1]) + ReferencedStmt(b, p + [1])
    case Case(_, b) => ReferencedStmt(b, p + [1])
    case Default(b) => ReferencedStmt(b, p + [1])
    case Label(_, b) => ReferencedStmt(b, p + [1])
    case VarDecl(_, _, e) => ReferencedOpt(e, p + [0])
    case _ => {}
  }

  function ReferencedItems(ss: seq<Stmt>, p: Path, i: nat): set<Node> {
    if ss == [] then {} else ReferencedStmt(ss[0], p + [i]) + ReferencedItems(ss[1..], p, i + 1)
  }

  /** The values compared before a `switch` body: those of cases in it or in blocks in it. */
  function Dispatched(s: Stmt, p: Path): set<Node> {
    match s
    case Case(v, _) => Referenced(v, p + [0])
    case Block(ss) => DispatchedItems(ss, p, 0)
    case _ => {}
  }

  function DispatchedItems(ss: seq<Stmt>, p: Path, i: nat): set<Node> {
    if ss == [] then {} else Dispatched(ss[0], p + [i]) + DispatchedItems(ss[1..], p, i + 1)
  }

  function ReferencedProgram(fs: seq<Func>, i: nat): set<Node> {
    if fs == [] then {} else ReferencedStmt(Block(fs[0].body), [i]) + ReferencedProgram(fs[1..], i + 1)
  }

  // ----- a condition on the tree -----

  /** Whether evaluating an expression refers to a literal. */
  predicate Speaks(e: Expr)
    decreases e, 1
  {
    match e
    case StrLit(_) => true
    case Binary(_, l, r) => Speaks(l) || Speaks(r)
    case Assign(_, l, r) => SpeaksAddr(l) || Speaks(r)
    case Conditional(c, a, b) => Speaks(c) || Speaks(a) || Speaks(b)
    case Comma(l, r) => Speaks(l) || Speaks(r)
    case Unary(op, x) => (op.AddressOf? && SpeaksAddr(x)) || (op.Deref? && Speaks(x))
    case Postfix(_, x) => SpeaksAddr(x)
    case Index(_, _) => SpeaksAddr(e)
    case Call(f, args) => Speaks(f) || SpeaksArgs(args)
    case _ => false
  }

  predicate SpeaksAddr(e: Expr)
    decreases e, 0
  {
    match e
    case Index(b, i) => Speaks(b) || Speaks(i)
    case Unary(op, x) => op.Deref? && Speaks(x)
    case _ => false
  }

  predicate SpeaksArgs(es: seq<Expr>) { es != [] && (Speaks(es[0]) || SpeaksArgs(es[1..])) }

  predicate SpeaksOpt(e: Option<Expr>) { e.Some? && Speaks(e.value) }

  predicate SpeaksStmt(s: Stmt) {
    match s
    case ExprStmt(e) => SpeaksOpt(e)
    case Return(e) => SpeaksOpt(e)
    case Block(ss) => SpeaksItems(ss)
    case If(c, a, b) => Speaks(c) || SpeaksStmt(a) || (b.Some? && SpeaksStmt(b.value))
    case While(c, b) => Speaks(c) || SpeaksStmt(b)
    case Do(b, c) => Speaks(c) || SpeaksStmt(b)
    case For(i, c, q, b) => SpeaksOpt(i) || SpeaksOpt(c) || SpeaksOpt(q) || SpeaksStmt(b)
    case Switch(c, b) => Speaks(c) || Compares(b) || SpeaksStmt(b)
    case Case(_, b) => SpeaksStmt(b)
    case Default(b) => SpeaksStmt(b)
    case Label(_, b) => SpeaksStmt(b)
    case VarDecl(_, _, e) => SpeaksOpt(e)
    case _ => false
  }

  predicate SpeaksItems(ss: seq<Stmt>) { ss != [] && (SpeaksStmt(ss[0]) || SpeaksItems(ss[1..])) }

  predicate Compares(s: Stmt) {
    match s
    case Case(v, _) => Speaks(v)
    case Block(ss) => ComparesItems(ss)
    case _ => false
  }

  predicate ComparesItems(ss: seq<Stmt>) { ss != [] && (Compares(ss[0]) || ComparesItems(ss[1..])) }

  /** No labelled statement refers to a literal. */
  predicate LabelsQuiet(s: Stmt) {
    match s
    case Block(ss) => LabelsQuietAll(ss)
    case If(_, a, b) => LabelsQuiet(a) && (b.Some? ==> LabelsQuiet(b.value))
    case While(_, b) => LabelsQuiet(b)
    case Do(b, _) => LabelsQuiet(b)
    case For(_, _, _, b) => LabelsQuiet(b)
    case Switch(_, b) => LabelsQuiet(b)
    case Case(_, b) => LabelsQuiet(b)
    case Default(b) => LabelsQuiet(b)
    case Label(_, b) => !SpeaksStmt(b)
    case _ => true
  }

  predicate LabelsQuietAll(ss: seq<Stmt>) { ss == [] || (LabelsQuiet(ss[0]) && LabelsQuietAll(ss[1..])) }

  predicate ProgramQuiet(fs: seq<Func>) { fs == [] || (LabelsQuietAll(fs[0].body) && ProgramQuiet(fs[1..])) }

  // ----- every node has its own path -----

  /** The nodes stand below child `i` of `p` or a later one. */
  predicate Below(nodes: seq<Node>, p: Path, i: nat) {
    forall n :: n in nodes ==> p < n.path && n.path[|p|] >= i
  }

  predicate Under(nodes: seq<Node>, p: Path) { forall n :: n in nodes ==> p <= n.path }

  predicate Separate(nodes: seq<Node>) { forall i, j :: 0 <= i < j < |nodes| ==> nodes[i].path != nodes[j].path }

  /** Nodes of different children are different nodes. */
  lemma Join(x: seq<Node>, y: seq<Node>, p: Path, i: nat)
    requires Under(x, p + [i]) && Separate(x) && Below(y, p, i + 1) && Separate(y)
    ensures Below(x + y, p, i) && Separate(x + y) && Under(x + y, p)
  {
    forall n | n in x ensures p < n.path && n.path[|p|] == i { assert (p + [i])[|p|] == i; }
    forall a, b | 0 <= a < b < |x + y| ensures (x + y)[a].path != (x + y)[b].path {
      if a < |x| <= b { assert (x + y)[a] in x && (x + y)[b] in y; }
    }
  }

  /** The last child. */
  lemma Only(x: seq<Node>, p: Path, i: nat)
    requires Under(x, p + [i]) && Separate(x)
    ensures Below(x, p, i) && Under(x, p)
  {
    assert x + [] == x;
    Join(x, [], p, i);
  }

  lemma {:induction false} CollectedApart(e: Expr, p: Path)
    ensures Under(Collected(e, p), p) && Separate(Collected(e, p))
    decreases e, 0
  {
    hide Under, Separate, Below;
    if e.StrLit? || e.IntLit? || e.FloatLit? || e.CharLit? || e.Ident? || e.Member? || e.SizeOf? {
      FewApart(Collected(e, p), p);
    } else if e.Conditional? {
      CollectedApart(e.cond, p + [0]);
      CollectedApart(e.thn, p + [1]);
      CollectedApart(e.els, p + [2]);
      Only(Collected(e.els, p + [2]), p, 2);
      Join(Collected(e.thn, p + [1]), Collected(e.els, p + [2]), p, 1);
      Join(Collected(e.cond, p + [0]), Collected(e.thn, p + [1]) + Collected(e.els, p + [2]), p, 0);
    } else if e.Unary? || e.Postfix? {
      CollectedApart(e.operand, p + [0]);
      Only(Collected(e.operand, p + [0]), p, 0);
    } else if e.Call? {
      CollectedApart(e.callee, p + [0]);
      ArgsApart(e.args, p, 1);
      Join(Collected(e.callee, p + [0]), CollectedArgs(e.args, p, 1), p, 0);
    } else {
      var l, r := if e.Index? then e.base else e.lhs, if e.Index? then e.index else e.rhs;
      CollectedApart(l, p + [0]);
      CollectedApart(r, p + [1]);
      Only(Collected(r, p + [1]), p, 1);
      Join(Collected(l, p + [0]), Collected(r, p + [1]), p, 0);
    }
  }

  lemma FewApart(nodes: seq<Node>, p: Path)
    requires |nodes| <= 1 && forall n :: n in nodes ==> n.path == p
    ensures Under(nodes, p) && Separate(nodes)
  {
  }

  lemma NoneApart(p: Path, i: nat)
    ensures Below([], p, i) && Separate([]) && Under([], p)
  {
  }

  lemma {:induction false} ArgsApart(es: seq<Expr>, p: Path, i: nat)
    ensures Below(CollectedArgs(es, p, i), p, i) && Separate(CollectedArgs(es, p, i))
    decreases es, 1
  {
    hide Under, Separate, Below, Collected;
    if es == [] {
      NoneApart(p, i);
    } else {
      CollectedApart(es[0], p + [i]);
      ArgsApart(es[1..], p, i + 1);
      Join(Collected(es[0], p + [i]), CollectedArgs(es[1..], p, i + 1), p, i);
    }
  }

  lemma OptApart(e: Option<Expr>, p: Path)
    ensures Under(CollectedOpt(e, p), p) && Separate(CollectedOpt(e, p))
  {
    hide Under, Separate, Collected;
    NoneApart(p, 0);
    if e.Some? { CollectedApart(e.value, p); }
  }

  lemma {:induction false} StmtApart(s: Stmt, p: Path)
    ensures Under(CollectedStmt(s, p), p) && Separate(CollectedStmt(s, p))
    decreases s, 0
  {
    hide Under, Separate, Below, Collected, CollectedOpt;
    NoneApart(p, 0);
    if s.Block? {
      ItemsApart(s.stmts, p, 0);
      BelowUnder(CollectedItems(s.stmts, p, 0), p, 0);
    } else if s.ExprStmt? || s.Return? || s.VarDecl? {
      var e := if s.VarDecl? then s.initial else s.e;
      OptApart(e, p + [0]);
      Only(CollectedOpt(e, p + [0]), p, 0);
    } else if s.If? {
      var c := if s.els.Some? then CollectedStmt(s.els.value, p + [2]) else [];
      CollectedApart(s.cond, p + [0]);
      StmtApart(s.thn, p + [1]);
      NoneApart(p + [2], 0);
      if s.els.Some? { StmtApart(s.els.value, p + [2]); }
      Only(c, p, 2);
      Join(CollectedStmt(s.thn, p + [1]), c, p, 1);
      Join(Collected(s.cond, p + [0]), CollectedStmt(s.thn, p + [1]) + c, p, 0);
    } else if s.For? {
      OptApart(s.init, p + [0]);
      OptApart(s.test, p + [1]);
      OptApart(s.post, p + [2]);
      StmtApart(s.body, p + [3]);
      var d := CollectedStmt(s.body, p + [3]);
      Only(d, p, 3);
      Join(CollectedOpt(s.post, p + [2]), d, p, 2);
      Join(CollectedOpt(s.test, p + [1]), CollectedOpt(s.post, p + [2]) + d, p, 1);
      Join(CollectedOpt(s.init, p + [0]), CollectedOpt(s.test, p + [1]) + (CollectedOpt(s.post, p + [2]) + d), p, 0);
    } else if s.While? || s.Do? || s.Switch? || s.Case? {
      var e := if s.Case? then s.value else s.cond;
      CollectedApart(e, p + [0]);
      StmtApart(s.body, p + [1]);
      Only(CollectedStmt(s.body, p + [1]), p, 1);
      Join(Collected(e, p + [0]), CollectedStmt(s.body, p + [1]), p, 0);
    } else if s.Default? {
      StmtApart(s.body, p + [1]);
      Only(CollectedStmt(s.body, p + [1]), p, 1);
    }
  }

  lemma BelowUnder(x: seq<Node>, p: Path, i: nat)
    requires Below(x, p, i)
    ensures Under(x, p)
  {
  }

  lemma {:induction false} ItemsApart(ss: seq<Stmt>, p: Path, i: nat)
    ensures Below(CollectedItems(ss, p, i), p, i) && Separate(CollectedItems(ss, p, i))
    decreases ss, 1
  {
    hide Under, Separate, Below, CollectedStmt;
    if ss == [] {
      NoneApart(p, i);
    } else {
      StmtApart(ss[0], p + [i]);
      ItemsApart(ss[1..], p, i + 1);
      Join(CollectedStmt(ss[0], p + [i]), CollectedItems(ss[1..], p, i + 1), p, i);
    }
  }

  lemma {:induction false} ProgramApart(fs: seq<Func>, i: nat)
    ensures Below(CollectedProgram(fs, i), [], i) && Separate(CollectedProgram(fs, i))
    decreases |fs|
  {
    hide Under, Separate, Below, CollectedStmt;
    if fs == [] {
      NoneApart([], i);
    } else {
      StmtApart(Block(fs[0].body), [i]);
      ProgramApart(fs[1..], i + 1);
      assert [] + [i] == [i];
      Join(CollectedStmt(Block(fs[0].body), [i]), CollectedProgram(fs[1..], i + 1), [], i);
    }
  }

  // ----- which references are collected -----

  predicate Covers(refs: set<Node>, nodes: seq<Node>) { forall n :: n in refs ==> n in nodes }

  lemma {:induction false} ReferencesCollected(e: Expr, p: Path)
    ensures Covers(Referenced(e, p), Collected(e, p)) && Covers(ReferencedAddr(e, p), Collected(e, p))
    decreases e, 0
  {
    match e
    case Binary(_, l, r) => ReferencesCollected(l, p + [0]); ReferencesCollected(r, p + [1]);
    case Assign(_, l, r) => ReferencesCollected(l, p + [0]); ReferencesCollected(r, p + [1]);
    case Conditional(c, a, b) =>
      ReferencesCollected(c, p + [0]);
      ReferencesCollected(a, p + [1]);
      ReferencesCollected(b, p + [2]);
    case Comma(l, r) => ReferencesCollected(l, p + [0]); ReferencesCollected(r, p + [1]);
    case Unary(_, x) => ReferencesCollected(x, p + [0]);
    case Postfix(_, x) => ReferencesCollected(x, p + [0]);
    case Index(b, i) => ReferencesCollected(b, p + [0]); ReferencesCollected(i, p + [1]);
    case Call(f, args) => ReferencesCollected(f, p + [0]); ArgsCollected(args, p, 1);
    case _ =>
  }

  lemma {:induction false} ArgsCollected(es: seq<Expr>, p: Path, i: nat)
    ensures Covers(ReferencedArgs(es, p, i), CollectedArgs(es, p, i))
    decreases es, 1
  {
    hide Referenced, Collected;
    if es != [] {
      ReferencesCollected(es[0], p + [i]);
      ArgsCollected(es[1..], p, i + 1);
    }
  }

  lemma OptCollected(e: Option<Expr>, p: Path)
    ensures Covers(ReferencedOpt(e, p), CollectedOpt(e, p))
  {
    hide Referenced, Collected, ReferencedAddr;
    if e.Some? { ReferencesCollected(e.value, p); }
  }

  /** Where labels are quiet, every reference of a statement is to a collected node. */
  lemma {:induction false} StmtCollected(s: Stmt, p: Path)
    ensures LabelsQuiet(s) ==> Covers(ReferencedStmt(s, p), CollectedStmt(s, p))
    ensures Covers(Dispatched(s, p), CollectedStmt(s, p))
    decreases s, 0
  {
    hide Referenced, Collected, ReferencedAddr, ReferencedOpt, CollectedOpt;
    match s
    case ExprStmt(e) => OptCollected(e, p + [0]);
    case Return(e) => OptCollected(e, p + [0]);
    case Block(ss) => ItemsCollected(ss, p, 0);
    case If(c, a, b) =>
      ReferencesCollected(c, p + [0]);
      StmtCollected(a, p + [1]);
      if b.Some? { StmtCollected(b.value, p + [2]); }
    case While(c, b) => ReferencesCollected(c, p + [0]); StmtCollected(b, p + [1]);
    case Do(b, c) => ReferencesCollected(c, p + [0]); StmtCollected(b, p + [1]);
    case For(i, c, q, b) =>
      OptCollected(i, p + [0]);
      OptCollected(c, p + [1]);
      OptCollected(q, p + [2]);
      StmtCollected(b, p + [3]);
    case Switch(c, b) => ReferencesCollected(c, p + [0]); StmtCollected(b, p + [1]);
    case Case(v, b) => ReferencesCollected(v, p + [0]); StmtCollected(b, p + [1]);
    case Default(b) => StmtCollected(b, p + [1]);
    case Label(_, b) => StmtSpeaks(b, p + [1]);
    case VarDecl(_, _, e) => OptCollected(e, p + [0]);
    case _ =>
  }

  lemma {:induction false} ItemsCollected(ss: seq<Stmt>, p: Path, i: nat)
    ensures LabelsQuietAll(ss) ==> Covers(ReferencedItems(ss, p, i), CollectedItems(ss, p, i))
    ensures Covers(DispatchedItems(ss, p, i), CollectedItems(ss, p, i))
    decreases ss, 1
  {
    hide ReferencedStmt, CollectedStmt, Dispatched, LabelsQuiet;
    if ss != [] {
      StmtCollected(ss[0], p + [i]);
      ItemsCollected(ss[1..], p, i + 1);
    }
  }

  // ----- the condition says whether there are references -----

  lemma {:induction false} ExprSpeaks(e: Expr, p: Path)
    ensures (Speaks(e) <==> Referenced(e, p) != {}) && (SpeaksAddr(e) <==> ReferencedAddr(e, p) != {})
    decreases e, 0
  {
    match e
    case Binary(_, l, r) => ExprSpeaks(l, p + [0]); ExprSpeaks(r, p + [1]);
    case Assign(_, l, r) => ExprSpeaks(l, p + [0]); ExprSpeaks(r, p + [1]);
    case Conditional(c, a, b) => ExprSpeaks(c, p + [0]); ExprSpeaks(a, p + [1]); ExprSpeaks(b, p + [2]);
    case Comma(l, r) => ExprSpeaks(l, p + [0]); ExprSpeaks(r, p + [1]);
    case Unary(_, x) => ExprSpeaks(x, p + [0]);
    case Postfix(_, x) => ExprSpeaks(x, p + [0]);
    case Index(b, i) => ExprSpeaks(b, p + [0]); ExprSpeaks(i, p + [1]);
    case Call(f, args) => ExprSpeaks(f, p + [0]); ArgsSpeak(args, p, 1);
    case _ =>
  }

  lemma {:induction false} ArgsSpeak(es: seq<Expr>, p: Path, i: nat)
    ensures SpeaksArgs(es) <==> ReferencedArgs(es, p, i) != {}
    decreases es, 1
  {
    hide Referenced, Speaks;
    if es != [] {
      ExprSpeaks(es[0], p + [i]);
      ArgsSpeak(es[1..], p, i + 1);
    }
  }

  lemma OptSpeaks(e: Option<Expr>, p: Path)
    ensures SpeaksOpt(e) <==> ReferencedOpt(e, p) != {}
  {
    hide Referenced, Speaks, ReferencedAddr, SpeaksAddr;
    if e.Some? { ExprSpeaks(e.value, p); }
  }

  lemma {:induction false} StmtSpeaks(s: Stmt, p: Path)
    ensures SpeaksStmt(s) <==> ReferencedStmt(s, p) != {}
    ensures Compares(s) <==> Dispatched(s, p) != {}
    decreases s, 0
  {
    hide Referenced, Speaks, ReferencedAddr, SpeaksAddr, ReferencedOpt, SpeaksOpt;
    match s
    case ExprStmt(e) => OptSpeaks(e, p + [0]);
    case Return(e) => OptSpeaks(e, p + [0]);
    case Block(ss) => ItemsSpeak(ss, p, 0);
    case If(c, a, b) =>
      ExprSpeaks(c, p + [0]);
      StmtSpeaks(a, p + [1]);
      if b.Some? { StmtSpeaks(b.value, p + [2]); }
    case While(c, b) => ExprSpeaks(c, p + [0]); StmtSpeaks(b, p + [1]);
    case Do(b, c) => ExprSpeaks(c, p + [0]); StmtSpeaks(b, p + [1]);
    case For(i, c, q, b) =>
      OptSpeaks(i, p + [0]);
      OptSpeaks(c, p + [1]);
      OptSpeaks(q, p + [2]);
      StmtSpeaks(b, p + [3]);
    case Switch(c, b) => ExprSpeaks(c, p + [0]); StmtSpeaks(b, p + [1]);
    case Case(v, b) => ExprSpeaks(v, p + [0]); StmtSpeaks(b, p + [1]);
    case Default(b) => StmtSpeaks(b, p + [1]);
    case Label(_, b) => StmtSpeaks(b, p + [1]);
    case VarDecl(_, _, e) => OptSpeaks(e, p + [0]);
    case _ =>
  }

  lemma {:induction false} ItemsSpeak(ss: seq<Stmt>, p: Path, i: nat)
    ensures SpeaksItems(ss) <==> ReferencedItems(ss, p, i) != {}
    ensures ComparesItems(ss) <==> DispatchedItems(ss, p, i) != {}
    decreases ss, 1
  {
    hide ReferencedStmt, SpeaksStmt, Dispatched, Compares;
    if ss != [] {
      StmtSpeaks(ss[0], p + [i]);
      ItemsSpeak(ss[1..], p, i + 1);
    }
  }

  // ----- references below labels are missed -----

  predicate RefsUnder(refs: set<Node>, p: Path) { forall n :: n in refs ==> p <= n.path }

  lemma {:induction false} ExprUnder(e: Expr, p: Path)
    ensures RefsUnder(Referenced(e, p), p) && RefsUnder(ReferencedAddr(e, p), p)
    decreases e, 0
  {
    match e
    case Binary(_, l, r) => ExprUnder(l, p + [0]); ExprUnder(r, p + [1]);
    case Assign(_, l, r) => ExprUnder(l, p + [0]); ExprUnder(r, p + [1]);
    case Conditional(c, a, b) => ExprUnder(c, p + [0]); ExprUnder(a, p + [1]); ExprUnder(b, p + [2]);
    case Comma(l, r) => ExprUnder(l, p + [0]); ExprUnder(r, p + [1]);
    case Unary(_, x) => ExprUnder(x, p + [0]);
    case Postfix(_, x) => ExprUnder(x, p + [0]);
    case Index(b, i) => ExprUnder(b, p + [0]); ExprUnder(i, p + [1]);
    case Call(f, args) => ExprUnder(f, p + [0]); ArgsUnder(args, p, 1);
    case _ =>
  }

  lemma {:induction false} ArgsUnder(es: seq<Expr>, p: Path, i: nat)
    ensures RefsUnder(ReferencedArgs(es, p, i), p)
    decreases es, 1
  {
    hide Referenced;
    if es != [] {
      ExprUnder(es[0], p + [i]);
      ArgsUnder(es[1..], p, i + 1);
    }
  }

  lemma OptUnder(e: Option<Expr>, p: Path)
    ensures RefsUnder(ReferencedOpt(e, p), p)
  {
    hide Referenced, ReferencedAddr;
    if e.Some? { ExprUnder(e.value, p); }
  }

  lemma {:induction false} StmtUnder(s: Stmt, p: Path)
    ensures RefsUnder(ReferencedStmt(s, p), p) && RefsUnder(Dispatched(s, p), p)
    decreases s, 0
  {
    hide Referenced, ReferencedAddr, ReferencedOpt;
    match s
    case ExprStmt(e) => OptUnder(e, p + [0]);
    case Return(e) => OptUnder(e, p + [0]);
    case Block(ss) => ItemsUnder(ss, p, 0);
    case If(c, a, b) =>
      ExprUnder(c, p + [0]);
      StmtUnder(a, p + [1]);
      if b.Some? { StmtUnder(b.value, p + [2]); }
    case While(c, b) => ExprUnder(c, p + [0]); StmtUnder(b, p + [1]);
    case Do(b, c) => ExprUnder(c, p + [0]); StmtUnder(b, p + [1]);
    case For(i, c, q, b) =>
      OptUnder(i, p + [0]);
      OptUnder(c, p + [1]);
      OptUnder(q, p + [2]);
      StmtUnder(b, p + [3]);
    case Switch(c, b) => ExprUnder(c, p + [0]); StmtUnder(b, p + [1]);
    case Case(v, b) => ExprUnder(v, p + [0]); StmtUnder(b, p + [1]);
    case Default(b) => StmtUnder(b, p + [1]);
    case Label(_, b) => StmtUnder(b, p + [1]);
    case VarDecl(_, _, e) => OptUnder(e, p + [0]);
    case _ =>
  }

  lemma {:induction false} ItemsUnder(ss: seq<Stmt>, p: Path, i: nat)
    ensures RefsUnder(ReferencedItems(ss, p, i), p) && RefsUnder(DispatchedItems(ss, p, i), p)
    decreases ss, 1
  {
    hide ReferencedStmt, Dispatched;
    if ss != [] {
      StmtUnder(ss[0], p + [i]);
      ItemsUnder(ss[1..], p, i + 1);
    }
  }

  /** A node below child `k` is not among those below another child. */
  lemma Elsewhere(n: Node, p: Path, k: nat, x: seq<Node>, j: nat)
    requires p + [k] <= n.path && Under(x, p + [j]) && j != k
    ensures n !in x
  {
    assert (p + [k])[|p|] == k && (p + [j])[|p|] == j;
  }

  lemma ExprElsewhere(n: Node, p: Path, k: nat, e: Expr, j: nat)
    requires p + [k] <= n.path && j != k
    ensures n !in Collected(e, p + [j])
  {
    hide Collected, Under;
    CollectedApart(e, p + [j]);
    Elsewhere(n, p, k, Collected(e, p + [j]), j);
  }

  lemma OptElsewhere(n: Node, p: Path, k: nat, e: Option<Expr>, j: nat)
    requires p + [k] <= n.path && j != k
    ensures n !in CollectedOpt(e, p + [j])
  {
    hide Collected;
    if e.Some? { ExprElsewhere(n, p, k, e.value, j); }
  }

  lemma StmtElsewhere(n: Node, p: Path, k: nat, s: Stmt, j: nat)
    requires p + [k] <= n.path && j != k
    ensures n !in CollectedStmt(s, p + [j])
  {
    hide CollectedStmt, Under;
    StmtApart(s, p + [j]);
    Elsewhere(n, p, k, CollectedStmt(s, p + [j]), j);
  }

  /** A labelled statement that refers to a literal refers to one the pass does not reach. */
  lemma {:induction false} Missed(s: Stmt, p: Path) returns (n: Node)
    requires !LabelsQuiet(s)
    ensures n in ReferencedStmt(s, p) && n !in CollectedStmt(s, p) && p <= n.path
    decreases s, 0
  {
    hide Referenced, Collected, ReferencedOpt, CollectedOpt, SpeaksStmt;
    match s
    case Block(ss) => n := MissedItems(ss, p, 0);
    case If(c, a, b) =>
      if !LabelsQuiet(a) {
        n := Missed(a, p + [1]);
        ExprElsewhere(n, p, 1, c, 0);
        if b.Some? { StmtElsewhere(n, p, 1, b.value, 2); }
      } else {
        n := Missed(b.value, p + [2]);
        ExprElsewhere(n, p, 2, c, 0);
        StmtElsewhere(n, p, 2, a, 1);
      }
    case While(c, b) => n := Missed(b, p + [1]); ExprElsewhere(n, p, 1, c, 0);
    case Do(b, c) => n := Missed(b, p + [1]); ExprElsewhere(n, p, 1, c, 0);
    case For(i, c, q, b) =>
      n := Missed(b, p + [3]);
      OptElsewhere(n, p, 3, i, 0);
      OptElsewhere(n, p, 3, c, 1);
      OptElsewhere(n, p, 3, q, 2);
    case Switch(c, b) => n := Missed(b, p + [1]); ExprElsewhere(n, p, 1, c, 0);
    case Case(v, b) => n := Missed(b, p + [1]); ExprElsewhere(n, p, 1, v, 0);
    case Default(b) => n := Missed(b, p + [1]);
    case Label(_, b) =>
      StmtSpeaks(b, p + [1]);
      StmtUnder(b, p + [1]);
      n :| n in ReferencedStmt(b, p + [1]);
  }

  lemma {:induction false} MissedItems(ss: seq<Stmt>, p: Path, i: nat) returns (n: Node)
    requires !LabelsQuietAll(ss)
    ensures n in ReferencedItems(ss, p, i) && n !in CollectedItems(ss, p, i) && p < n.path && n.path[|p|] >= i
    decreases ss, 1
  {
    hide ReferencedStmt, CollectedStmt, LabelsQuiet;
    if !LabelsQuiet(ss[0]) {
      n := Missed(ss[0], p + [i]);
      assert (p + [i])[|p|] == i;
      ItemsApart(ss[1..], p, i + 1);
    } else {
      n := MissedItems(ss[1..], p, i + 1);
      StmtApart(ss[0], p + [i]);
      assert (p + [i])[|p|] == i;
    }
  }

  lemma {:induction false} MissedProgram(fs: seq<Func>, i: nat) returns (n: Node)
    requires !ProgramQuiet(fs)
    ensures n in ReferencedProgram(fs, i) && n !in CollectedProgram(fs, i) && n.path != [] && n.path[0] >= i
    decreases |fs|
  {
    hide ReferencedStmt, CollectedStmt, LabelsQuietAll;
    var b := Block(fs[0].body);
    if !LabelsQuietAll(fs[0].body) {
      n := Missed(b, [i]);
      ProgramApart(fs[1..], i + 1);
    } else {
      n := MissedProgram(fs[1..], i + 1);
      StmtApart(b, [i]);
    }
  }

  lemma {:induction false} ProgramCollected(fs: seq<Func>, i: nat)
    requires ProgramQuiet(fs)
    ensures Covers(ReferencedProgram(fs, i), CollectedProgram(fs, i))
    decreases |fs|
  {
    hide ReferencedStmt, CollectedStmt, LabelsQuietAll;
    if fs != [] {
      StmtCollected(Block(fs[0].body), [i]);
      ProgramCollected(fs[1..], i + 1);
    }
  }

  /** The pass reaches every literal code generation refers to exactly when no labelled statement refers to one. */
  lemma ReferencesReached(s: Stmt, p: Path)
    ensures Covers(ReferencedStmt(s, p), CollectedStmt(s, p)) <==> LabelsQuiet(s)
  {
    hide ReferencedStmt, CollectedStmt, LabelsQuiet;
    StmtCollected(s, p);
    if !LabelsQuiet(s) { var n := Missed(s, p); }
  }

  // ----- the pass -----

  /** The table and the numbers written into the nodes so far. */
  datatype Pass = Pass(table: Table, ids: map<Path, nat>)

  const START: Pass := Pass(EMPTY, map[])

  function Visit(st: Pass, n: Node): Pass {
    var (t, id) := Intern(st.table, n.bytes);
    Pass(t, st.ids[n.path := id])
  }

  function Run(st: Pass, nodes: seq<Node>): Pass
    decreases |nodes|
  {
    if nodes == [] then st else Run(Visit(st, nodes[0]), nodes[1..])
  }

  /** The number a node carries; nodes are made with 0. */
  function SymId(st: Pass, p: Path): nat { if p in st.ids then st.ids[p] else 0 }

  function Bytes(nodes: seq<Node>): (r: seq<string>)
    ensures |r| == |nodes| && forall i :: 0 <= i < |r| ==> r[i] == nodes[i].bytes
  {
    if nodes == [] then [] else [nodes[0].bytes] + Bytes(nodes[1..])
  }

  lemma {:induction false} RunAppend(st: Pass, x: seq<Node>, y: seq<Node>)
    ensures Run(st, x + y) == Run(Run(st, x), y)
    decreases |x|
  {
    hide Visit;
    if x == [] {
      assert x + y == y;
    } else {
      assert (x + y)[1..] == x[1..] + y;
      RunAppend(Visit(st, x[0]), x[1..], y);
    }
  }

  /** Numbers stay in nodes that are not visited again. */
  lemma {:induction false} RunKeeps(st: Pass, nodes: seq<Node>, p: Path)
    requires forall n :: n in nodes ==> n.path != p
    ensures SymId(Run(st, nodes), p) == SymId(st, p)
    decreases |nodes|
  {
    hide Intern;
    if nodes != [] { RunKeeps(Visit(st, nodes[0]), nodes[1..], p); }
  }

  /** The pass fills the table with the literals in order and leaves its number in every node. */
  lemma {:induction false} RunInterns(st: Pass, nodes: seq<Node>)
    requires Separate(nodes)
    ensures Run(st, nodes).table == InternAll(st.table, Bytes(nodes)).0
    ensures forall i :: 0 <= i < |nodes| ==>
      SymId(Run(st, nodes), nodes[i].path) == InternAll(st.table, Bytes(nodes)).1[i]
    decreases |nodes|
  {
    hide Intern;
    if nodes != [] {
      var st1 := Visit(st, nodes[0]);
      assert Bytes(nodes)[1..] == Bytes(nodes[1..]);
      RunInterns(st1, nodes[1..]);
      forall n | n in nodes[1..] ensures n.path != nodes[0].path {
        var j :| 0 <= j < |nodes[1..]| && nodes[1..][j] == n;
        assert nodes[j + 1] == n;
      }
      RunKeeps(st1, nodes[1..], nodes[0].path);
      forall i | 1 <= i < |nodes|
        ensures SymId(Run(st, nodes), nodes[i].path) == InternAll(st.table, Bytes(nodes)).1[i]
      {
        assert nodes[i] == nodes[1..][i - 1];
      }
    }
  }

  /** A program after the pass. */
  function Numbered(fs: seq<Func>): Pass { Run(START, CollectedProgram(fs, 0)) }

  /** The reference printed for the node names the datum with its bytes. */
  predicate Resolved(st: Pass, n: Node) { Leads(st.table, SymId(st, n.path), n.bytes) }

  /**
   For every program: the pass reaches all references exactly when no labelled statement refers to a
   literal, and the nodes it reaches find their datum exactly when at most 1024 of their literals differ.
   */
  lemma ProgramInterning(fs: seq<Func>)
    ensures
      Covers(ReferencedProgram(fs, 0), CollectedProgram(fs, 0)) <==> ProgramQuiet(fs)
    ensures
      (forall n :: n in CollectedProgram(fs, 0) ==> Resolved(Numbered(fs), n))
      <==> |Elements(Bytes(CollectedProgram(fs, 0)))| <= CAPACITY
  {
    hide ReferencedProgram, CollectedProgram, ProgramQuiet, InternAll, Run, Separate, Below, Leads, SymId;
    var nodes := CollectedProgram(fs, 0);
    if ProgramQuiet(fs) { ProgramCollected(fs, 0); } else { var n := MissedProgram(fs, 0); }
    ProgramApart(fs, 0);
    RunInterns(START, nodes);
    InterningExact(Bytes(nodes));
    var (t, ids) := InternAll(EMPTY, Bytes(nodes));
    assert forall i :: 0 <= i < |nodes| ==> (Resolved(Numbered(fs), nodes[i]) <==> Leads(t, ids[i], Bytes(nodes)[i]));
  }

  /**
   With quiet labels and at most 1024 different literals every reference names the datum with its
   bytes, two references name the same datum exactly when their bytes are equal, and each different
   literal has one datum.
   */
  lemma ReferencesResolved(fs: seq<Func>)
    requires ProgramQuiet(fs) && |Elements(Bytes(CollectedProgram(fs, 0)))| <= CAPACITY
    ensures forall n :: n in ReferencedProgram(fs, 0) ==> Resolved(Numbered(fs), n)
    ensures forall m, n :: m in ReferencedProgram(fs, 0) && n in ReferencedProgram(fs, 0) ==>
              (SymId(Numbered(fs), m.path) == SymId(Numbered(fs), n.path) <==> m.bytes == n.bytes)
    ensures Sane(Numbered(fs).table)
    ensures Elements(Numbered(fs).table.stored) == Elements(Bytes(CollectedProgram(fs, 0)))
  {
    hide ReferencedProgram, CollectedProgram, ProgramQuiet, InternAll, Run, Separate, Below, SymId, Sane;
    var nodes := CollectedProgram(fs, 0);
    ProgramInterning(fs);
    ProgramApart(fs, 0);
    RunInterns(START, nodes);
    InterningExact(Bytes(nodes));
    EmptySane();
    InternRun(EMPTY, Bytes(nodes));
    forall m, n | m in ReferencedProgram(fs, 0) && n in ReferencedProgram(fs, 0)
      ensures SymId(Numbered(fs), m.path) == SymId(Numbered(fs), n.path) <==> m.bytes == n.bytes
    {
      SaneInjective(Numbered(fs).table, SymId(Numbered(fs), m.path), SymId(Numbered(fs), n.path));
    }
  }

  lemma EmptySane()
    ensures Sane(EMPTY)
  {
  }

  lemma SaneInjective(t: Table, i: nat, j: nat)
    requires Sane(t) && i < |t.stored| && j < |t.stored|
    ensures t.stored[i] == t.stored[j] <==> i == j
  {
  }

  /** `L: p = "x";` is compiled to a reference to datum 0, and there is none. */
  lemma LabelledLiteralMissed()
    ensures
      var f := Func("f", CInt(false), [], [Label("L", ExprStmt(Some(Assign(None, Ident("p"), StrLit("x")))))]);
      ReferencedProgram([f], 0) == {Node([0, 0, 1, 0, 1], "x")}
      && Numbered([f]).table.stored == [] && SymId(Numbered([f]), [0, 0, 1, 0, 1]) == 0
  {
    var e := Assign(None, Ident("p"), StrLit("x"));
    var s := Label("L", ExprStmt(Some(e)));
    var f := Func("f", CInt(false), [], [s]);
    assert Referenced(e, [0, 0, 1, 0]) == {Node([0, 0, 1, 0, 1], "x")} by {
      assert [0, 0, 1, 0] + [1] == [0, 0, 1, 0, 1];
      assert Referenced(StrLit("x"), [0, 0, 1, 0, 1]) == {Node([0, 0, 1, 0, 1], "x")};
    }
    assert [0, 0, 1] + [0] == [0, 0, 1, 0] && [0, 0] + [1] == [0, 0, 1] && [0] + [0] == [0, 0];
    assert ReferencedStmt(ExprStmt(Some(e)), [0, 0, 1]) == Referenced(e, [0, 0, 1, 0]);
    assert ReferencedStmt(s, [0, 0]) == ReferencedStmt(ExprStmt(Some(e)), [0, 0, 1]);
    assert [s][1..] == [] && ReferencedItems([s], [0], 0) == ReferencedStmt(s, [0, 0]);
    assert ReferencedStmt(Block([s]), [0]) == ReferencedItems([s], [0], 0);
    assert [f][1..] == [] && ReferencedProgram([f], 0) == ReferencedStmt(Block([s]), [0]);
    assert CollectedItems([s], [0], 0) == CollectedStmt(s, [0, 0]) + CollectedItems([], [0], 1) == [];
    assert CollectedProgram([f], 0) == CollectedStmt(Block([s]), [0]) + CollectedProgram([], 1) == [];
  }

  // ----- the pass as it runs -----

  /** The table and the node numbers as they are written. */
  class Collector {
    var stored: seq<string>
    var total: nat
    var ids: map<Path, nat>

    constructor ()
      ensures State() == START
    {
      stored, total, ids := [], 0, map[];
    }

    function State(): Pass
      reads this
    {
      Pass(Table(stored, total), ids)
    }

    /** Compares with the stored literals one after the other. */
    method Literal(bytes: string, p: Path)
      modifies this
      ensures State() == Visit(old(State()), Node(p, bytes))
    {
      for i := 0 to |stored|
        invariant State() == old(State()) && Find(stored, bytes, i) == Find(stored, bytes, 0)
      {
        if stored[i] == bytes {
          ids := ids[p := i];
          return;
        }
      }
      ids := ids[p := total];
      total := total + 1;
      if |stored| < CAPACITY { stored := stored + [bytes]; }
    }

    method Expression(e: Expr, p: Path)
      modifies this
      ensures State() == Run(old(State()), Collected(e, p))
      decreases e, 0
    {
      hide Visit, Run;
      ghost var st := State();
      RunNone(st);
      if e.StrLit? {
        Literal(e.bytes, p);
        RunOne(st, Node(p, e.bytes));
      } else if e.Binary? || e.Assign? || e.Comma? {
        Expression(e.lhs, p + [0]);
        Expression(e.rhs, p + [1]);
        RunAppend(st, Collected(e.lhs, p + [0]), Collected(e.rhs, p + [1]));
      } else if e.Conditional? {
        Expression(e.cond, p + [0]);
        ghost var more := Collected(e.thn, p + [1]) + Collected(e.els, p + [2]);
        RunAppend(st, Collected(e.cond, p + [0]), more);
        RunAppend(State(), Collected(e.thn, p + [1]), Collected(e.els, p + [2]));
        Expression(e.thn, p + [1]);
        Expression(e.els, p + [2]);
      } else if e.Unary? || e.Postfix? {
        Expression(e.operand, p + [0]);
      } else if e.Index? {
        Expression(e.base, p + [0]);
        Expression(e.index, p + [1]);
        RunAppend(st, Collected(e.base, p + [0]), Collected(e.index, p + [1]));
      } else if e.Call? {
        Expression(e.callee, p + [0]);
        Arguments(e.args, p, 1);
        RunAppend(st, Collected(e.callee, p + [0]), CollectedArgs(e.args, p, 1));
      }
    }

    method Arguments(es: seq<Expr>, p: Path, first: nat)
      modifies this
      ensures State() == Run(old(State()), CollectedArgs(es, p, first))
      decreases es, 1
    {
      hide Visit, Run, Collected;
      ghost var st := State();
      assert es[0..] == es;
      for k := 0 to |es|
        invariant Run(State(), CollectedArgs(es[k..], p, first + k)) == Run(st, CollectedArgs(es, p, first))
      {
        assert es[k..][0] == es[k] && es[k..][1..] == es[k + 1..];
        RunAppend(State(), Collected(es[k], p + [first + k]), CollectedArgs(es[k + 1..], p, first + k + 1));
        Expression(es[k], p + [first + k]);
      }
      assert es[|es|..] == [];
      RunNone(State());
    }

    method Optional(e: Option<Expr>, p: Path)
      modifies this
      ensures State() == Run(old(State()), CollectedOpt(e, p))
    {
      hide Visit, Run, Collected;
      RunNone(State());
      if e.Some? { Expression(e.value, p); }
    }

    method Statement(s: Stmt, p: Path)
      modifies this
      ensures State() == Run(old(State()), CollectedStmt(s, p))
      decreases s, 0
    {
      hide Visit, Run, Collected, CollectedOpt;
      ghost var st := State();
      RunNone(st);
      if s.Block? {
        Items(s.stmts, p);
      } else if s.ExprStmt? || s.Return? {
        Optional(s.e, p + [0]);
      } else if s.VarDecl? {
        Optional(s.initial, p + [0]);
      } else if s.If? {
        ghost var b := if s.els.Some? then CollectedStmt(s.els.value, p + [2]) else [];
        Expression(s.cond, p + [0]);
        RunAppend(st, Collected(s.cond, p + [0]), CollectedStmt(s.thn, p + [1]) + b);
        RunAppend(State(), CollectedStmt(s.thn, p + [1]), b);
        Statement(s.thn, p + [1]);
        if s.els.Some? { Statement(s.els.value, p + [2]); } else { RunNone(State()); }
      } else if s.While? || s.Do? || s.Switch? {
        Expression(s.cond, p + [0]);
        Statement(s.body, p + [1]);
        RunAppend(st, Collected(s.cond, p + [0]), CollectedStmt(s.body, p + [1]));
      } else if s.For? {
        ghost var d := CollectedStmt(s.body, p + [3]);
        ghost var c := CollectedOpt(s.post, p + [2]) + d;
        Optional(s.init, p + [0]);
        RunAppend(st, CollectedOpt(s.init, p + [0]), CollectedOpt(s.test, p + [1]) + c);
        RunAppend(State(), CollectedOpt(s.test, p + [1]), c);
        Optional(s.test, p + [1]);
        RunAppend(State(), CollectedOpt(s.post, p + [2]), d);
        Optional(s.post, p + [2]);
        Statement(s.body, p + [3]);
      } else if s.Case? {
        Expression(s.value, p + [0]);
        Statement(s.body, p + [1]);
        RunAppend(st, Collected(s.value, p + [0]), CollectedStmt(s.body, p + [1]));
      } else if s.Default? {
        Statement(s.body, p + [1]);
      }
    }

    method Items(ss: seq<Stmt>, p: Path)
      modifies this
      ensures State() == Run(old(State()), CollectedItems(ss, p, 0))
      decreases ss, 1
    {
      hide Visit, Run, CollectedStmt;
      ghost var st := State();
      assert ss[0..] == ss;
      for k := 0 to |ss|
        invariant Run(State(), CollectedItems(ss[k..], p, k)) == Run(st, CollectedItems(ss, p, 0))
      {
        assert ss[k..][0] == ss[k] && ss[k..][1..] == ss[k + 1..];
        RunAppend(State(), CollectedStmt(ss[k], p + [k]), CollectedItems(ss[k + 1..], p, k + 1));
        Statement(ss[k], p + [k]);
      }
      assert ss[|ss|..] == [];
      RunNone(State());
    }

    method Program(fs: seq<Func>)
      modifies this
      ensures State() == Run(old(State()), CollectedProgram(fs, 0))
    {
      hide Visit, Run, CollectedStmt;
      ghost var st := State();
      assert fs[0..] == fs;
      for k := 0 to |fs|
        invariant Run(State(), CollectedProgram(fs[k..], k)) == Run(st, CollectedProgram(fs, 0))
      {
        assert fs[k..][0] == fs[k] && fs[k..][1..] == fs[k + 1..];
        RunAppend(State(), CollectedStmt(Block(fs[k].body), [k]), CollectedProgram(fs[k + 1..], k + 1));
        Statement(Block(fs[k].body), [k]);
      }
      assert fs[|fs|..] == [];
      RunNone(State());
    }
  }

  lemma RunNone(st: Pass)
    ensures Run(st, []) == st
  {
  }

  lemma RunOne(st: Pass, n: Node)
    ensures Run(st, [n]) == Visit(st, n)
  {
    hide Visit;
    assert [n][1..] == [];
  }
}
