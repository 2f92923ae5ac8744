/** Which declaration semantic analysis finds for a name: the one the name stands for. */
module Binding {
  import opened Options
  import opened Words
  import opened Ast
  import opened Typed
  import opened Scopes
  import opened Sema
  import opened Events
  import opened Walks

  // ----- the declaration a walk finds -----

  /**
   Read backwards: the last declaration of `name` not in a block closed since. `d` blocks are closed
   after the events, so that only what stands outside of them counts.
   */
  function Binder(ev: seq<Event>, name: string, d: nat): (j: Option<nat>)
    ensures j.Some? ==> j.value < |ev| && Declares(ev[j.value], name)
  {
    if ev == [] then None
    else
      var rest := ev[..|ev| - 1];
      match ev[|ev| - 1]
      case Open => Binder(rest, name, if d == 0 then 0 else d - 1)
      case Close => Binder(rest, name, d + 1)
      case Decl(x, _) => if d == 0 && x == name then Some(|ev| - 1) else Binder(rest, name, d)
      case Use(_) => Binder(rest, name, d)
  }

  /** The symbol of declaration `j`: its id is the number of declarations before it. */
  function SymbolOf(ev: seq<Event>, j: nat): Symbol
    requires j < |ev| && ev[j].Decl?
  {
    Symbol(ev[j].name, Object(ev[j].ct), Decls(ev[..j]), false)
  }

  function Found(ev: seq<Event>, name: string, d: nat, globals: Scope): Option<Symbol> {
    match Binder(ev, name, d)
    case Some(j) => Some(SymbolOf(ev, j))
    case None => FindIn(globals, name)
  }

  /** What the symbol table answers after the events, with `d` more blocks closed. */
  ghost predicate Knows(ev: seq<Event>, w: Walk, globals: Scope) {
    w.ch != [] && w.n == Decls(ev) && |w.names| == Marks(ev)
    && forall d: nat, name :: d < |w.ch| ==> Lookup(w.ch[d..], name) == Found(ev, name, d, globals)
  }

  lemma {:induction false} WalkKnows(ev: seq<Event>, globals: Scope)
    requires Visit(ev, Start(globals)).Ok?
    ensures Knows(ev, Visit(ev, Start(globals)).value, globals)
    decreases |ev|
  {
    hide FindIn;
    var w := Visit(ev, Start(globals)).value;
    if ev == [] {
      forall d: nat, name | d < |w.ch| ensures Lookup(w.ch[d..], name) == Found(ev, name, d, globals) {
        assert w.ch[d..] == [globals] && [globals][1..] == [];
        assert Lookup([], name) == None;
      }
    } else {
      var rest, x := ev[..|ev| - 1], ev[|ev| - 1];
      WalkKnows(rest, globals);
      var v := Visit(rest, Start(globals)).value;
      assert rest + [x] == ev;
      forall d: nat, name | d < |w.ch| ensures Lookup(w.ch[d..], name) == Found(ev, name, d, globals) {
        MoveKnows(rest, x, v, globals, d, name);
      }
    }
  }

  lemma FoundBefore(ev: seq<Event>, x: Event, name: string, d: nat, e: nat, globals: Scope)
    requires Binder(ev + [x], name, d) == Binder(ev, name, e)
    ensures Found(ev + [x], name, d, globals) == Found(ev, name, e, globals)
  {
    hide FindIn, Binder;
    var j := Binder(ev, name, e);
    if j.Some? { assert (ev + [x])[..j.value] == ev[..j.value]; }
  }

  lemma MoveKnows(ev: seq<Event>, x: Event, v: Walk, globals: Scope, d: nat, name: string)
    requires Knows(ev, v, globals) && Move(x, v).Ok? && d < |Move(x, v).value.ch|
    ensures Lookup(Move(x, v).value.ch[d..], name) == Found(ev + [x], name, d, globals)
  {
    hide FindIn, Found, Lookup, ElabIdent, Decls, Marks;
    var w := Move(x, v).value;
    assert (ev + [x])[..|ev|] == ev;
    match x
    case Open =>
      var e := if d == 0 then 0 else d - 1;
      FoundBefore(ev, x, name, d, e, globals);
      if d == 0 { LookupEmpty(v.ch, name); }
      assert w.ch[d..] == if d == 0 then [[]] + v.ch else v.ch[e..];
      assert v.ch[0..] == v.ch;
    case Close =>
      FoundBefore(ev, x, name, d, d + 1, globals);
      assert w.ch[d..] == v.ch[d + 1..];
    case Decl(y, ct) =>
      if d == 0 && y == name {
        LookupNewest(v.ch, Symbol(y, Object(ct), v.n, false));
        FoundNewest(ev, x, globals);
      } else {
        FoundBefore(ev, x, name, d, d, globals);
        if d == 0 { LookupOther(v.ch, Symbol(y, Object(ct), v.n, false), name); }
        else { assert w.ch[d..] == v.ch[d..]; }
        assert v.ch[0..] == v.ch && w.ch[0..] == w.ch;
      }
    case Use(_) => FoundBefore(ev, x, name, d, d, globals);
  }

  lemma FoundNewest(ev: seq<Event>, x: Event, globals: Scope)
    requires x.Decl?
    ensures Found(ev + [x], x.name, 0, globals) == Some(Symbol(x.name, Object(x.ct), Decls(ev), false))
  {
    assert (ev + [x])[..|ev|] == ev;
  }

  lemma LookupEmpty(ch: Chain, name: string)
    ensures Lookup([[]] + ch, name) == Lookup(ch, name)
  {
    assert ([[]] + ch)[1..] == ch;
  }

  lemma LookupNewest(ch: Chain, sym: Symbol)
    requires ch != []
    ensures Lookup(Declared(ch, sym)[0..], sym.name) == Some(sym)
  {
  }

  lemma LookupOther(ch: Chain, sym: Symbol, name: string)
    requires ch != [] && name != sym.name
    ensures Lookup(Declared(ch, sym), name) == Lookup(ch, name)
  {
    assert ([sym] + ch[0])[1..] == ch[0] && Declared(ch, sym)[1..] == ch[1..];
  }

  // ----- backwards reading and open blocks -----

  /** `name` is declared at `k`, and closing `d` more blocks after the events leaves its block open. */
  ghost predicate Counts(ev: seq<Event>, k: nat, name: string, d: nat) {
    k < |ev| && Declares(ev[k], name) && StillOpen(ev, k, |ev|) && Since(ev, k, |ev|) >= d
  }

  function Change(x: Event): int {
    match x
    case Open => 1
    case Close => -1
    case _ => 0
  }

  lemma SinceStep(ev: seq<Event>, x: Event, k: nat)
    requires k < |ev|
    ensures Since(ev + [x], k, |ev| + 1) == Since(ev, k, |ev|) + Change(x)
    ensures forall m :: k < m <= |ev| ==> Since(ev + [x], k, m) == Since(ev, k, m)
  {
    hide Level;
    assert (ev + [x])[k + 1..|ev| + 1] == ev[k + 1..] + [x];
    LevelStep(ev[k + 1..], x);
    assert ev[k + 1..|ev|] == ev[k + 1..];
    forall m | k < m <= |ev| ensures Since(ev + [x], k, m) == Since(ev, k, m) {
      assert (ev + [x])[k + 1..m] == ev[k + 1..m];
    }
  }

  lemma LevelStep(ev: seq<Event>, x: Event)
    ensures Level(ev + [x]) == Level(ev) + Change(x)
  {
    assert (ev + [x])[..|ev|] == ev;
  }

  lemma OpenStep(ev: seq<Event>, x: Event, k: nat)
    requires k < |ev|
    ensures StillOpen(ev + [x], k, |ev| + 1) <==> StillOpen(ev, k, |ev|) && Since(ev, k, |ev|) + Change(x) >= 0
  {
    hide Since, Change;
    SinceStep(ev, x, k);
    if StillOpen(ev + [x], k, |ev| + 1) {
      assert Since(ev + [x], k, |ev| + 1) >= 0;
      forall m | k < m <= |ev| ensures Since(ev, k, m) >= 0 { assert Since(ev + [x], k, m) >= 0; }
    }
  }

  /** How many blocks are closed, seen before one more event. */
  function Closing(x: Event, d: nat): nat {
    match x
    case Open => if d == 0 then 0 else d - 1
    case Close => d + 1
    case _ => d
  }

  lemma CountsStep(ev: seq<Event>, x: Event, k: nat, name: string, d: nat)
    requires k < |ev|
    ensures Counts(ev + [x], k, name, d) <==> Counts(ev, k, name, Closing(x, d))
  {
    hide StillOpen, Since;
    OpenStep(ev, x, k);
    SinceStep(ev, x, k);
    if StillOpen(ev, k, |ev|) { OpenLevel(ev, k); }
  }

  lemma OpenLevel(ev: seq<Event>, k: nat)
    requires k < |ev| && StillOpen(ev, k, |ev|)
    ensures Since(ev, k, |ev|) >= 0
  {
  }

  lemma CountsLast(ev: seq<Event>, x: Event, name: string, d: nat)
    ensures Counts(ev + [x], |ev|, name, d) <==> Declares(x, name) && d == 0
  {
    var e := ev + [x];
    assert Since(e, |ev|, |ev| + 1) == 0 by { assert e[|ev| + 1..|ev| + 1] == []; }
  }

  /** Reading backwards finds the last declaration that counts. */
  lemma {:induction false} BinderCounts(ev: seq<Event>, name: string, d: nat)
    ensures
      match Binder(ev, name, d)
      case None => forall k: nat :: !Counts(ev, k, name, d)
      case Some(j) => Counts(ev, j, name, d) && forall k: nat :: j < k ==> !Counts(ev, k, name, d)
    decreases |ev|
  {
    hide Counts;
    if ev == [] {
      NoneCount(name, d);
    } else {
      var rest, x := ev[..|ev| - 1], ev[|ev| - 1];
      assert rest + [x] == ev;
      BinderCounts(rest, name, Closing(x, d));
      CountsLast(rest, x, name, d);
      forall k: nat | k < |rest| ensures Counts(ev, k, name, d) <==> Counts(rest, k, name, Closing(x, d)) {
        CountsStep(rest, x, k, name, d);
      }
      forall k: nat | k >= |ev| ensures !Counts(ev, k, name, d) { Beyond(ev, k, name, d); }
    }
  }

  lemma NoneCount(name: string, d: nat)
    ensures forall k: nat :: !Counts([], k, name, d)
  {
  }

  lemma Beyond(ev: seq<Event>, k: nat, name: string, d: nat)
    requires k >= |ev|
    ensures !Counts(ev, k, name, d)
  {
  }

  /** A declaration that counts before event `i` is one whose block is still open there. */
  lemma CountsBefore(ev: seq<Event>, i: nat, k: nat, name: string)
    requires k < i <= |ev|
    ensures Counts(ev[..i], k, name, 0) <==> Declares(ev[k], name) && StillOpen(ev, k, i)
  {
    hide Level;
    forall m | k < m <= i ensures Since(ev[..i], k, m) == Since(ev, k, m) {
      assert ev[..i][k + 1..m] == ev[k + 1..m];
    }
  }

  /** The walk finds the declaration a name stands for, or looks in the scope of the file. */
  lemma BinderStands(ev: seq<Event>, i: nat, name: string)
    requires i <= |ev|
    ensures
      match Binder(ev[..i], name, 0)
      case None => forall j :: !StandsFor(ev, j, i, name)
      case Some(j) => StandsFor(ev, j, i, name) && forall k :: StandsFor(ev, k, i, name) ==> k == j
  {
    hide StillOpen, Counts, Binder, Declares;
    BinderCounts(ev[..i], name, 0);
    forall k: nat | k < i
      ensures Counts(ev[..i], k, name, 0) <==> Declares(ev[k], name) && StillOpen(ev, k, i)
    {
      CountsBefore(ev, i, k, name);
    }
  }

  lemma UseFinds(ev: seq<Event>, i: nat, name: string, globals: Scope) returns (j: Option<nat>)
    requires i <= |ev| && Visit(ev[..i], Start(globals)).Ok?
    ensures
      var ch := Visit(ev[..i], Start(globals)).value.ch;
      match j
      case None => Lookup(ch, name) == FindIn(globals, name) && forall k :: !StandsFor(ev, k, i, name)
      case Some(k) => StandsFor(ev, k, i, name) && Lookup(ch, name) == Some(SymbolOf(ev, k))
  {
    hide FindIn, Lookup, Visit, StandsFor, Decls, Binder;
    WalkKnows(ev[..i], globals);
    BinderStands(ev, i, name);
    var ch := Visit(ev[..i], Start(globals)).value.ch;
    assert ch[0..] == ch;
    j := Binder(ev[..i], name, 0);
    if j.Some? { SymbolBefore(ev, i, j.value); }
  }

  lemma SymbolBefore(ev: seq<Event>, i: nat, j: nat)
    requires j < i <= |ev| && ev[j].Decl?
    ensures SymbolOf(ev[..i], j) == SymbolOf(ev, j)
  {
    assert ev[..i][..j] == ev[..j];
  }

  // ----- sound event sequences -----

  /** No block is closed that was not opened, and every declared type is supported. */
  ghost predicate Sound(ev: seq<Event>) {
    (forall k :: 0 <= k <= |ev| ==> Level(ev[..k]) >= 0) && forall x :: x in ev && x.Decl? ==> Core(x.ct).Some?
  }

  ghost predicate Closed(ev: seq<Event>) { Sound(ev) && Level(ev) == 0 }

  lemma {:induction false} LevelAppend(a: seq<Event>, b: seq<Event>)
    ensures Level(a + b) == Level(a) + Level(b)
  {
    if b == [] {
      assert a + b == a;
    } else {
      assert (a + b)[..|a + b| - 1] == a + b[..|b| - 1];
      LevelAppend(a, b[..|b| - 1]);
    }
  }

  lemma SoundAppend(a: seq<Event>, b: seq<Event>)
    requires Closed(a) && Sound(b)
    ensures Sound(a + b) && Level(a + b) == Level(b)
  {
    hide Level;
    LevelAppend(a, b);
    forall k | 0 <= k <= |a + b| ensures Level((a + b)[..k]) >= 0 {
      if k <= |a| {
        assert (a + b)[..k] == a[..k];
      } else {
        assert (a + b)[..k] == a + b[..k - |a|];
        LevelAppend(a, b[..k - |a|]);
      }
    }
    assert a[..|a|] == a;
  }

  lemma SoundOpen(b: seq<Event>)
    requires Sound(b)
    ensures Sound([Open] + b)
  {
    hide Level;
    OpenCloseLevels();
    forall k | 0 <= k <= |[Open] + b| ensures Level(([Open] + b)[..k]) >= 0 {
      if k == 0 {
        assert ([Open] + b)[..k] == [];
      } else {
        assert ([Open] + b)[..k] == [Open] + b[..k - 1];
        LevelAppend([Open], b[..k - 1]);
      }
    }
  }

  lemma OpenCloseLevels()
    ensures Level([]) == 0 && Level([Open]) == 1 && Level([Close]) == -1
  {
    assert [Open][..0] == [] && [Close][..0] == [];
  }

  /** A block around closed events. */
  lemma SoundBlock(b: seq<Event>)
    requires Closed(b)
    ensures Closed([Open] + (b + [Close]))
  {
    hide Level;
    OpenCloseLevels();
    LevelAppend(b, [Close]);
    LevelAppend([Open], b + [Close]);
    var all := [Open] + (b + [Close]);
    forall k | 0 <= k <= |all| ensures Level(all[..k]) >= 0 {
      if k == 0 {
        assert all[..k] == [];
      } else if k <= |b| + 1 {
        assert all[..k] == [Open] + b[..k - 1];
        LevelAppend([Open], b[..k - 1]);
      } else {
        assert all[..k] == all;
      }
    }
  }

  /** Uses alone. */
  predicate OnlyUses(ev: seq<Event>) { forall x :: x in ev ==> x.Use? }

  lemma {:induction false} UsesClosed(ev: seq<Event>)
    requires OnlyUses(ev)
    ensures Closed(ev)
  {
    UsesLevel(ev);
    forall k | 0 <= k <= |ev| ensures Level(ev[..k]) >= 0 { UsesLevel(ev[..k]); }
  }

  lemma {:induction false} UsesLevel(ev: seq<Event>)
    requires OnlyUses(ev)
    ensures Level(ev) == 0
  {
    if ev != [] {
      assert ev[|ev| - 1] in ev;
      UsesLevel(ev[..|ev| - 1]);
    }
  }

  lemma {:induction false} ExprUses(e: Expr)
    ensures OnlyUses(ExprEvents(e))
  {
    match e
    case Binary(_, l, r) => ExprUses(l); ExprUses(r);
    case Assign(_, l, r) => ExprUses(l); ExprUses(r);
    case Conditional(c, a, b) => ExprUses(c); ExprUses(a); ExprUses(b);
    case Comma(l, r) => ExprUses(l); ExprUses(r);
    case Postfix(_, x) => ExprUses(x);
    case _ =>
  }

  lemma ExprClosed(e: Expr)
    ensures Closed(ExprEvents(e))
  {
    hide Closed, OnlyUses, ExprEvents;
    ExprUses(e);
    UsesClosed(ExprEvents(e));
  }

  lemma OptClosed(e: Option<Expr>)
    ensures Closed(OptEvents(e))
  {
    hide Closed, ExprEvents;
    if e.Some? { ExprClosed(e.value); } else { UsesClosed([]); }
  }

  lemma ClosedAppend(a: seq<Event>, b: seq<Event>)
    requires Closed(a) && Closed(b)
    ensures Closed(a + b)
  {
    hide Sound, Level;
    SoundAppend(a, b);
  }

  lemma DeclClosed(name: string, ct: CType)
    requires Core(ct).Some?
    ensures Closed([Decl(name, ct)])
  {
    var d := [Decl(name, ct)];
    assert d[..0] == [] && d[..1] == d;
  }

  lemma {:induction false} StmtClosed(s: Stmt)
    requires StmtFragment(s)
    ensures Closed(StmtEvents(s))
    decreases s
  {
    hide Closed, ExprEvents, OptEvents, ExprFragment, OptFragment;
    match s
    case ExprStmt(e) => OptClosed(e);
    case Block(ss) =>
      StmtsClosed(ss);
      SoundBlock(StmtsEvents(ss));
    case If(c, t, els) =>
      ExprClosed(c);
      StmtClosed(t);
      if els.Some? {
        StmtClosed(els.value);
        ClosedAppend(StmtEvents(t), StmtEvents(els.value));
        ClosedAppend(ExprEvents(c), StmtEvents(t) + StmtEvents(els.value));
      } else {
        ClosedAppend(ExprEvents(c), StmtEvents(t));
      }
    case While(c, body) =>
      ExprClosed(c);
      StmtClosed(body);
      ClosedAppend(ExprEvents(c), StmtEvents(body));
    case Do(body, c) =>
      ExprClosed(c);
      StmtClosed(body);
      ClosedAppend(ExprEvents(c), StmtEvents(body));
    case For(i, c, p, body) => ForClosed(i, c, p, StmtEvents(body)) by { StmtClosed(body); }
    case Return(e) => OptClosed(e);
    case VarDecl(name, ct, initial) =>
      DeclClosed(name, ct);
      OptClosed(initial);
      ClosedAppend([Decl(name, ct)], OptEvents(initial));
    case _ => UsesClosed([]);
  }

  lemma ForClosed(i: Option<Expr>, c: Option<Expr>, p: Option<Expr>, body: seq<Event>)
    requires Closed(body)
    ensures
      Closed([Open] + (OptEvents(i) + (OptEvents(c) + (OptEvents(p) + (body + [Close])))))
  {
    hide Closed, OptEvents;
    OptClosed(i);
    OptClosed(c);
    OptClosed(p);
    var b := OptEvents(i) + (OptEvents(c) + (OptEvents(p) + body));
    ClosedAppend(OptEvents(p), body);
    ClosedAppend(OptEvents(c), OptEvents(p) + body);
    ClosedAppend(OptEvents(i), OptEvents(c) + (OptEvents(p) + body));
    SoundBlock(b);
    assert b + [Close] == OptEvents(i) + (OptEvents(c) + (OptEvents(p) + (body + [Close])));
  }

  lemma {:induction false} StmtsClosed(ss: seq<Stmt>)
    requires StmtsFragment(ss)
    ensures Closed(StmtsEvents(ss))
    decreases ss
  {
    hide Closed, StmtEvents, StmtFragment;
    if ss == [] {
      UsesClosed([]);
    } else {
      StmtClosed(ss[0]);
      StmtsClosed(ss[1..]);
      ClosedAppend(StmtEvents(ss[0]), StmtsEvents(ss[1..]));
    }
  }

  lemma {:induction false} ParamsClosed(ps: seq<Param>)
    requires ParamsFragment(ps)
    ensures Closed(ParamEvents(ps))
    decreases |ps|
  {
    hide Closed;
    if ps == [] {
      UsesClosed([]);
    } else {
      DeclClosed(ps[0].name, ps[0].ptype);
      ParamsClosed(ps[1..]);
      ClosedAppend([Decl(ps[0].name, ps[0].ptype)], ParamEvents(ps[1..]));
    }
  }

  lemma FuncSound(f: Func)
    requires FuncFragment(f)
    ensures Sound(FuncEvents(f))
  {
    hide Sound, ParamsFragment, StmtsFragment, ParamEvents, StmtsEvents;
    ParamsClosed(f.params);
    StmtsClosed(f.body);
    SoundOpen(StmtsEvents(f.body));
    SoundAppend(ParamEvents(f.params), [Open] + StmtsEvents(f.body));
    SoundOpen(ParamEvents(f.params) + ([Open] + StmtsEvents(f.body)));
  }

  // ----- main results -----

  /** The walk is as many scopes deep as the braces say. */
  lemma {:induction false} WalkDepth(ev: seq<Event>, globals: Scope)
    requires Visit(ev, Start(globals)).Ok?
    ensures |Visit(ev, Start(globals)).value.ch| == Level(ev) + 1
    decreases |ev|
  {
    hide ElabIdent;
    if ev != [] { WalkDepth(ev[..|ev| - 1], globals); }
  }

  lemma VisitNext(ev: seq<Event>, i: nat, w: Walk)
    requires i < |ev|
    ensures Visit(ev[..i + 1], w) == match Visit(ev[..i], w) case Err(x) => Err(x) case Ok(v) => Move(ev[i], v)
  {
    hide Move;
    var a := ev[..i + 1];
    assert a[..|a| - 1] == ev[..i] && a[|a| - 1] == ev[i];
  }

  /** What a name no declaration of the function stands for is refused with. */
  function Refusal(name: string, globals: Scope): ElabError {
    if FindIn(globals, name).Some? then Unsupported else Undeclared(name)
  }

  /** One event: only a name without declaration stops the walk. */
  lemma MoveOn(ev: seq<Event>, i: nat, globals: Scope)
    requires Sound(ev) && GlobalScope(globals) && i < |ev| && Visit(ev[..i], Start(globals)).Ok?
    ensures
      var r := Move(ev[i], Visit(ev[..i], Start(globals)).value);
      if ev[i].Use? && !Bound(ev, i) then r == Err(Refusal(ev[i].name, globals)) else r.Ok?
  {
    hide Visit, Lookup, FindIn, Level, StandsFor, Decls, Declared;
    var w := Visit(ev[..i], Start(globals)).value;
    WalkDepth(ev[..i], globals);
    assert ev[..i + 1] == ev[..i] + [ev[i]];
    LevelStep(ev[..i], ev[i]);
    assert Level(ev[..i]) >= 0 && Level(ev[..i + 1]) >= 0;
    assert ev[i] in ev;
    if ev[i].Use? {
      var name := ev[i].name;
      var j := UseFinds(ev, i, name, globals);
      if j.None? { FoundGlobal(globals, name); }
      if j.Some? { StandsForDecl(ev, j.value, i, name); }
    }
  }

  lemma StandsForDecl(ev: seq<Event>, j: nat, i: nat, name: string)
    requires StandsFor(ev, j, i, name)
    ensures j < i <= |ev| && ev[j].Decl? && ev[j].name == name && ev[j] in ev
  {
  }

  lemma {:induction false} WalkTo(ev: seq<Event>, i: nat, globals: Scope)
    requires Sound(ev) && GlobalScope(globals) && i <= |ev|
    ensures Visit(ev[..i], Start(globals)).Ok? <==> forall k :: 0 <= k < i && ev[k].Use? ==> Bound(ev, k)
    decreases i
  {
    hide Visit, Move, Sound, Bound;
    if i == 0 {
      VisitNone(Start(globals));
      assert ev[..0] == [];
    } else {
      WalkTo(ev, i - 1, globals);
      VisitNext(ev, i - 1, Start(globals));
      if Visit(ev[..i - 1], Start(globals)).Ok? { MoveOn(ev, i - 1, globals); }
    }
  }

  /** The names of a walk are never changed later. */
  lemma {:induction false} NamesStay(ev: seq<Event>, i: nat, w: Walk)
    requires Visit(ev, w).Ok? && i <= |ev|
    ensures Visit(ev[..i], w).Ok? && Visit(ev[..i], w).value.names <= Visit(ev, w).value.names
    decreases |ev|
  {
    hide ElabIdent;
    if i == |ev| {
      assert ev[..i] == ev;
    } else {
      var rest := ev[..|ev| - 1];
      NamesStay(rest, i, w);
      assert rest[..i] == ev[..i];
    }
  }

  /** Mark `m` of the names is what event `i` calls for: its own declaration, or the one its name stands for. */
  ghost predicate RightName(ev: seq<Event>, i: nat, names: seq<Named>)
    requires i < |ev|
  {
    var m := Marks(ev[..i]);
    match ev[i]
    case Decl(_, ct) => Core(ct).Some? && m < |names| && names[m] == Made(Decls(ev[..i]), Core(ct).value)
    case Use(name) =>
      exists j: nat :: StandsFor(ev, j, i, name) && Core(ev[j].ct).Some?
        && m < |names| && names[m] == Used(Decls(ev[..j]), Core(ev[j].ct).value)
    case _ => true
  }

  /** Every name of the elaborated tree is right, and there are no others. */
  ghost predicate RightNames(ev: seq<Event>, names: seq<Named>) {
    |names| == Marks(ev) && forall i :: 0 <= i < |ev| ==> RightName(ev, i, names)
  }

  lemma NameRight(ev: seq<Event>, i: nat, globals: Scope)
    requires GlobalScope(globals) && i < |ev| && Visit(ev, Start(globals)).Ok?
    ensures RightName(ev, i, Visit(ev, Start(globals)).value.names)
  {
    hide Visit, Lookup, FindIn, StandsFor, Decls, Declared, Marks;
    var start := Start(globals);
    NamesStay(ev, i, start);
    NamesStay(ev, i + 1, start);
    VisitNext(ev, i, start);
    WalkKnows(ev[..i], globals);
    if ev[i].Use? {
      var name := ev[i].name;
      var j := UseFinds(ev, i, name, globals);
      if j.None? { FoundGlobal(globals, name); }
      if j.Some? { StandsForDecl(ev, j.value, i, name); }
    }
  }

  /**
   Main result: a function is analysed exactly when its forms are those handled and every name has a declaration
   it stands for; each use then has the id and type of that declaration, each declaration the next id, and the first
   name without one is what a function of handled forms is refused for.
   */
  lemma FunctionBindings(f: Func, globals: Scope)
    requires GlobalScope(globals)
    ensures ElabFunc(f, globals).Ok? <==> FuncFragment(f) && AllBound(FuncEvents(f))
    ensures ElabFunc(f, globals).Ok? ==> RightNames(FuncEvents(f), FuncNames(ElabFunc(f, globals).value))
    ensures
      forall i: nat :: FuncFragment(f) && FirstUnbound(FuncEvents(f), i) ==>
        ElabFunc(f, globals) == Err(Refusal(FuncEvents(f)[i].name, globals))
  {
    hide ElabFunc, FuncFragment, FuncEvents, FuncNames, Visit, Bound, Marks, RightName, Move, Sound;
    var ev := FuncEvents(f);
    if ElabFunc(f, globals).Ok? { FuncForm(f, globals); }
    if FuncFragment(f) {
      FuncVisits(f, globals);
      FuncSound(f);
      assert ev[..|ev|] == ev;
      WalkTo(ev, |ev|, globals);
      if ElabFunc(f, globals).Ok? {
        WalkKnows(ev, globals);
        forall i | 0 <= i < |ev| ensures RightName(ev, i, FuncNames(ElabFunc(f, globals).value)) {
          NameRight(ev, i, globals);
        }
      }
      forall i: nat | FirstUnbound(ev, i) ensures ElabFunc(f, globals) == Err(Refusal(ev[i].name, globals)) {
        StopsAt(ev, i, globals);
      }
    }
  }

  lemma StopsAt(ev: seq<Event>, i: nat, globals: Scope)
    requires Sound(ev) && GlobalScope(globals) && FirstUnbound(ev, i)
    ensures Visit(ev, Start(globals)) == Err(Refusal(ev[i].name, globals))
  {
    hide Visit, Move, Sound, Bound;
    WalkTo(ev, i, globals);
    VisitNext(ev, i, Start(globals));
    MoveOn(ev, i, globals);
    assert ev == ev[..i + 1] + ev[i + 1..];
    VisitAppend(ev[..i + 1], ev[i + 1..], Start(globals));
  }

  // ----- statements as runs of the symbol table -----

  /** The operations of the symbol table a statement amounts to. */
  function Ops(ev: seq<Event>): seq<Op> {
    if ev == [] then []
    else
      (match ev[0]
       case Open => [Enter]
       case Close => [Leave]
       case Decl(name, ct) => [Declare(name, Object(ct), false)]
       case Use(_) => [])
      + Ops(ev[1..])
  }

  lemma {:induction false} OpsAppend(a: seq<Event>, b: seq<Event>)
    ensures Ops(a + b) == Ops(a) + Ops(b)
  {
    if a == [] {
      assert a + b == b;
    } else {
      assert (a + b)[1..] == a[1..] + b;
      OpsAppend(a[1..], b);
    }
  }

  lemma {:induction false} VisitRuns(ev: seq<Event>, w: Walk, g: nat)
    requires Visit(ev, w).Ok?
    ensures
      var v := Visit(ev, w).value;
      RunOps(Ops(ev), State(w.ch, w.n, g)) == Some(State(v.ch, v.n, g))
    decreases |ev|
  {
    hide ElabIdent, Declared, Apply;
    if ev != [] {
      var rest, x := ev[..|ev| - 1], ev[|ev| - 1];
      var v := Visit(rest, w).value;
      VisitRuns(rest, w, g);
      assert rest + [x] == ev;
      OpsAppend(rest, [x]);
      RunAppend(Ops(rest), Ops([x]), State(w.ch, w.n, g));
      MoveRuns(x, v, g);
    }
  }

  lemma MoveRuns(x: Event, v: Walk, g: nat)
    requires Move(x, v).Ok?
    ensures
      var w := Move(x, v).value;
      RunOps(Ops([x]), State(v.ch, v.n, g)) == Some(State(w.ch, w.n, g))
  {
    hide ElabIdent, Declared;
    assert [x][1..] == [] && Ops([]) == [];
    var ops := Ops([x]);
    if ops != [] { assert ops[1..] == []; }
  }

  lemma {:induction false} OpsBalanced(ev: seq<Event>, d: nat)
    requires forall k :: 0 <= k <= |ev| ==> d + Level(ev[..k]) >= 0
    requires d + Level(ev) == 0
    ensures Balanced(Ops(ev), d)
    decreases |ev|
  {
    hide Level;
    OpenCloseLevels();
    if ev == [] { return; }
    assert ev == [ev[0]] + ev[1..];
    LevelAppend([ev[0]], ev[1..]);
    OneLevel(ev[0]);
    forall k | 0 <= k <= |ev[1..]| ensures d + Change(ev[0]) + Level(ev[1..][..k]) >= 0 {
      assert ev[..k + 1] == [ev[0]] + ev[1..][..k];
      LevelAppend([ev[0]], ev[1..][..k]);
    }
    assert ev[1..][..0] == [];
    OpsBalanced(ev[1..], d + Change(ev[0]));
    OpsHead(ev, d);
  }

  lemma OneLevel(x: Event)
    ensures Level([x]) == Change(x)
  {
    assert [x][..0] == [];
  }

  lemma OpsHead(ev: seq<Event>, d: nat)
    requires ev != [] && d + Change(ev[0]) >= 0 && Balanced(Ops(ev[1..]), d + Change(ev[0]))
    ensures Balanced(Ops(ev), d)
  {
    var rest := Ops(ev[1..]);
    if !ev[0].Use? { assert Ops(ev)[1..] == rest; } else { assert Ops(ev) == rest; }
  }

  /**
   Analysis of any statement, nested declarations included, is a balanced run of scope operations: those of its
   braces and declarations. Blocks and `for` statements leave the scopes as they were.
   */
  lemma StatementRuns(s: Stmt, ch: Chain, n: nat, rt: Ty, g: nat)
    requires ch != [] && ElabStmt(s, ch, n, rt).Ok?
    ensures Balanced(Ops(StmtEvents(s)), 0)
    ensures
      var d := ElabStmt(s, ch, n, rt).value;
      RunOps(Ops(StmtEvents(s)), State(ch, n, g)) == Some(State(d.ch, d.n, g))
    ensures s.Block? || s.For? ==> ElabStmt(s, ch, n, rt).value.ch == ch
  {
    hide ElabStmt, StmtEvents, Visit, StmtFragment, Level, RunOps, Ops, StmtNames;
    StmtForm(s, ch, n, rt);
    StmtClosed(s);
    var w := Walk([], ch, n);
    StmtVisits(s, w, rt);
    VisitRuns(StmtEvents(s), w, g);
    OpsBalanced(StmtEvents(s), 0);
    BlockRestores(s, ch, n, rt);
  }

  lemma BlockRestores(s: Stmt, ch: Chain, n: nat, rt: Ty)
    requires ch != [] && ElabStmt(s, ch, n, rt).Ok?
    ensures s.Block? || s.For? ==> ElabStmt(s, ch, n, rt).value.ch == ch
  {
    hide ElabExpr, ElabOpt;
    assert ([[]] + ch)[1..] == ch;
  }

  // ----- the functions of a file -----

  /** The file holds a function of that name. */
  predicate Names(fs: seq<Func>, name: string) { exists i :: 0 <= i < |fs| && fs[i].name == name }

  /** Function `i` is the last of that name. */
  ghost predicate LastNamed(fs: seq<Func>, i: nat, name: string) {
    i < |fs| && fs[i].name == name && forall k :: i < k < |fs| ==> fs[k].name != name
  }

  /** In the scope of a file a name is that of its last function of the name, whose id is its place. */
  lemma FileNames(fs: seq<Func>, name: string)
    ensures GlobalScope(FileScope(fs))
    ensures FindIn(FileScope(fs), name).Some? <==> Names(fs, name)
    ensures
      forall i: nat :: LastNamed(fs, i, name) ==> FindIn(FileScope(fs), name) == Some(Symbol(name, Function, i, true))
  {
    GlobalNames(fs, [], 0, name);
  }

  lemma {:induction false} GlobalNames(fs: seq<Func>, sc: Scope, b: nat, name: string)
    ensures GlobalScope(sc) ==> GlobalScope(Globals(fs, sc, b))
    ensures
      FindIn(Globals(fs, sc, b), name).Some? <==> (FindIn(sc, name).Some? || Names(fs, name))
    ensures
      forall i: nat :: LastNamed(fs, i, name) ==>
        FindIn(Globals(fs, sc, b), name) == Some(Symbol(name, Function, b + i, true))
    ensures !Names(fs, name) ==> FindIn(Globals(fs, sc, b), name) == FindIn(sc, name)
    decreases |fs|
  {
    if fs != [] {
      var sym := Symbol(fs[0].name, Function, b, true);
      var rest := fs[1..];
      GlobalNames(rest, [sym] + sc, b + 1, name);
      assert ([sym] + sc)[1..] == sc;
      forall i: nat | LastNamed(fs, i, name)
        ensures FindIn(Globals(fs, sc, b), name) == Some(Symbol(name, Function, b + i, true))
      {
        if i > 0 {
          assert fs[i] == rest[i - 1];
          assert forall k :: i - 1 < k < |rest| ==> rest[k] == fs[k + 1];
          assert LastNamed(rest, i - 1, name);
        } else {
          assert forall k :: 0 <= k < |rest| ==> rest[k] == fs[k + 1];
        }
      }
      if i :| 0 <= i < |fs| && fs[i].name == name {
        if i > 0 { assert rest[i - 1].name == name; }
      }
      assert forall k :: 0 <= k < |rest| ==> rest[k] == fs[k + 1];
      assert Names(fs, name) <==> fs[0].name == name || Names(rest, name);
    }
  }
}
