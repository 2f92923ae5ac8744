/** The symbol table of sema.c: a chain of scopes, the innermost first. */
module Scopes {
  import opened Options
  import opened Ast

  datatype SymbolType = Object(ctype: CType) | Function

  datatype Symbol = Symbol(name: string, stype: SymbolType, id: nat, isGlobal: bool)

  /** A scope lists its symbols newest first; a chain lists its scopes innermost first. */
  type Scope = seq<Symbol>
  type Chain = seq<Scope>

  function FindIn(sc: Scope, name: string): Option<Symbol> {
    if sc == [] then None
    else if sc[0].name == name then Some(sc[0])
    else FindIn(sc[1..], name)
  }

  /** The symbol a name resolves to: the newest one of the innermost scope that has one. */
  function Lookup(ch: Chain, name: string): Option<Symbol> {
    if ch == [] then None
    else if FindIn(ch[0], name).Some? then FindIn(ch[0], name)
    else Lookup(ch[1..], name)
  }

  /** The scope of a file. */
  predicate GlobalScope(globals: Scope) { forall s :: s in globals ==> s.isGlobal }

  lemma {:induction false} FoundGlobal(sc: Scope, x: string)
    requires GlobalScope(sc)
    ensures FindIn(sc, x).Some? ==> FindIn(sc, x).value.isGlobal
  {
    if sc != [] { FoundGlobal(sc[1..], x); }
  }

  function Declared(ch: Chain, sym: Symbol): Chain
    requires ch != []
  {
    [[sym] + ch[0]] + ch[1..]
  }

  /** The environment a chain stands for. */
  function ScopeView(sc: Scope): map<string, Symbol> {
    if sc == [] then map[] else ScopeView(sc[1..])[sc[0].name := sc[0]]
  }

  function View(ch: Chain): map<string, Symbol> {
    if ch == [] then map[] else View(ch[1..]) + ScopeView(ch[0])
  }

  lemma {:induction false} FindInIsView(sc: Scope, name: string)
    ensures FindIn(sc, name) == if name in ScopeView(sc) then Some(ScopeView(sc)[name]) else None
  {
    if sc != [] { FindInIsView(sc[1..], name); }
  }

  /** Lookup reads the environment: inner declarations hide outer ones, later ones hide earlier ones. */
  lemma {:induction false} LookupIsView(ch: Chain, name: string)
    ensures Lookup(ch, name) == if name in View(ch) then Some(View(ch)[name]) else None
  {
    if ch != [] {
      FindInIsView(ch[0], name);
      LookupIsView(ch[1..], name);
    }
  }

  lemma DeclaredView(ch: Chain, sym: Symbol)
    requires ch != []
    ensures View(Declared(ch, sym)) == View(ch)[sym.name := sym]
  {
    assert ([sym] + ch[0])[1..] == ch[0];
    assert Declared(ch, sym)[1..] == ch[1..];
  }

  lemma EnteredView(ch: Chain)
    ensures View([[]] + ch) == View(ch)
  {
    assert ([[]] + ch)[1..] == ch;
  }

  // ----- whole runs -----

  datatype Op = Enter | Leave | Declare(name: string, stype: SymbolType, isGlobal: bool)

  /** The state of semantic analysis the scope operations work on. */
  datatype State = State(ch: Chain, locals: nat, globals: nat)

  function Apply(op: Op, s: State): Option<State> {
    match op
    case Enter => Some(s.(ch := [[]] + s.ch))
    case Leave => if s.ch == [] then None else Some(s.(ch := s.ch[1..]))
    case Declare(name, stype, isGlobal) =>
      if s.ch == [] then None
      else if isGlobal then Some(State(Declared(s.ch, Symbol(name, stype, s.globals, true)), s.locals, s.globals + 1))
      else Some(State(Declared(s.ch, Symbol(name, stype, s.locals, false)), s.locals + 1, s.globals))
  }

  function RunOps(ops: seq<Op>, s: State): Option<State> {
    if ops == [] then Some(s)
    else
      match Apply(ops[0], s)
      case None => None
      case Some(s') => RunOps(ops[1..], s')
  }

  /** Scopes entered and left in pairs: starting `depth` scopes deep, the run ends at depth 0 without passing below. */
  predicate Balanced(ops: seq<Op>, depth: nat) {
    if ops == [] then depth == 0
    else
      match ops[0]
      case Enter => Balanced(ops[1..], depth + 1)
      case Leave => depth > 0 && Balanced(ops[1..], depth - 1)
      case Declare(_, _, _) => Balanced(ops[1..], depth)
  }

  /** Scope `a` is scope `b` with newer symbols in front. */
  ghost predicate Extends(a: Scope, b: Scope) { |b| <= |a| && a[|a| - |b|..] == b }

  lemma ExtendsDeclared(a: Scope, sym: Symbol, b: Scope)
    requires Extends(a, [sym] + b)
    ensures Extends(a, b)
  {
    assert a[|a| - |b|..] == a[|a| - |b| - 1..][1..] == ([sym] + b)[1..];
  }

  /** A balanced run changes nothing but its own scope, to which it only adds. */
  lemma {:induction false} BalancedRun(ops: seq<Op>, depth: nat, s: State)
    requires Balanced(ops, depth) && depth < |s.ch|
    ensures RunOps(ops, s).Some?
    ensures
      var ch' := RunOps(ops, s).value.ch;
      ch' != [] && ch'[1..] == s.ch[depth + 1..] && Extends(ch'[0], s.ch[depth])
  {
    hide Extends;
    if ops == [] {
      ExtendsItself(s.ch[0]);
    } else {
      var s' := Apply(ops[0], s).value;
      match ops[0]
      case Enter =>
        BalancedRun(ops[1..], depth + 1, s');
        assert s'.ch[depth + 2..] == s.ch[depth + 1..];
      case Leave =>
        BalancedRun(ops[1..], depth - 1, s');
        assert s'.ch[depth..] == s.ch[depth + 1..];
      case Declare(_, _, _) =>
        BalancedRun(ops[1..], depth, s');
        assert s'.ch[depth + 1..] == s.ch[depth + 1..];
        if depth == 0 { ExtendsDeclared(RunOps(ops, s).value.ch[0], s'.ch[0][0], s.ch[0]); }
    }
  }

  lemma ExtendsItself(a: Scope)
    ensures Extends(a, a)
  {
  }

  /** Leaving a scope restores exactly the chain, hence the environment, from before it was entered. */
  lemma ScopeRestores(ops: seq<Op>, s: State)
    requires Balanced(ops, 0)
    ensures RunOps([Enter] + ops + [Leave], s).Some? && RunOps([Enter] + ops + [Leave], s).value.ch == s.ch
  {
    hide Balanced, Extends, Declared;
    var s1 := s.(ch := [[]] + s.ch);
    BalancedRun(ops, 0, s1);
    assert ([Enter] + ops + [Leave])[1..] == ops + [Leave];
    RunAppend(ops, [Leave], s1);
    assert s1.ch[1..] == s.ch;
  }

  lemma {:induction false} RunAppend(a: seq<Op>, b: seq<Op>, s: State)
    requires RunOps(a, s).Some?
    ensures RunOps(a + b, s) == RunOps(b, RunOps(a, s).value)
  {
    if a == [] {
      assert a + b == b;
    } else {
      assert (a + b)[1..] == a[1..] + b;
      RunAppend(a[1..], b, Apply(a[0], s).value);
    }
  }

  /** The ids the local declarations of a run are given, in order. */
  function LocalIds(ops: seq<Op>, s: State): seq<nat> {
    if ops == [] then []
    else
      match Apply(ops[0], s)
      case None => []
      case Some(s') => (if ops[0].Declare? && !ops[0].isGlobal then [s.locals] else []) + LocalIds(ops[1..], s')
  }

  /** Over any run, whatever the scopes, no two locals share an id. */
  lemma {:induction false} LocalIdsDistinct(ops: seq<Op>, s: State)
    ensures forall i, j :: 0 <= i < j < |LocalIds(ops, s)| ==> LocalIds(ops, s)[i] != LocalIds(ops, s)[j]
    ensures forall i :: 0 <= i < |LocalIds(ops, s)| ==> s.locals <= LocalIds(ops, s)[i]
  {
    if ops != [] && Apply(ops[0], s).Some? {
      LocalIdsDistinct(ops[1..], Apply(ops[0], s).value);
    }
  }
}
