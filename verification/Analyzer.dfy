/** Semantic analysis as it runs: a scope chain and two counters, updated in place. */
module Analyzer {
  import opened Options
  import opened Words
  import opened Ast
  import opened Typed
  import opened Scopes
  import opened Sema

  class Analyzer {
    var ch: Chain
    var locals: nat
    var globals: nat

    constructor ()
      ensures ch == [] && locals == 0 && globals == 0
    {
      ch, locals, globals := [], 0, 0;
    }

    function Current(): State
      reads this
    {
      State(ch, locals, globals)
    }

    method EnterScope()
      modifies this`ch
      ensures Apply(Enter, old(Current())) == Some(Current())
    {
      ch := [[]] + ch;
    }

    method LeaveScope()
      requires ch != []
      modifies this`ch
      ensures Apply(Leave, old(Current())) == Some(Current())
    {
      ch := ch[1..];
    }

    method Declare(name: string, stype: SymbolType, isGlobal: bool) returns (id: nat)
      requires ch != []
      modifies this
      ensures Apply(Op.Declare(name, stype, isGlobal), old(Current())) == Some(Current())
      ensures id == if isGlobal then old(globals) else old(locals)
    {
      if isGlobal {
        id := globals;
        globals := globals + 1;
      } else {
        id := locals;
        locals := locals + 1;
      }
      ch := Declared(ch, Symbol(name, stype, id, isGlobal));
    }

    /** Walks the chain outwards, each scope from its newest symbol. */
    method LookUp(name: string) returns (r: Option<Symbol>)
      ensures r == Lookup(ch, name)
      ensures r == if name in View(ch) then Some(View(ch)[name]) else None
    {
      LookupIsView(ch, name);
      var i := 0;
      assert ch[0..] == ch;
      while i < |ch|
        invariant 0 <= i <= |ch| && Lookup(ch, name) == Lookup(ch[i..], name)
      {
        assert ch[i..][0] == ch[i] && ch[i..][1..] == ch[i + 1..];
        var j := 0;
        assert ch[i][0..] == ch[i];
        while j < |ch[i]|
          invariant 0 <= j <= |ch[i]| && FindIn(ch[i], name) == FindIn(ch[i][j..], name)
        {
          if ch[i][j].name == name { return Some(ch[i][j]); }
          assert ch[i][j..][1..] == ch[i][j + 1..];
          j := j + 1;
        }
        i := i + 1;
      }
      r := None;
    }

    method Expression(e: Expr) returns (r: Result<TExpr>)
      ensures r == ElabExpr(e, ch)
      decreases e
    {
      match e
      case IntLit(v, ct) => r := if Core(ct).Some? then Ok(TLit(v, Core(ct).value)) else Err(Unsupported);
      case CharLit(c) => r := Ok(TLit(c, Int));
      case Ident(name) =>
        var sym := LookUp(name);
        match sym {
          case None => r := Err(Undeclared(name));
          case Some(s) =>
            if s.isGlobal || s.stype.Function? || Core(s.stype.ctype).None? { r := Err(Unsupported); }
            else { r := Ok(TVar(s.id, Core(s.stype.ctype).value)); }
        }
      case Binary(bop, x, y) =>
        var a :- Expression(x);
        var b :- Expression(y);
        r := Ok(ElabBinary(bop, a, b));
      case Assign(aop, x, y) =>
        var a :- Expression(x);
        var b :- Expression(y);
        r := if a.TVar? then Ok(TAssign(aop, a.id, a.ty, MakeCast(b, a.ty))) else Err(Unsupported);
      case Conditional(c, x, y) =>
        var t :- Expression(c);
        var a :- Expression(x);
        var b :- Expression(y);
        var common := Common(TypeOf(a), TypeOf(b));
        r := Ok(TCond(t, MakeCast(a, common), MakeCast(b, common), common));
      case Comma(x, y) =>
        var a :- Expression(x);
        var b :- Expression(y);
        r := Ok(TComma(a, b));
      case Postfix(inc, x) =>
        var a :- Expression(x);
        r := if a.TVar? then Ok(TPostfix(inc, a.id, a.ty)) else Err(Unsupported);
      case _ => r := Err(Unsupported);
    }

    method Optional(e: Option<Expr>) returns (r: Result<Option<TExpr>>)
      ensures r == ElabOpt(e, ch)
    {
      match e
      case None => r := Ok(None);
      case Some(x) =>
        var a :- Expression(x);
        r := Ok(Some(a));
    }

    /** The state after elaborating as the specification says. */
    ghost predicate After<T>(d: Done<T>)
      reads this`ch, this`locals
    {
      ch == d.ch && locals == d.n
    }

    method Statement(s: Stmt, rt: Ty) returns (r: Result<TStmt>)
      requires ch != []
      modifies this
      ensures
        var d := ElabStmt(s, old(ch), old(locals), rt);
        match d
        case Err(e) => r == Err(e)
        case Ok(done) => r == Ok(done.node) && After(done)
      decreases s
    {
      hide ElabExpr, MakeCast, Declared;
      match s
      case ExprStmt(e) =>
        var x :- Optional(e);
        r := Ok(TEval(x));
      case Block(ss) =>
        EnterScope();
        var ts :- Statements(ss, rt);
        LeaveScope();
        r := Ok(TBlock(ts));
      case If(c, t, els) =>
        var x :- Expression(c);
        var a :- Statement(t, rt);
        match els {
          case None => r := Ok(TIf(x, a, None));
          case Some(e) =>
            var b :- Statement(e, rt);
            r := Ok(TIf(x, a, Some(b)));
        }
      case While(c, body) =>
        var x :- Expression(c);
        var a :- Statement(body, rt);
        r := Ok(TWhile(x, a));
      case Do(body, c) =>
        var x :- Expression(c);
        var a :- Statement(body, rt);
        r := Ok(TDo(a, x));
      case For(i, c, p, body) =>
        EnterScope();
        var x :- Optional(i);
        var y :- Optional(c);
        var z :- Optional(p);
        var a :- Statement(body, rt);
        LeaveScope();
        r := Ok(TFor(x, y, z, a));
      case Return(e) =>
        if e.None? { return Err(Unsupported); }
        var x :- Expression(e.value);
        r := Ok(TReturn(MakeCast(x, rt)));
      case Break => r := Ok(TBreak);
      case Continue => r := Ok(TContinue);
      case VarDecl(name, ct, initial) =>
        r := Variable(name, ct, initial, rt);
      case _ => r := Err(Unsupported);
    }

    /** A declaration is in scope in its own initialiser. */
    method Variable(name: string, ct: CType, initial: Option<Expr>, rt: Ty) returns (r: Result<TStmt>)
      requires ch != []
      modifies this
      ensures
        var d := ElabStmt(VarDecl(name, ct, initial), old(ch), old(locals), rt);
        match d
        case Err(e) => r == Err(e)
        case Ok(done) => r == Ok(done.node) && After(done)
      decreases VarDecl(name, ct, initial), 0
    {
      hide ElabExpr, MakeCast, Declared;
      if Core(ct).None? { return Err(Unsupported); }
      var ty := Core(ct).value;
      var id := Declare(name, Object(ct), false);
      var x :- Optional(initial);
      r := Ok(TDecl(id, ty, if x.Some? then Some(MakeCast(x.value, ty)) else None));
    }

    method Statements(ss: seq<Stmt>, rt: Ty) returns (r: Result<seq<TStmt>>)
      requires ch != []
      modifies this
      ensures
        var d := ElabStmts(ss, old(ch), old(locals), rt);
        match d
        case Err(e) => r == Err(e)
        case Ok(done) => r == Ok(done.node) && After(done)
      decreases ss
    {
      hide ElabStmt;
      var ts: seq<TStmt> := [];
      var i := 0;
      ghost var all := ElabStmts(ss, ch, locals, rt);
      assert ss[0..] == ss;
      while i < |ss|
        invariant 0 <= i <= |ss| && ch != []
        invariant
          match ElabStmts(ss[i..], ch, locals, rt)
          case Err(e) => all == Err(e)
          case Ok(rest) =>
            all.Ok? && all.value.ch == rest.ch && all.value.n == rest.n && all.value.node == ts + rest.node
      {
        assert ss[i..][0] == ss[i] && ss[i..][1..] == ss[i + 1..];
        var t := Statement(ss[i], rt);
        if t.Err? { return Err(t.error); }
        ts := ts + [t.value];
        i := i + 1;
      }
      assert ss[i..] == [] && ts + [] == ts;
      r := Ok(ts);
    }

    method Params(ps: seq<Param>) returns (r: Result<seq<TParam>>)
      requires ch != []
      modifies this
      ensures
        var d := ElabParams(ps, old(ch), old(locals));
        match d
        case Err(e) => r == Err(e)
        case Ok(done) => r == Ok(done.node) && After(done)
    {
      var ts: seq<TParam> := [];
      var i := 0;
      ghost var all := ElabParams(ps, ch, locals);
      assert ps[0..] == ps;
      while i < |ps|
        invariant 0 <= i <= |ps| && ch != []
        invariant
          match ElabParams(ps[i..], ch, locals)
          case Err(e) => all == Err(e)
          case Ok(rest) =>
            all.Ok? && all.value.ch == rest.ch && all.value.n == rest.n && all.value.node == ts + rest.node
      {
        assert ps[i..][0] == ps[i] && ps[i..][1..] == ps[i + 1..];
        if Core(ps[i].ptype).None? { return Err(Unsupported); }
        var id := Declare(ps[i].name, Object(ps[i].ptype), false);
        ts := ts + [TParam(id, Core(ps[i].ptype).value)];
        i := i + 1;
      }
      assert ps[i..] == [] && ts + [] == ts;
      r := Ok(ts);
    }

    /** One function definition, the global scope being the only one open. */
    method Function(f: Func) returns (r: Result<TFunc>)
      requires |ch| == 1
      modifies this
      ensures r == ElabFunc(f, old(ch)[0])
      ensures r.Ok? ==> ch == old(ch)
    {
      var outer := ch;
      assert outer == [outer[0]];
      if Core(f.result).None? { return Err(Unsupported); }
      var rt := Core(f.result).value;
      EnterScope();
      locals := 0;
      var ps :- Params(f.params);
      EnterScope();
      var body :- Statements(f.body, rt);
      LeaveScope();
      LeaveScope();
      r := Ok(TFunc(rt, ps, body));
    }

    /** Both passes over a file: all functions are declared, then each is analysed. */
    method Program(fs: seq<Func>) returns (r: Result<seq<TFunc>>)
      requires ch == [] && globals == 0
      modifies this
      ensures r == ElabUnit(fs) && (r.Ok? ==> ch == [])
    {
      hide ElabFunc;
      EnterScope();
      assert fs[0..] == fs;
      for i := 0 to |fs|
        invariant |ch| == 1 && globals == i && Globals(fs[i..], ch[0], i) == FileScope(fs)
      {
        assert fs[i..][0] == fs[i] && fs[i..][1..] == fs[i + 1..];
        var id := Declare(fs[i].name, SymbolType.Function, true);
      }
      assert fs[|fs|..] == [];
      var ts: seq<TFunc> := [];
      ghost var file := ch;
      for i := 0 to |fs|
        invariant ch == file && file == [FileScope(fs)] && |ts| == i
        invariant
          match ElabAll(fs[i..], FileScope(fs))
          case Err(e) => ElabUnit(fs) == Err(e)
          case Ok(rest) => ElabUnit(fs).Ok? && ElabUnit(fs).value == ts + rest
      {
        assert fs[i..][0] == fs[i] && fs[i..][1..] == fs[i + 1..];
        var t :- this.Function(fs[i]);
        ts := ts + [t];
      }
      LeaveScope();
      assert ts + [] == ts;
      r := Ok(ts);
    }
  }
}
