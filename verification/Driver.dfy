/** The whole compiler: a text goes through every stage to code that means what C says. */
module Driver {
  import opened Options
  import opened Ast
  import opened Typed
  import opened Il
  import opened Codegen
  import opened CMeaning
  import opened FuncSim
  import opened Pipeline
  import opened Sema
  import Scopes
  import Lexing
  import Parsing
  import Source
  import FileGrammar
  import Tokens
  import LexerRun
  import ParserRun
  import Analyzer
  import Emitter
  import BasicBlocks
  import Compiled
  import Acceptance

  /** What is printed of a function: its name, its signature and its code. */
  datatype Definition = Definition(name: string, func: TFunc, code: seq<Instr>)

  /** The code of the functions of a file, in order; `None` when the compiler exits. */
  function EmitAll(fs: seq<Func>, ts: seq<TFunc>): (r: Option<seq<Definition>>)
    requires |fs| == |ts|
    ensures r.Some? ==> |r.value| == |fs|
  {
    if fs == [] then Some([])
    else
      match (EmitFunc(ts[0]), EmitAll(fs[1..], ts[1..]))
      case (Some(code), Some(more)) => Some([Definition(fs[0].name, ts[0], code)] + more)
      case _ => None
  }

  /** The functions a text holds. */
  function Functions(text: string): Option<seq<Func>> {
    match Parsing.ParseUnit([], Lexing.LexAll(text).tokens)
    case Ok(fs, _) => Some(fs)
    case Stop(_) => None
  }

  /** The compiler: lexer, parser, analysis and code generation; `None` when one of them exits. */
  function Compile(text: string): Option<seq<Definition>> {
    match Functions(text)
    case None => None
    case Some(fs) =>
      match ElabUnit(fs)
      case Err(_) => None
      case Ok(ts) => EmitAll(fs, ts)
  }

  /** The stages as they run, one after the other. */
  method CompileText(text: string) returns (r: Option<seq<Definition>>)
    ensures r == Compile(text)
  {
    hide Lexing.LexAll, Parsing.ParseUnit, ElabUnit, EmitFunc;
    var lexer := new LexerRun.Lexer(text);
    var tokens, _ := lexer.Tokens();
    var parser := new ParserRun.Parser(tokens);
    var unit := parser.TranslationUnit();
    if unit.Exit? { return None; }
    var analyzer := new Analyzer.Analyzer();
    var ts := analyzer.Program(unit.value);
    if ts.Err? { return None; }
    r := EmitFile(unit.value, ts.value);
  }

  method EmitFile(fs: seq<Func>, ts: seq<TFunc>) returns (r: Option<seq<Definition>>)
    requires |fs| == |ts|
    ensures r == EmitAll(fs, ts)
  {
    hide EmitFunc;
    var defs: seq<Definition> := [];
    assert fs[0..] == fs && ts[0..] == ts;
    for i := 0 to |fs|
      invariant
        match EmitAll(fs[i..], ts[i..])
        case None => EmitAll(fs, ts).None?
        case Some(more) => EmitAll(fs, ts).Some? && EmitAll(fs, ts).value == defs + more
    {
      assert fs[i..][0] == fs[i] && fs[i..][1..] == fs[i + 1..] && ts[i..][0] == ts[i] && ts[i..][1..] == ts[i + 1..];
      var emitter := new Emitter.Emitter(ts[i].result);
      var ok := emitter.Func(ts[i]);
      if !ok { return None; }
      assert [] + EmitFunc(ts[i]).value == EmitFunc(ts[i]).value;
      defs := defs + [Definition(fs[i].name, ts[i], emitter.out)];
    }
    assert fs[|fs|..] == [] && defs + [] == defs;
    r := Some(defs);
  }

  // ----- what is accepted -----

  /** The grammar derives the functions from the tokens of the text, up to their end. */
  ghost predicate Holds(text: string, fs: seq<Func>) {
    exists ds, rest :: Parsing.Cur(rest) == Tokens.Eof
      && FileGrammar.DerivesFile(ds, Lexing.LexAll(text).tokens, fs, rest)
  }

  /** A text holds exactly the functions the grammar derives from it; a text from which it derives none is refused. */
  lemma TextLanguage(text: string, fs: seq<Func>)
    ensures Functions(text) == Some(fs) <==> Holds(text, fs)
  {
    hide Lexing.LexAll, Parsing.ParseUnit, FileGrammar.DerivesFile;
    var ts := Lexing.LexAll(text).tokens;
    var r := Parsing.ParseUnit([], ts);
    if Functions(text) == Some(fs) { FileGrammar.FileLanguage(ts, fs, r.rest); }
    if ds, rest :| Parsing.Cur(rest) == Tokens.Eof && FileGrammar.DerivesFile(ds, ts, fs, rest) {
      FileGrammar.FileLanguage(ts, fs, rest);
    }
  }

  ghost predicate AllAcceptable(fs: seq<Func>) { forall f :: f in fs ==> Acceptance.Acceptable(f) }

  lemma {:induction false} AllAccepted(fs: seq<Func>, globals: Scopes.Scope)
    requires Scopes.GlobalScope(globals)
    ensures (ElabAll(fs, globals).Ok? && EmitAll(fs, ElabAll(fs, globals).value).Some?) <==> AllAcceptable(fs)
    decreases |fs|
  {
    hide ElabFunc, EmitFunc, Acceptance.Acceptable;
    if fs != [] {
      Acceptance.FunctionAccepted(fs[0], globals);
      AllAccepted(fs[1..], globals);
      assert fs == [fs[0]] + fs[1..];
      if ElabAll(fs, globals).Ok? {
        var ts := ElabAll(fs, globals).value;
        assert ts[1..] == ElabAll(fs[1..], globals).value;
      }
    }
  }

  /**
   Main result: a text is compiled exactly when the grammar derives functions from it, each of forms that are
   handled, its names declared before they are used and its jumps inside loops.
   */
  lemma CompilerAccepts(text: string)
    ensures Compile(text).Some? <==> exists fs :: Holds(text, fs) && AllAcceptable(fs)
  {
    hide Functions, Holds, ElabAll, EmitAll, AllAcceptable;
    forall fs { TextLanguage(text, fs); }
    if Functions(text).Some? {
      var fs := Functions(text).value;
      GlobalsGlobal(fs, [], 0);
      AllAccepted(fs, FileScope(fs));
    }
  }

  // ----- correctness -----

  lemma {:induction false} GlobalsGlobal(fs: seq<Func>, sc: Scopes.Scope, i: nat)
    requires Scopes.GlobalScope(sc)
    ensures Scopes.GlobalScope(Globals(fs, sc, i))
    decreases |fs|
  {
    if fs != [] {
      GlobalsGlobal(fs[1..], [Scopes.Symbol(fs[0].name, Scopes.SymbolType.Function, i, true)] + sc, i + 1);
    }
  }

  lemma {:induction false} ElabAllAt(fs: seq<Func>, globals: Scopes.Scope, i: nat)
    requires ElabAll(fs, globals).Ok? && i < |fs|
    ensures ElabFunc(fs[i], globals) == Ok(ElabAll(fs, globals).value[i])
    decreases |fs|
  {
    hide ElabFunc;
    if i > 0 { ElabAllAt(fs[1..], globals, i - 1); }
  }

  lemma {:induction false} EmitAllAt(fs: seq<Func>, ts: seq<TFunc>, i: nat)
    requires |fs| == |ts| && EmitAll(fs, ts).Some? && i < |fs|
    ensures EmitAll(fs, ts).value[i].name == fs[i].name && EmitAll(fs, ts).value[i].func == ts[i]
    ensures EmitFunc(ts[i]) == Some(EmitAll(fs, ts).value[i].code)
    decreases |fs|
  {
    hide EmitFunc;
    if i > 0 { EmitAllAt(fs[1..], ts[1..], i - 1); }
  }

  /** What C prescribes for a call of `f`, the code of `d` does. */
  ghost predicate DoesAsC(f: Func, d: Definition, args: seq<int>, fuel: nat) {
    d.name == f.name && EmitFunc(d.func) == Some(d.code) && |d.func.params| == |args|
    && match CRun(f, args, fuel)
       case Returned(v, st) => CompiledReturns(d.func, args, v, st)
       case OutOfFuel => forall k :: 0 <= k <= fuel ==> Run(d.code, k, CallOf(d.func, args)).Running?
       case out => out.Undefined?
  }

  /** The code is well formed exactly when none of it stands after a jump or return. */
  ghost predicate WellFormedIfClean(d: Definition) {
    Compiled.WellFormedCode(d.func, d.code) <==> BasicBlocks.CleanFunction(d.func)
  }

  lemma FunctionDoesAsC(f: Func, globals: Scopes.Scope, d: Definition, args: seq<int>, fuel: nat)
    requires Supported(f, globals) && CArgsFit(f, args)
    requires ElabFunc(f, globals) == Ok(d.func) && EmitFunc(d.func) == Some(d.code) && d.name == f.name
    ensures DoesAsC(f, d, args, fuel) && WellFormedIfClean(d)
  {
    hide Plain, EmitFunc, ElabFunc, CRun, CompiledReturns, Compiled.WellFormedCode, BasicBlocks.CleanFunction;
    CompilerCorrect(f, globals, args, fuel);
    Compiled.SupportedCode(f, globals);
  }

  /**
   Main result, from bytes to results: of every text the compiler compiles, the code of each supported
   function does what C prescribes for every call, and is well formed if it is clean.
   */
  lemma TextCompilesRight(text: string, fs: seq<Func>, defs: seq<Definition>, i: nat, args: seq<int>, fuel: nat)
    requires Functions(text) == Some(fs) && Compile(text) == Some(defs) && i < |fs|
    requires InFragment(fs[i], FileScope(fs)) && CArgsFit(fs[i], args)
    ensures |defs| == |fs| && DoesAsC(fs[i], defs[i], args, fuel) && WellFormedIfClean(defs[i])
  {
    hide Functions, EmitFunc, ElabFunc, InFragment, CArgsFit, DoesAsC, WellFormedIfClean;
    var ts := ElabUnit(fs).value;
    ElabAllAt(fs, FileScope(fs), i);
    EmitAllAt(fs, ts, i);
    GlobalsGlobal(fs, [], 0);
    FunctionDoesAsC(fs[i], FileScope(fs), defs[i], args, fuel);
  }

  lemma SupportedEmits(f: Func, globals: Scopes.Scope)
    requires Supported(f, globals)
    ensures ElabFunc(f, globals).Ok? && EmitFunc(ElabFunc(f, globals).value).Some?
  {
    hide ElabFunc, Plain, EmitStmts;
    var t := ElabFunc(f, globals).value;
    EmitsStmts(t.body, 0, [], NoLoop, t.result);
  }

  lemma {:induction false} AllCompile(fs: seq<Func>, globals: Scopes.Scope)
    requires forall f :: f in fs ==> Supported(f, globals)
    ensures ElabAll(fs, globals).Ok? && EmitAll(fs, ElabAll(fs, globals).value).Some?
    decreases |fs|
  {
    hide ElabFunc, EmitFunc, Supported;
    if fs != [] {
      SupportedEmits(fs[0], globals);
      AllCompile(fs[1..], globals);
      var ts := ElabAll(fs, globals).value;
      assert ts[1..] == ElabAll(fs[1..], globals).value;
    }
  }

  /** Every text of supported functions is compiled. */
  lemma SupportedTextCompiles(text: string, fs: seq<Func>)
    requires Functions(text) == Some(fs) && forall f :: f in fs ==> InFragment(f, FileScope(fs))
    ensures Compile(text).Some?
  {
    hide Functions, EmitFunc, ElabFunc, InFragment;
    GlobalsGlobal(fs, [], 0);
    AllCompile(fs, FileScope(fs));
  }

  /** A file of supported functions, printed, is compiled; nothing in it may dangle, or it would be read differently. */
  lemma PrintedTextCompiles(fs: seq<Func>)
    requires Source.PrintableUnit(fs) && Source.NamedUnit(fs) && Source.UnitNoDangling(fs)
    requires forall f :: f in fs ==> InFragment(f, FileScope(fs))
    ensures Functions(Source.Text(fs)) == Some(fs) && Compile(Source.Text(fs)).Some?
  {
    hide Lexing.LexAll, Parsing.ParseUnit, Compile, InFragment, Source.Text, Source.PrintableUnit, Source.NamedUnit,
      Source.UnitNoDangling;
    Source.TextReadsBack(fs);
    SupportedTextCompiles(Source.Text(fs), fs);
  }
}
