/** Everything a compiled function promises, in one statement. */
module Compiled {
  import opened Ast
  import opened Typed
  import opened Il
  import opened Codegen
  import opened CMeaning
  import Labels
  import BasicBlocks
  import OperandClasses
  import Assigned
  import Scopes
  import Sema
  import FuncSim
  import Pipeline

  /** What is read at the end of the path was written on it. */
  predicate EndReadsWritten(code: seq<Instr>, path: seq<nat>) {
    path != [] && (forall k :: 0 <= k < |path| ==> path[k] < |code|)
    && Assigned.Uses(code[path[|path| - 1]]) <= Assigned.WrittenOn(code, path)
  }

  /** No path through the code reads a temporary it has not written. */
  ghost predicate ReadsWritten(code: seq<Instr>) {
    forall path :: Assigned.IsPath(code, path) ==> EndReadsWritten(code, path)
  }

  /** The code can be typed: each temporary has one class and every operand fits its place. */
  ghost predicate HasClasses(f: TFunc, code: seq<Instr>) {
    exists g: OperandClasses.Classes :: g.params == FuncSim.ParamTypes(f.params) && OperandClasses.AllClassed(g, code)
  }

  /**
   Well-formed intermediate code: labels distinct, jump targets defined, nothing between a terminator and
   the next label, a terminator at the end, operands of the right classes, no temporary read before it is written.
   */
  ghost predicate WellFormedCode(f: TFunc, code: seq<Instr>) {
    UniqueLabels(code) && Labels.TargetsOf(code) <= Labels.LabelsOf(code)
    && BasicBlocks.Blocks(code) && BasicBlocks.Ends(code)
    && HasClasses(f, code) && ReadsWritten(code)
  }

  lemma PathNotEmpty(code: seq<Instr>, path: seq<nat>)
    requires Assigned.IsPath(code, path)
    ensures path != []
  {
    hide Assigned.Moves;
  }

  /** The code of a supported function is well formed exactly when no code stands after a terminator in it. */
  lemma SupportedCode(f: Func, globals: Scopes.Scope)
    requires Pipeline.Supported(f, globals) && EmitFunc(Sema.ElabFunc(f, globals).value).Some?
    ensures var t := Sema.ElabFunc(f, globals).value;
            WellFormedCode(t, EmitFunc(t).value) <==> BasicBlocks.CleanFunction(t)
  {
    hide EmitFunc, Labels.TargetsOf, Labels.LabelsOf, BasicBlocks.Blocks, BasicBlocks.Ends, BasicBlocks.CleanFunction,
      OperandClasses.AllClassed, Assigned.IsPath, Assigned.Uses, Assigned.WrittenOn, FuncSim.WellFormed, UniqueLabels,
      Pipeline.Plain, WhileJumpsAll, IntTestsStmts;
    var t := Sema.ElabFunc(f, globals).value;
    var code := EmitFunc(t).value;
    Pipeline.ElaboratedWellFormed(f, globals);
    FuncSim.JumpTargets(t);
    BasicBlocks.FunctionBlocks(t);
    var g := OperandClasses.FunctionClassed(t);
    forall path | Assigned.IsPath(code, path) ensures EndReadsWritten(code, path) {
      PathNotEmpty(code, path);
      Assigned.NothingReadUnwritten(t, path);
    }
  }

  /**
   Main result: for every supported function with no code after a terminator, all arguments and all fuel,
   the compiler succeeds, its code is well formed, and it returns what C prescribes, running as long as C does.
   */
  lemma SupportedFunction(f: Func, globals: Scopes.Scope, args: seq<int>, fuel: nat)
    requires Pipeline.Supported(f, globals) && Pipeline.CArgsFit(f, args)
    requires BasicBlocks.CleanFunction(Sema.ElabFunc(f, globals).value)
    ensures
      var t := Sema.ElabFunc(f, globals).value;
      EmitFunc(t).Some? && |t.params| == |args| && WellFormedCode(t, EmitFunc(t).value)
      && match CRun(f, args, fuel)
         case Returned(v, st) => FuncSim.CompiledReturns(t, args, v, st)
         case OutOfFuel => forall k :: 0 <= k <= fuel ==> Run(EmitFunc(t).value, k, FuncSim.CallOf(t, args)).Running?
         case out => out.Undefined?
  {
    hide EmitFunc, WellFormedCode, BasicBlocks.CleanFunction, Pipeline.Supported, Pipeline.CArgsFit, CRun;
    Pipeline.CompilerCorrect(f, globals, args, fuel);
    SupportedCode(f, globals);
  }
}
