/** The printer writes no parentheses the C grammar could do without. */
module Shortest {
  import opened Ast
  import opened Tokens
  import opened Parsing
  import opened Grammar
  import opened ExprGrammar
  import opened Printer

  /** A derivation of section 6.5.16 of ISO C11 as well: only unary expressions stand left of an assignment. */
  predicate Strict(c: Cst) {
    match c
    case Leaf(_) => true
    case Paren(e) => Strict(e)
    case Idx(b, i) => Strict(b) && Strict(i)
    case App(f, args) => Strict(f) && StrictArgs(args)
    case Mem(b, _, _) => Strict(b)
    case Pst(e, _) => Strict(e)
    case Pre(_, e) => Strict(e)
    case Siz(e) => Strict(e)
    case SizParen(e) => Strict(e)
    case Bin(_, l, r) => Strict(l) && Strict(r)
    case Cnd(x, a, b) => Strict(x) && Strict(a) && Strict(b)
    case Asg(_, l, r) => Level(l) >= 13 && Strict(l) && Strict(r)
    case Com(l, r) => Strict(l) && Strict(r)
  }

  predicate StrictArgs(args: seq<Cst>) { args == [] || (Strict(args[0]) && StrictArgs(args[1..])) }

  /** The number of tokens. */
  function Size(c: Cst): nat {
    match c
    case Leaf(_) => 1
    case Paren(e) => Size(e) + 2
    case Idx(b, i) => Size(b) + Size(i) + 2
    case App(f, args) => Size(f) + 1 + SizeArgs(args)
    case Mem(b, _, _) => Size(b) + 2
    case Pst(e, _) => Size(e) + 1
    case Pre(_, e) => Size(e) + 1
    case Siz(e) => Size(e) + 1
    case SizParen(e) => Size(e) + 3
    case Bin(_, l, r) => Size(l) + Size(r) + 1
    case Cnd(x, a, b) => Size(x) + Size(a) + Size(b) + 2
    case Asg(_, l, r) => Size(l) + Size(r) + 1
    case Com(l, r) => Size(l) + Size(r) + 1
  }

  function SizeArgs(args: seq<Cst>): nat {
    if args == [] then 1
    else if |args| == 1 then Size(args[0]) + 1
    else Size(args[0]) + 1 + SizeArgs(args[1..])
  }

  lemma {:induction false} PutSize(c: Cst, rest: seq<Token>)
    ensures |Put(c, rest)| == Size(c) + |rest|
    decreases c, 0
  {
    match c
    case Leaf(_) =>
    case Paren(e) => PutSize(e, Cons(Sym(RParen), rest));
    case Idx(b, i) =>
      PutSize(i, Cons(Sym(RBracket), rest));
      PutSize(b, Cons(Sym(LBracket), Put(i, Cons(Sym(RBracket), rest))));
    case App(f, args) =>
      PutArgsSize(args, rest);
      PutSize(f, Cons(Sym(LParen), PutArgs(args, rest)));
    case Mem(b, n, arrow) => PutSize(b, Cons(Sym(if arrow then Arrow else Dot), Cons(Name(n), rest)));
    case Pst(e, inc) => PutSize(e, Cons(Sym(if inc then PlusPlus else MinusMinus), rest));
    case Pre(_, e) => PutSize(e, rest);
    case Siz(e) => PutSize(e, rest);
    case SizParen(e) => PutSize(e, Cons(Sym(RParen), rest));
    case Bin(op, l, r) => PutSize(r, rest); PutSize(l, Cons(BinToken(op), Put(r, rest)));
    case Cnd(x, a, b) =>
      PutSize(b, rest);
      PutSize(a, Cons(Sym(Colon), Put(b, rest)));
      PutSize(x, Cons(Sym(Question), Put(a, Cons(Sym(Colon), Put(b, rest)))));
    case Asg(op, l, r) => PutSize(r, rest); PutSize(l, Cons(AssignToken(op), Put(r, rest)));
    case Com(l, r) => PutSize(r, rest); PutSize(l, Cons(Sym(CommaSign), Put(r, rest)));
  }

  lemma {:induction false} PutArgsSize(args: seq<Cst>, rest: seq<Token>)
    ensures |PutArgs(args, rest)| == SizeArgs(args) + |rest|
    decreases args, 1
  {
    hide Put, Size;
    if |args| == 1 {
      PutSize(args[0], Cons(Sym(RParen), rest));
    } else if args != [] {
      PutArgsSize(args[1..], rest);
      PutSize(args[0], Cons(Sym(CommaSign), PutArgs(args[1..], rest)));
    }
  }

  /** What is derived without outer parentheses binds as tightly as what is printed. */
  lemma SameLevel(d: Cst)
    requires WellFormed(d) && !d.Paren? && Printable(Erase(d))
    ensures Level(Print(Erase(d))) == Level(d)
  {
    hide Printable, Fit, LeafToken, First, Spellable;
    if d.Leaf? { LeafIsLeaf(d.tok); }
  }

  lemma LeafIsLeaf(t: Token)
    requires LeafOf(t).Some? && Printable(LeafOf(t).value)
    ensures Print(LeafOf(t).value).Leaf?
  {
  }

  lemma LeafFirst(e: Expr)
    requires Spellable(e)
    ensures LeafToken(e) != Sym(LParen)
  {
  }

  lemma PrefixFirst(op: UnOp)
    ensures PrefixToken(op) != Sym(LParen)
  {
  }

  lemma FitSize(c: Cst, k: nat)
    ensures Size(Fit(c, k)) == Size(c) + if Level(c) >= k then 0 else 2
    ensures First(Fit(c, k)) == if Level(c) >= k then First(c) else Sym(LParen)
  {
  }

  /** Where a derivation does not start with a parenthesis, neither does the printed form. */
  lemma {:induction false} FirstKept(d: Cst, k: nat)
    requires WellFormed(d) && Strict(d) && Level(d) >= k && Printable(Erase(d)) && First(d) != Sym(LParen)
    ensures First(Fit(Print(Erase(d)), k)) != Sym(LParen)
    decreases d, 1
  {
    hide Fit, LeafOf, LeafToken, Spellable, Level, Print, Printable, Strict, WellFormed, Erase;
    NotParen(d);
    SameLevel(d);
    FitSize(Print(Erase(d)), k);
    if d.Leaf? { FirstOfLeaf(d); }
    else if d.Bin? || d.Cnd? || d.Asg? || d.Com? { FirstOfOperator(d); }
    else { FirstOfUnary(d); }
  }

  lemma NotParen(d: Cst)
    ensures First(d) != Sym(LParen) ==> !d.Paren?
  {
  }

  lemma FirstOfLeaf(d: Cst)
    requires d.Leaf? && WellFormed(d) && Printable(Erase(d))
    ensures First(Print(Erase(d))) != Sym(LParen)
  {
    hide LeafOf, LeafToken, Spellable;
    LeafPrinted(d.tok);
  }

  lemma {:induction false} FirstOfOperator(d: Cst)
    requires (d.Bin? || d.Cnd? || d.Asg? || d.Com?) && WellFormed(d) && Strict(d) && Printable(Erase(d))
      && First(d) != Sym(LParen)
    ensures First(Print(Erase(d))) != Sym(LParen)
    decreases d, 0
  {
    hide Fit, LeafOf, LeafToken, Spellable, Production;
    if d.Bin? { FirstKept(d.l, Production(d.bop)); }
    else if d.Cnd? { FirstKept(d.c, 3); }
    else if d.Asg? { FirstKept(d.l, 13); }
    else {
      FirstKept(d.l, 0);
      FitZero(Print(Erase(d.l)));
    }
  }

  lemma {:induction false} FirstOfUnary(d: Cst)
    requires !d.Leaf? && !d.Paren? && !d.Bin? && !d.Cnd? && !d.Asg? && !d.Com?
    requires WellFormed(d) && Strict(d) && Printable(Erase(d)) && First(d) != Sym(LParen)
    ensures First(Print(Erase(d))) != Sym(LParen)
    decreases d, 0
  {
    hide Fit, LeafOf, LeafToken, Spellable;
    if d.Idx? || d.Mem? { FirstKept(d.base, 14); }
    else if d.App? { FirstKept(d.callee, 14); }
    else if d.Pst? { FirstKept(d.e, 14); }
    else if d.Pre? { PrefixFirst(d.uop); }
  }

  lemma FitZero(c: Cst)
    ensures Fit(c, 0) == c
  {
  }

  lemma LeafPrinted(t: Token)
    requires LeafOf(t).Some? && Printable(LeafOf(t).value)
    ensures First(Print(LeafOf(t).value)) != Sym(LParen) && Size(Print(LeafOf(t).value)) == 1
  {
    hide LeafToken, Spellable;
    LeafIsLeaf(t);
    LeafFirst(LeafOf(t).value);
  }

  /** No C derivation of a tree, at any place, has fewer tokens than the printed form fitted to that place. */
  lemma {:induction false} FitShortest(d: Cst, k: nat)
    requires WellFormed(d) && Strict(d) && Level(d) >= k && Printable(Erase(d))
    ensures Size(Fit(Print(Erase(d)), k)) <= Size(d)
    decreases d, 1
  {
    hide Fit, LeafOf, LeafToken, Spellable, Level, First;
    FitSize(Print(Erase(d)), k);
    if d.Paren? {
      FitShortest(d.e, 0);
      FitZero(Print(Erase(d.e)));
    } else {
      SameLevel(d);
      if d.Leaf? { LeafPrinted(d.tok); }
      else if d.Bin? || d.Asg? || d.Com? { OperatorShortest(d); }
      else if d.Cnd? { ConditionalShortest(d); }
      else if d.Siz? || d.SizParen? { SizeofShortest(d); }
      else { PostfixShortest(d); }
    }
  }

  lemma {:induction false} OperatorShortest(d: Cst)
    requires (d.Bin? || d.Asg? || d.Com?) && WellFormed(d) && Strict(d) && Printable(Erase(d))
    ensures Size(Print(Erase(d))) <= Size(d)
    decreases d, 0
  {
    hide Fit, LeafOf, LeafToken, Spellable, First, Production;
    if d.Bin? {
      FitShortest(d.l, Production(d.bop));
      FitShortest(d.r, Production(d.bop) + 1);
    } else if d.Asg? {
      FitShortest(d.l, 13);
      FitShortest(d.r, 1);
    } else {
      FitShortest(d.l, 0);
      FitZero(Print(Erase(d.l)));
      FitShortest(d.r, 1);
    }
  }

  lemma {:induction false} ConditionalShortest(d: Cst)
    requires d.Cnd? && WellFormed(d) && Strict(d) && Printable(Erase(d))
    ensures Size(Print(Erase(d))) <= Size(d)
    decreases d, 0
  {
    hide Fit, LeafOf, LeafToken, Spellable, First, Level;
    FitShortest(d.c, 3);
    FitShortest(d.a, 0);
    FitZero(Print(Erase(d.a)));
    FitShortest(d.b, 2);
  }

  lemma {:induction false} SizeofShortest(d: Cst)
    requires (d.Siz? || d.SizParen?) && WellFormed(d) && Strict(d) && Printable(Erase(d))
    ensures Size(Print(Erase(d))) <= Size(d)
    decreases d, 0
  {
    hide Fit, LeafOf, LeafToken, Spellable, Level, First;
    var c := Print(Erase(d.e));
    if d.Siz? {
      FirstKept(d.e, 13);
      FitSize(c, 13);
      FitShortest(d.e, 13);
    } else {
      FitShortest(d.e, 0);
      FitZero(c);
    }
  }

  lemma {:induction false} PostfixShortest(d: Cst)
    requires (d.Idx? || d.App? || d.Mem? || d.Pst? || d.Pre?) && WellFormed(d) && Strict(d) && Printable(Erase(d))
    ensures Size(Print(Erase(d))) <= Size(d)
    decreases d, 0
  {
    hide Fit, LeafOf, LeafToken, Spellable, First;
    if d.Idx? {
      FitShortest(d.base, 14);
      FitShortest(d.index, 0);
      FitZero(Print(Erase(d.index)));
    }
    else if d.App? { FitShortest(d.callee, 14); ArgsShortest(d.args); }
    else if d.Mem? { FitShortest(d.base, 14); }
    else if d.Pst? { FitShortest(d.e, 14); }
    else { FitShortest(d.e, 13); }
  }

  lemma {:induction false} ArgsShortest(args: seq<Cst>)
    requires WellFormedArgs(args) && StrictArgs(args) && PrintableAll(EraseArgs(args))
    ensures |PrintAll(EraseArgs(args))| == |args| && SizeArgs(PrintAll(EraseArgs(args))) <= SizeArgs(args)
    decreases args, 2
  {
    hide Fit, Size, Print, Erase, WellFormed, Strict, Printable, Level;
    if args != [] {
      var es := EraseArgs(args);
      assert es[1..] == EraseArgs(args[1..]) && es[0] == Erase(args[0]);
      FitShortest(args[0], 1);
      ArgsShortest(args[1..]);
      assert PrintAll(es)[1..] == PrintAll(es[1..]);
    }
  }

  /** The printed form is itself such a derivation. */
  lemma {:induction false} PrintStrict(e: Expr)
    requires Printable(e)
    ensures Strict(Print(e))
    decreases e, 1
  {
    hide Spellable, LeafToken, First, Level, Fit;
    if e.Binary? || e.Assign? || e.Comma? { PrintOperatorStrict(e); }
    else if e.Conditional? { PrintConditionalStrict(e); }
    else if e.Unary? || e.Postfix? || e.SizeOf? {
      PrintStrict(e.operand);
      FitsStrict(Print(e.operand));
    }
    else if e.Index? {
      PrintStrict(e.base);
      PrintStrict(e.index);
      FitsStrict(Print(e.base));
    }
    else if e.Call? {
      PrintStrict(e.callee);
      FitsStrict(Print(e.callee));
      PrintAllStrict(e.args);
    }
    else if e.Member? {
      PrintStrict(e.base);
      FitsStrict(Print(e.base));
    }
  }

  lemma {:induction false} PrintOperatorStrict(e: Expr)
    requires (e.Binary? || e.Assign? || e.Comma?) && Printable(e)
    ensures Strict(Print(e))
    decreases e, 0
  {
    hide Spellable, LeafToken, First, Level, Fit, Production;
    PrintStrict(e.lhs);
    PrintStrict(e.rhs);
    FitsStrict(Print(e.lhs));
    FitsStrict(Print(e.rhs));
    if e.Assign? {
      PrintDerives(e.lhs);
      FitKeeps(Print(e.lhs), 13);
    }
  }

  lemma {:induction false} PrintConditionalStrict(e: Expr)
    requires e.Conditional? && Printable(e)
    ensures Strict(Print(e))
    decreases e, 0
  {
    hide Spellable, LeafToken, First, Level, Fit, Production;
    PrintStrict(e.cond);
    PrintStrict(e.thn);
    PrintStrict(e.els);
    FitsStrict(Print(e.cond));
    FitsStrict(Print(e.els));
  }

  lemma FitsStrict(c: Cst)
    requires Strict(c)
    ensures forall k: nat :: Strict(Fit(c, k))
  {
    forall k: nat ensures Strict(Fit(c, k)) { FitStrict(c, k); }
  }

  lemma {:induction false} PrintAllStrict(es: seq<Expr>)
    requires PrintableAll(es)
    ensures StrictArgs(PrintAll(es))
    decreases es, 2
  {
    hide Print, Printable, Strict, Level;
    if es != [] {
      PrintStrict(es[0]);
      PrintAllStrict(es[1..]);
      FitStrict(Print(es[0]), 1);
      assert PrintAll(es)[1..] == PrintAll(es[1..]);
    }
  }

  lemma FitStrict(c: Cst, k: nat)
    requires Strict(c)
    ensures Strict(Fit(c, k))
  {
  }

  /**
   The printed form is a C derivation of the tree, and every list of fewer tokens, such as the same without
   a pair of parentheses, is none: it derives another tree or nothing.
   */
  lemma FewestParentheses(e: Expr, ts: seq<Token>)
    requires Printable(e)
    ensures Derives(Print(e), 0, Put(Print(e), []), e, []) && Strict(Print(e))
    ensures |ts| < |Put(Print(e), [])| ==> !exists d :: Strict(d) && Derives(d, 0, ts, e, [])
  {
    hide Printable, Print, WellFormed, Strict, Erase, Put, Size;
    PrintDerives(e);
    PrintStrict(e);
    PutSize(Print(e), []);
    forall d | Strict(d) && Derives(d, 0, ts, e, []) ensures |ts| >= |Put(Print(e), [])| {
      PutSize(d, []);
      FitShortest(d, 0);
      FitZero(Print(e));
    }
  }
}
