/** The grammar of function definitions and files (section 6.9 of ISO C11), and that the parser accepts exactly it. */
module FileGrammar {
  import opened Options
  import opened Ast
  import opened Tokens
  import opened Parsing
  import opened Grammar
  import opened ExprGrammar
  import opened StmtGrammar

  /** A named parameter. */
  datatype ParamForm = ParamForm(specs: seq<Keyword>, name: string)

  /** `()`, `(void)` or a list. */
  datatype ParamList = NoParams | OnlyVoid | Listed(ps: seq<ParamForm>)

  datatype FuncForm = FuncForm(specs: seq<Keyword>, name: string, params: ParamList, items: seq<Sst>)

  predicate Specs(specs: seq<Keyword>) { forall k :: k in specs ==> TypeKeyword(Kw(k)) }

  predicate GoodParams(ps: seq<ParamForm>) { forall p :: p in ps ==> Specs(p.specs) }

  predicate GoodList(l: ParamList) { l.Listed? ==> l.ps != [] && GoodParams(l.ps) }

  predicate GoodFunc(d: FuncForm) { Specs(d.specs) && GoodList(d.params) && WellFormedItems(d.items) }

  predicate GoodFile(ds: seq<FuncForm>) { forall d :: d in ds ==> GoodFunc(d) }

  // ----- the tokens -----

  function PutNamed(specs: seq<Keyword>, name: string, rest: seq<Token>): seq<Token> {
    PutSpecs(specs, Cons(Name(name), rest))
  }

  function PutListed(ps: seq<ParamForm>, rest: seq<Token>): seq<Token>
    decreases |ps|, 1
  {
    if ps == [] then rest else PutNamed(ps[0].specs, ps[0].name, AfterParam(ps, rest))
  }

  /** What stands behind the first parameter. */
  function AfterParam(ps: seq<ParamForm>, rest: seq<Token>): seq<Token>
    requires ps != []
    decreases |ps|, 0
  {
    if |ps| == 1 then Cons(Sym(RParen), rest) else Cons(Sym(CommaSign), PutListed(ps[1..], rest))
  }

  function PutList(l: ParamList, rest: seq<Token>): seq<Token> {
    match l
    case NoParams => Cons(Sym(RParen), rest)
    case OnlyVoid => Cons(Kw(KwVoid), Cons(Sym(RParen), rest))
    case Listed(ps) => PutListed(ps, rest)
  }

  function PutFunc(d: FuncForm, rest: seq<Token>): seq<Token> {
    PutNamed(d.specs, d.name, Cons(Sym(LParen), PutList(d.params, Cons(Sym(LBrace), PutItems(d.items, rest)))))
  }

  function PutFile(ds: seq<FuncForm>, rest: seq<Token>): seq<Token> {
    if ds == [] then rest else PutFunc(ds[0], PutFile(ds[1..], rest))
  }

  // ----- the trees -----

  function EraseParams(ps: seq<ParamForm>): seq<Param> {
    if ps == [] then [] else [Param(ps[0].name, SpecifiedType(ps[0].specs))] + EraseParams(ps[1..])
  }

  function EraseList(l: ParamList): seq<Param> { if l.Listed? then EraseParams(l.ps) else [] }

  function EraseFunc(d: FuncForm): Func
    requires GoodFunc(d)
  {
    Func(d.name, SpecifiedType(d.specs), EraseList(d.params), EraseItems(d.items))
  }

  function EraseFile(ds: seq<FuncForm>): seq<Func>
    requires GoodFile(ds)
  {
    if ds == [] then [] else [EraseFunc(ds[0])] + EraseFile(ds[1..])
  }

  // ----- complete -----

  lemma NamedComplete(specs: seq<Keyword>, name: string, rest: seq<Token>)
    requires Specs(specs)
    ensures Specifiers(PutNamed(specs, name, rest)) == (specs, Cons(Name(name), rest))
  {
    hide TypeKeyword, PutSpecs, Specifiers;
    NotType(name);
    SpecifiersComplete(specs, Cons(Name(name), rest));
  }

  lemma NotType(name: string)
    ensures !TypeKeyword(Name(name))
  {
  }

  lemma {:induction false} ListedComplete(acc: seq<Param>, ps: seq<ParamForm>, rest: seq<Token>)
    requires ps != [] && GoodParams(ps)
    ensures ParamLoop(acc, PutListed(ps, rest)) == Ok(acc + EraseParams(ps), rest)
    decreases |ps|
  {
    hide PutNamed, Specifiers, SpecifiedType, Specs;
    var p := Param(ps[0].name, SpecifiedType(ps[0].specs));
    var more := AfterParam(ps, rest);
    NamedComplete(ps[0].specs, ps[0].name, more);
    if |ps| == 1 {
      assert EraseParams(ps[1..]) == [] && EraseParams(ps) == [p];
    } else {
      ListedComplete(acc + [p], ps[1..], rest);
      assert (acc + [p]) + EraseParams(ps[1..]) == acc + EraseParams(ps);
    }
  }

  /** A parameter does not look like the end of the list. */
  lemma ListedStarts(ps: seq<ParamForm>, rest: seq<Token>)
    requires ps != [] && GoodParams(ps)
    ensures var ts := PutListed(ps, rest);
            Cur(ts) != Sym(RParen) && (Cur(ts) == Kw(KwVoid) ==> Cur(Rest(ts)) != Sym(RParen))
  {
    var more := AfterParam(ps, rest);
    NamedStarts(ps[0].specs, ps[0].name, more);
  }

  lemma NamedStarts(specs: seq<Keyword>, name: string, more: seq<Token>)
    ensures var ts := PutNamed(specs, name, more);
            if specs == [] then Cur(ts) == Name(name)
            else Cur(ts) == Kw(specs[0]) && Cur(Rest(ts)) == if |specs| == 1 then Name(name) else Kw(specs[1])
  {
    var more' := Cons(Name(name), more);
    if specs != [] {
      assert PutSpecs(specs, more') == Cons(Kw(specs[0]), PutSpecs(specs[1..], more'));
      if |specs| == 1 {
        assert specs[1..] == [];
      } else {
        assert PutSpecs(specs[1..], more') == Cons(Kw(specs[1]), PutSpecs(specs[1..][1..], more'));
      }
    }
  }

  lemma ListComplete(l: ParamList, rest: seq<Token>)
    requires GoodList(l)
    ensures ParseParams(PutList(l, rest)) == Ok(EraseList(l), rest)
  {
    hide ParamLoop, PutListed, EraseParams, GoodParams;
    if l.Listed? {
      ListedStarts(l.ps, rest);
      ListedComplete([], l.ps, rest);
      assert [] + EraseParams(l.ps) == EraseParams(l.ps);
    }
  }

  /** Every definition of the grammar is parsed to its function. */
  lemma FunctionComplete(d: FuncForm, rest: seq<Token>)
    requires GoodFunc(d)
    ensures ParseFunction(PutFunc(d, rest)) == Ok(EraseFunc(d), rest)
  {
    hide PutNamed, Specifiers, SpecifiedType, Specs, PutList, ParseParams, EraseList, GoodList, ParseItems, PutItems;
    hide WellFormedItems, EraseItems;
    var body := Cons(Sym(LBrace), PutItems(d.items, rest));
    NamedComplete(d.specs, d.name, Cons(Sym(LParen), PutList(d.params, body)));
    ListComplete(d.params, body);
    ItemsComplete([], d.items, rest);
    assert [] + EraseItems(d.items) == EraseItems(d.items);
  }

  // ----- sound -----

  lemma NamedSound(ts: seq<Token>)
    requires Cur(Specifiers(ts).1).Name?
    ensures var (specs, more) := Specifiers(ts);
            Specs(specs) && PutNamed(specs, Cur(more).text, Rest(more)) == ts
  {
    hide PutSpecs, Specifiers, TypeKeyword;
    SpecifiersSound(ts);
    ConsCur(Specifiers(ts).1);
  }

  /** One parameter in front of what follows it. */
  lemma OneParam(d: ParamForm, others: seq<ParamForm>, rest: seq<Token>)
    requires Specs(d.specs) && GoodParams(others)
    ensures GoodParams([d] + others)
    ensures EraseParams([d] + others) == [Param(d.name, SpecifiedType(d.specs))] + EraseParams(others)
    ensures PutListed([d] + others, rest)
         == PutNamed(d.specs, d.name,
              if others == [] then Cons(Sym(RParen), rest) else Cons(Sym(CommaSign), PutListed(others, rest)))
  {
    hide PutNamed, Specs, SpecifiedType;
    var ps := [d] + others;
    assert ps[0] == d && ps[1..] == others;
  }

  lemma {:induction false} ListedSound(acc: seq<Param>, ts: seq<Token>) returns (ps: seq<ParamForm>)
    requires ParamLoop(acc, ts).Ok?
    ensures ps != [] && GoodParams(ps)
    ensures PutListed(ps, ParamLoop(acc, ts).rest) == ts && acc + EraseParams(ps) == ParamLoop(acc, ts).value
    decreases |ts|
  {
    hide PutNamed, Specifiers, SpecifiedType, Specs, PutListed, EraseParams, GoodParams, Cons, Cur;
    NamedSound(ts);
    var (specs, more) := Specifiers(ts);
    var p := Param(Cur(more).text, SpecifiedType(specs));
    var d := ParamForm(specs, Cur(more).text);
    ConsCur(Rest(more));
    NoParam();
    if Cur(Rest(more)) == Sym(CommaSign) {
      var others := ListedSound(acc + [p], Rest(Rest(more)));
      ps := [d] + others;
      OneParam(d, others, ParamLoop(acc, ts).rest);
      assert (acc + [p]) + EraseParams(others) == acc + ([p] + EraseParams(others));
    } else {
      ps := [d] + [];
      OneParam(d, [], ParamLoop(acc, ts).rest);
      assert [p] + [] == [p];
    }
  }

  lemma NoParam()
    ensures GoodParams([]) && EraseParams([]) == []
  {
  }

  lemma ListSound(ts: seq<Token>) returns (l: ParamList)
    requires ParseParams(ts).Ok?
    ensures GoodList(l) && PutList(l, ParseParams(ts).rest) == ts && EraseList(l) == ParseParams(ts).value
  {
    hide ParamLoop, PutListed, EraseParams, GoodParams;
    ConsCur(ts);
    if Cur(ts) == Sym(RParen) {
      l := NoParams;
    } else if Cur(ts) == Kw(KwVoid) && Cur(Rest(ts)) == Sym(RParen) {
      ConsCur(Rest(ts));
      l := OnlyVoid;
    } else {
      var ps := ListedSound([], ts);
      l := Listed(ps);
      assert [] + EraseParams(ps) == EraseParams(ps);
    }
  }

  /** Whatever definition the parser accepts is one of the grammar. */
  lemma FunctionSound(ts: seq<Token>) returns (d: FuncForm)
    requires ParseFunction(ts).Ok?
    ensures GoodFunc(d) && PutFunc(d, ParseFunction(ts).rest) == ts && EraseFunc(d) == ParseFunction(ts).value
  {
    hide PutNamed, Specifiers, SpecifiedType, Specs, PutList, ParseParams, EraseList, GoodList, ParseItems, PutItems;
    hide WellFormedItems, EraseItems;
    var (specs, more) := Specifiers(ts);
    NamedSound(ts);
    ConsCur(Rest(more));
    var l := ListSound(Rest(Rest(more)));
    var body := ParseParams(Rest(Rest(more))).rest;
    ConsCur(body);
    var items := ItemsSound([], Rest(body));
    assert [] + EraseItems(items) == EraseItems(items);
    d := FuncForm(specs, Cur(more).text, l, items);
  }

  // ----- the language -----

  ghost predicate DerivesFunc(d: FuncForm, ts: seq<Token>, f: Func, rest: seq<Token>) {
    GoodFunc(d) && PutFunc(d, rest) == ts && EraseFunc(d) == f
  }

  /** A definition is accepted exactly when the grammar derives it, with the function it derives. */
  lemma FunctionLanguage(ts: seq<Token>, f: Func, rest: seq<Token>)
    ensures ParseFunction(ts) == Ok(f, rest) <==> exists d :: DerivesFunc(d, ts, f, rest)
  {
    hide ParseFunction, GoodFunc, PutFunc, EraseFunc;
    if ParseFunction(ts) == Ok(f, rest) {
      var d := FunctionSound(ts);
      assert DerivesFunc(d, ts, f, rest);
    }
    if d :| DerivesFunc(d, ts, f, rest) { FunctionComplete(d, rest); }
  }

  lemma FunctionStarts(d: FuncForm, rest: seq<Token>)
    ensures Cur(PutFunc(d, rest)) != Eof
  {
    hide PutNamed, PutList, PutItems;
    NamedStarts(d.specs, d.name, Cons(Sym(LParen), PutList(d.params, Cons(Sym(LBrace), PutItems(d.items, rest)))));
  }

  lemma {:induction false} FileComplete(acc: seq<Func>, ds: seq<FuncForm>, rest: seq<Token>)
    requires GoodFile(ds) && Cur(rest) == Eof
    ensures ParseUnit(acc, PutFile(ds, rest)) == Ok(acc + EraseFile(ds), rest)
    decreases |ds|
  {
    hide ParseFunction, GoodFunc, PutFunc, EraseFunc;
    if ds == [] {
      assert acc + [] == acc;
    } else {
      var more := PutFile(ds[1..], rest);
      FunctionComplete(ds[0], more);
      FunctionStarts(ds[0], more);
      FileComplete(acc + [EraseFunc(ds[0])], ds[1..], rest);
      assert (acc + [EraseFunc(ds[0])]) + EraseFile(ds[1..]) == acc + EraseFile(ds);
    }
  }

  lemma {:induction false} FileSound(acc: seq<Func>, ts: seq<Token>) returns (ds: seq<FuncForm>)
    requires ParseUnit(acc, ts).Ok?
    ensures GoodFile(ds) && PutFile(ds, ParseUnit(acc, ts).rest) == ts && Cur(ParseUnit(acc, ts).rest) == Eof
    ensures acc + EraseFile(ds) == ParseUnit(acc, ts).value
    decreases |ts|
  {
    hide ParseFunction, GoodFunc, PutFunc, EraseFunc;
    if Cur(ts) == Eof {
      ds := [];
      assert acc + [] == acc;
    } else {
      var d := FunctionSound(ts);
      var r := ParseFunction(ts);
      var more := FileSound(acc + [r.value], r.rest);
      ds := [d] + more;
      assert ds[0] == d && ds[1..] == more;
      assert (acc + [r.value]) + EraseFile(more) == acc + EraseFile(ds);
    }
  }

  ghost predicate DerivesFile(ds: seq<FuncForm>, ts: seq<Token>, fs: seq<Func>, rest: seq<Token>) {
    GoodFile(ds) && PutFile(ds, rest) == ts && EraseFile(ds) == fs
  }

  /** A file is accepted exactly when the grammar derives it, with the functions it derives; all else is refused. */
  lemma FileLanguage(ts: seq<Token>, fs: seq<Func>, rest: seq<Token>)
    ensures ParseUnit([], ts) == Ok(fs, rest) <==> Cur(rest) == Eof && exists ds :: DerivesFile(ds, ts, fs, rest)
  {
    hide ParseUnit, GoodFile, PutFile, EraseFile;
    if ParseUnit([], ts) == Ok(fs, rest) {
      var ds := FileSound([], ts);
      assert [] + EraseFile(ds) == EraseFile(ds);
      assert DerivesFile(ds, ts, fs, rest);
    }
    if Cur(rest) == Eof {
      if ds :| DerivesFile(ds, ts, fs, rest) {
        FileComplete([], ds, rest);
        assert [] + EraseFile(ds) == EraseFile(ds);
      }
    }
  }
}
