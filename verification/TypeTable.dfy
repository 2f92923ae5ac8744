/** Declaration specifiers against sections 6.7.1 to 6.7.4 of ISO C11 (parser.c:106-167). */
module TypeTable {
  import opened Options
  import opened Ast
  import opened Tokens
  import Words
  import Il

  // ----- the keywords -----

  datatype KeywordClass = Storage | Specifier | Qualifier | FunctionSpecifier | Alignment | NoSpecifier

  /** The keyword lists of sections 6.7.1 to 6.7.5; `_Atomic` is a specifier and a qualifier. */
  function ClassOf(k: Keyword): KeywordClass {
    match k
    case KwTypedef => Storage
    case KwExtern => Storage
    case KwStatic => Storage
    case KwThreadLocal => Storage
    case KwAuto => Storage
    case KwRegister => Storage
    case KwVoid => Specifier
    case KwChar => Specifier
    case KwShort => Specifier
    case KwInt => Specifier
    case KwLong => Specifier
    case KwFloat => Specifier
    case KwDouble => Specifier
    case KwSigned => Specifier
    case KwUnsigned => Specifier
    case KwBool => Specifier
    case KwComplex => Specifier
    case KwAtomic => Specifier
    case KwStruct => Specifier
    case KwUnion => Specifier
    case KwEnum => Specifier
    case KwConst => Qualifier
    case KwRestrict => Qualifier
    case KwVolatile => Qualifier
    case KwInline => FunctionSpecifier
    case KwNoreturn => FunctionSpecifier
    case KwAlignas => Alignment
    case _ => NoSpecifier
  }

  /** The specifiers of C11 the parser does not know. */
  const MISSING: set<Keyword> := {KwThreadLocal, KwComplex, KwAtomic, KwNoreturn, KwAlignas}

  /** Those it does not take for the start of a declaration inside a function. */
  const NOT_INSIDE: set<Keyword> := {KwTypedef, KwExtern, KwRestrict, KwInline, KwStruct, KwUnion, KwEnum}

  /** The parser reads as specifiers the keywords C11 does, but for those missing. */
  lemma SpecifierKeywords(k: Keyword)
    ensures TypeKeyword(Kw(k)) <==> ClassOf(k) != NoSpecifier && k !in MISSING
  {
  }

  /** Inside a function a declaration starts with one of them, but for those that cannot. */
  lemma StartingKeywords(k: Keyword)
    ensures StartsDecl(Kw(k)) <==> TypeKeyword(Kw(k)) && k !in NOT_INSIDE
  {
  }

  // ----- the types -----

  /** The keywords that decide a type. */
  const DECIDING: set<Keyword> := {KwVoid, KwBool, KwFloat, KwDouble, KwChar, KwShort, KwLong, KwUnsigned}

  /** The keywords among `specs` that section 6.7.2 lists for arithmetic types and `void`. */
  function TypeWords(specs: seq<Keyword>): multiset<Keyword> {
    if specs == [] then multiset{}
    else (if specs[0] in DECIDING + {KwInt, KwSigned} then multiset{specs[0]} else multiset{}) + TypeWords(specs[1..])
  }

  /** The table of section 6.7.2, paragraph 2: each line is the list of sets naming one type. */
  function StandardType(m: multiset<Keyword>): Option<CType> {
    if m in {multiset{KwVoid}} then Some(CVoid)
    else if m in {multiset{KwChar}, multiset{KwSigned, KwChar}} then Some(CChar(false))
    else if m in {multiset{KwUnsigned, KwChar}} then Some(CChar(true))
    else if m in {multiset{KwShort}, multiset{KwSigned, KwShort}, multiset{KwShort, KwInt},
                  multiset{KwSigned, KwShort, KwInt}} then Some(CShort(false))
    else if m in {multiset{KwUnsigned, KwShort}, multiset{KwUnsigned, KwShort, KwInt}} then Some(CShort(true))
    else if m in {multiset{KwInt}, multiset{KwSigned}, multiset{KwSigned, KwInt}} then Some(CInt(false))
    else if m in {multiset{KwUnsigned}, multiset{KwUnsigned, KwInt}} then Some(CInt(true))
    else if m in {multiset{KwLong}, multiset{KwSigned, KwLong}, multiset{KwLong, KwInt},
                  multiset{KwSigned, KwLong, KwInt}} then Some(CLong(false))
    else if m in {multiset{KwUnsigned, KwLong}, multiset{KwUnsigned, KwLong, KwInt}} then Some(CLong(true))
    else if m in {multiset{KwLong, KwLong}, multiset{KwSigned, KwLong, KwLong}, multiset{KwLong, KwLong, KwInt},
                  multiset{KwSigned, KwLong, KwLong, KwInt}} then Some(CLong(false))
    else if m in {multiset{KwUnsigned, KwLong, KwLong}, multiset{KwUnsigned, KwLong, KwLong, KwInt}} then
      Some(CLong(true))
    else if m in {multiset{KwFloat}} then Some(CFloat)
    else if m in {multiset{KwDouble}, multiset{KwLong, KwDouble}} then Some(CDouble)
    else if m in {multiset{KwBool}} then Some(CBool)
    else None
  }

  lemma {:induction false} WordsOccur(specs: seq<Keyword>, k: Keyword)
    requires k in DECIDING
    ensures k in TypeWords(specs) <==> k in specs
  {
    if specs != [] { WordsOccur(specs[1..], k); }
  }

  /** Every list of specifiers that names a type of the table is given that type, whatever else is in it. */
  lemma TableOfTypes(specs: seq<Keyword>)
    ensures StandardType(TypeWords(specs)).Some? ==> SpecifiedType(specs) == StandardType(TypeWords(specs)).value
  {
    var m := TypeWords(specs);
    forall k | k in DECIDING ensures k in m <==> k in specs { WordsOccur(specs, k); }
    TypeByWords(m, specs);
  }

  lemma TypeByWords(m: multiset<Keyword>, specs: seq<Keyword>)
    requires forall k :: k in DECIDING ==> (k in m <==> k in specs)
    ensures StandardType(m).Some? ==> SpecifiedType(specs) == StandardType(m).value
  {
    assert forall k :: k in DECIDING ==> (k in specs <==> k in m);
  }

  /** The type of any list at all, by which words occur in it. */
  lemma TypeByOccurrence(specs: seq<Keyword>)
    ensures
      var t := SpecifiedType(specs);
      (t == CVoid <==> KwVoid in specs)
      && (t == CBool <==> KwBool in specs && KwVoid !in specs)
      && (t == CFloat <==> KwFloat in specs && KwVoid !in specs && KwBool !in specs)
      && (t == CDouble <==> KwDouble in specs && forall k :: k in {KwVoid, KwBool, KwFloat} ==> k !in specs)
      && (t.CChar? <==> KwChar in specs && forall k :: k in {KwVoid, KwBool, KwFloat, KwDouble} ==> k !in specs)
      && (t.CShort? <==>
            KwShort in specs && forall k :: k in {KwVoid, KwBool, KwFloat, KwDouble, KwChar} ==> k !in specs)
      && (t.CLong? <==>
            KwLong in specs && forall k :: k in {KwVoid, KwBool, KwFloat, KwDouble, KwChar, KwShort} ==> k !in specs)
      && (t.CInt? <==> forall k :: k in DECIDING - {KwUnsigned} ==> k !in specs)
    ensures var t := SpecifiedType(specs);
            (t == CChar(true) || t == CShort(true) || t == CInt(true) || t == CLong(true)) <==>
              KwUnsigned in specs && forall k :: k in {KwVoid, KwBool, KwFloat, KwDouble} ==> k !in specs
  {
  }

  /** Two lists with the same deciding words name the same type. */
  lemma SameWords(s: seq<Keyword>, t: seq<Keyword>)
    requires forall k :: k in DECIDING ==> (k in s <==> k in t)
    ensures SpecifiedType(s) == SpecifiedType(t)
  {
    assert KwVoid in DECIDING;
  }

  /** `int`, `signed`, qualifiers and storage classes change no type, wherever they stand. */
  lemma InsertedWord(a: seq<Keyword>, k: Keyword, b: seq<Keyword>)
    requires k !in DECIDING
    ensures SpecifiedType(a + [k] + b) == SpecifiedType(a + b)
  {
    SameWords(a + [k] + b, a + b);
  }

  /** The order of the words changes no type. */
  lemma Reordered(s: seq<Keyword>, t: seq<Keyword>)
    requires multiset(s) == multiset(t)
    ensures SpecifiedType(s) == SpecifiedType(t)
  {
    forall k ensures k in s <==> k in t {
      assert k in s <==> k in multiset(s);
      assert k in t <==> k in multiset(t);
    }
    SameWords(s, t);
  }

  // ----- sizes -----

  /** The bytes of an object of each type. */
  function ByteSize(ct: CType): nat {
    match ct
    case CVoid => 0
    case CBool => 1
    case CChar(_) => 1
    case CShort(_) => 2
    case CInt(_) => 4
    case CLong(_) => 8
    case CFloat => 4
    case CDouble => 8
  }

  /** The supported types are the signed ones of 32 and 64 bits, and their slots and registers have that size. */
  lemma SupportedTypes(ct: CType)
    ensures Core(ct).Some? <==> ct in {CInt(false), CLong(false)}
    ensures Core(ct).Some? ==> Il.Size(Core(ct).value) == ByteSize(ct)
    ensures Core(ct).Some? ==> Words.Width(Core(ct).value) == 8 * ByteSize(ct)
  {
  }
}
