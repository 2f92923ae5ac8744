/** Token kinds of Lexer.c. */
module Tokens {
  import opened Options
  import opened Words
  import opened Ast

  datatype Keyword =
    | KwAuto | KwBreak | KwCase | KwChar | KwConst | KwContinue | KwDefault | KwDo | KwDouble
    | KwElse | KwEnum | KwExtern | KwFloat | KwFor | KwGoto | KwIf | KwInline | KwInt | KwLong
    | KwRegister | KwRestrict | KwReturn | KwShort | KwSigned | KwSizeof | KwStatic | KwStruct
    | KwSwitch | KwTypedef | KwUnion | KwUnsigned | KwVoid | KwVolatile | KwWhile
    | KwAlignas | KwAlignof | KwAtomic | KwBool | KwComplex | KwGeneric | KwImaginary
    | KwNoreturn | KwStaticAssert | KwThreadLocal

  datatype Punct =
    | LBracket | RBracket | LParen | RParen | LBrace | RBrace | Dot | Arrow
    | PlusPlus | MinusMinus | Amp | Star | PlusSign | MinusSign | Tilde | Bang
    | Slash | Percent | ShlOp | ShrOp | Less | Greater | LessEq | GreaterEq
    | EqEq | NotEq | Caret | Pipe | AndAnd | OrOr | Question | Colon | Semi | Ellipsis
    | EqSign | StarEq | SlashEq | PercentEq | PlusEq | MinusEq | ShlEq | ShrEq
    | AndEq | XorEq | OrEq | CommaSign | Hash | HashHash

  /** The parser looks at the spelling of names and literals only. */
  datatype Token =
    | Eof
    | OtherTok
    | Name(text: string)
    | IntTok(text: string)
    | FloatTok(text: string)
    | CharTok(text: string)
    | StrTok(text: string)
    | Kw(kw: Keyword)
    | Sym(p: Punct)

  /** The binary operator a token stands for. */
  function BinOf(t: Token): Option<BinOp> {
    match t
    case Sym(OrOr) => Some(LogOr)
    case Sym(AndAnd) => Some(LogAnd)
    case Sym(Pipe) => Some(Arithmetic(Bit(Or)))
    case Sym(Caret) => Some(Arithmetic(Bit(Xor)))
    case Sym(Amp) => Some(Arithmetic(Bit(And)))
    case Sym(EqEq) => Some(Comparison(Eq))
    case Sym(NotEq) => Some(Comparison(Ne))
    case Sym(Less) => Some(Comparison(Lt))
    case Sym(Greater) => Some(Comparison(Gt))
    case Sym(LessEq) => Some(Comparison(Le))
    case Sym(GreaterEq) => Some(Comparison(Ge))
    case Sym(ShlOp) => Some(Arithmetic(Shl))
    case Sym(ShrOp) => Some(Arithmetic(Shr))
    case Sym(PlusSign) => Some(Arithmetic(Add))
    case Sym(MinusSign) => Some(Arithmetic(Sub))
    case Sym(Star) => Some(Arithmetic(Mul))
    case Sym(Slash) => Some(Arithmetic(Div))
    case Sym(Percent) => Some(Arithmetic(Rem))
    case _ => None
  }

  /** `parse_precedence`: 0 for tokens that are no binary operator. */
  function Precedence(t: Token): nat {
    match t
    case Sym(OrOr) => 1
    case Sym(AndAnd) => 2
    case Sym(Pipe) => 3
    case Sym(Caret) => 4
    case Sym(Amp) => 5
    case Sym(EqEq) => 6
    case Sym(NotEq) => 6
    case Sym(Less) => 7
    case Sym(Greater) => 7
    case Sym(LessEq) => 7
    case Sym(GreaterEq) => 7
    case Sym(ShlOp) => 8
    case Sym(ShrOp) => 8
    case Sym(PlusSign) => 9
    case Sym(MinusSign) => 9
    case Sym(Star) => 10
    case Sym(Slash) => 10
    case Sym(Percent) => 10
    case _ => 0
  }

  function BinToken(op: BinOp): Token {
    match op
    case LogOr => Sym(OrOr)
    case LogAnd => Sym(AndAnd)
    case Arithmetic(Bit(Or)) => Sym(Pipe)
    case Arithmetic(Bit(Xor)) => Sym(Caret)
    case Arithmetic(Bit(And)) => Sym(Amp)
    case Comparison(Eq) => Sym(EqEq)
    case Comparison(Ne) => Sym(NotEq)
    case Comparison(Lt) => Sym(Less)
    case Comparison(Gt) => Sym(Greater)
    case Comparison(Le) => Sym(LessEq)
    case Comparison(Ge) => Sym(GreaterEq)
    case Arithmetic(Shl) => Sym(ShlOp)
    case Arithmetic(Shr) => Sym(ShrOp)
    case Arithmetic(Add) => Sym(PlusSign)
    case Arithmetic(Sub) => Sym(MinusSign)
    case Arithmetic(Mul) => Sym(Star)
    case Arithmetic(Div) => Sym(Slash)
    case Arithmetic(Rem) => Sym(Percent)
  }

  /** `=` is `Some(None)`, `+=` is `Some(Some(Add))` and so on. */
  function AssignOf(t: Token): Option<Option<ArithOp>> {
    match t
    case Sym(EqSign) => Some(None)
    case Sym(PlusEq) => Some(Some(Add))
    case Sym(MinusEq) => Some(Some(Sub))
    case Sym(StarEq) => Some(Some(Mul))
    case Sym(SlashEq) => Some(Some(Div))
    case Sym(PercentEq) => Some(Some(Rem))
    case Sym(ShlEq) => Some(Some(Shl))
    case Sym(ShrEq) => Some(Some(Shr))
    case Sym(AndEq) => Some(Some(Bit(And)))
    case Sym(XorEq) => Some(Some(Bit(Xor)))
    case Sym(OrEq) => Some(Some(Bit(Or)))
    case _ => None
  }

  function AssignToken(op: Option<ArithOp>): Token {
    match op
    case None => Sym(EqSign)
    case Some(Add) => Sym(PlusEq)
    case Some(Sub) => Sym(MinusEq)
    case Some(Mul) => Sym(StarEq)
    case Some(Div) => Sym(SlashEq)
    case Some(Rem) => Sym(PercentEq)
    case Some(Shl) => Sym(ShlEq)
    case Some(Shr) => Sym(ShrEq)
    case Some(Bit(And)) => Sym(AndEq)
    case Some(Bit(Xor)) => Sym(XorEq)
    case Some(Bit(Or)) => Sym(OrEq)
  }

  function PrefixOf(t: Token): Option<UnOp> {
    match t
    case Sym(PlusSign) => Some(Plus)
    case Sym(MinusSign) => Some(Minus)
    case Sym(Bang) => Some(Not)
    case Sym(Tilde) => Some(Complement)
    case Sym(Amp) => Some(AddressOf)
    case Sym(Star) => Some(Deref)
    case Sym(PlusPlus) => Some(PreInc)
    case Sym(MinusMinus) => Some(PreDec)
    case _ => None
  }

  function PrefixToken(op: UnOp): Token {
    match op
    case Plus => Sym(PlusSign)
    case Minus => Sym(MinusSign)
    case Not => Sym(Bang)
    case Complement => Sym(Tilde)
    case AddressOf => Sym(Amp)
    case Deref => Sym(Star)
    case PreInc => Sym(PlusPlus)
    case PreDec => Sym(MinusMinus)
  }

  /** Keywords a declaration's specifiers may contain. */
  predicate TypeKeyword(t: Token) {
    t.Kw?
    && t.kw in {KwVoid, KwChar, KwShort, KwInt, KwLong, KwFloat, KwDouble, KwSigned, KwUnsigned, KwBool,
                KwConst, KwVolatile, KwRestrict, KwStruct, KwUnion, KwEnum, KwTypedef, KwStatic, KwExtern,
                KwAuto, KwRegister, KwInline}
  }

  /** Keywords a declaration inside a function may start with. */
  predicate StartsDecl(t: Token) {
    t.Kw?
    && t.kw in {KwInt, KwChar, KwShort, KwLong, KwFloat, KwDouble, KwSigned, KwUnsigned, KwVoid, KwBool,
                KwConst, KwVolatile, KwRegister, KwStatic, KwAuto}
  }

  /** The type a list of specifiers names, whatever their order. */
  function SpecifiedType(specs: seq<Keyword>): CType {
    var u := KwUnsigned in specs;
    if specs == [] then CInt(false)
    else if KwVoid in specs then CVoid
    else if KwBool in specs then CBool
    else if KwFloat in specs then CFloat
    else if KwDouble in specs then CDouble
    else if KwChar in specs then CChar(u)
    else if KwShort in specs then CShort(u)
    else if KwLong in specs then CLong(u)
    else CInt(u)
  }

  lemma OperatorTokens(op: BinOp)
    ensures BinOf(BinToken(op)) == Some(op) && 1 <= Precedence(BinToken(op)) <= 10
    ensures PrefixOf(BinToken(op)).None? || BinToken(op) in {Sym(PlusSign), Sym(MinusSign), Sym(Amp), Sym(Star)}
  {
  }

  lemma BinaryTokens(t: Token)
    ensures Precedence(t) == 0 <==> BinOf(t).None?
    ensures BinOf(t).Some? ==> BinToken(BinOf(t).value) == t
  {
  }

  lemma AssignTokens(t: Token, op: Option<ArithOp>)
    ensures AssignOf(t).Some? ==> AssignToken(AssignOf(t).value) == t
    ensures AssignOf(AssignToken(op)) == Some(op)
    ensures AssignOf(t).Some? ==> Precedence(t) == 0
  {
  }

  lemma PrefixTokens(t: Token, op: UnOp)
    ensures PrefixOf(t).Some? ==> PrefixToken(PrefixOf(t).value) == t
    ensures PrefixOf(PrefixToken(op)) == Some(op)
  {
  }

  lemma TypeIsKeyword(t: Token)
    ensures TypeKeyword(t) ==> t.Kw?
    ensures StartsDecl(t) ==> TypeKeyword(t)
  {
  }
}
