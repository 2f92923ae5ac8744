/**
 The part of the QBE intermediate language the emitter uses: a flat list of
 instructions, run one at a time. Class `w` is written `Int`, class `l` is `Long`.
 */
module Il {
  import opened Options
  import opened Words

  /** `%tN` expression results, `%pN` parameters, `%vN` addresses of locals. */
  datatype Name = T(n: nat) | P(n: nat) | V(n: nat)

  datatype LabelKind =
    | Start
    | ScRhs | ScEnd
    | CondThen | CondElse | CondEnd
    | IfThen | IfElse | IfEnd
    | WhileCond | WhileBody | WhileEnd
    | DoBody | DoCond | DoEnd
    | ForCond | ForBody | ForPost | ForEnd

  datatype Lbl = Lbl(kind: LabelKind, id: nat)

  datatype Instr =
    | Mark(l: Lbl)
    | Const(d: Name, cls: Ty, c: int)
    | Copy(d: Name, cls: Ty, s: Name)
    | Extsw(d: Name, s: Name)
    | Bin(d: Name, cls: Ty, op: ArithOp, a: Name, b: Name)
    | Cmp(d: Name, cmp: CmpOp, cls: Ty, a: Name, b: Name)
    | Cnew0(d: Name, a: Name)
    | Load(d: Name, cls: Ty, a: Name)
    | Store(cls: Ty, s: Name, a: Name)
    | Alloc(id: nat, size: nat)
    | Jnz(a: Name, thn: Lbl, els: Lbl)
    | Jmp(l: Lbl)
    | Ret(cls: Ty, s: Name)
    | RetConst(cls: Ty, c: int)

  datatype Val = Num(cls: Ty, b: nat) | Address(slot: nat)

  datatype Slot = Slot(size: nat, content: Option<Val>)

  type Regs = map<Name, Val>
  type Memory = map<nat, Slot>

  /** `Stuck`: an operand of the wrong class, an unwritten name, a trap, no such label. */
  datatype Config =
    | Running(pc: nat, regs: Regs, mem: Memory)
    | Halted(v: Val, mem: Memory)
    | Stuck

  function Size(ty: Ty): nat { if ty == Int then 4 else 8 }

  /** The value `v` of type `ty` as a machine word. */
  function Enc(ty: Ty, v: int): Val { Num(ty, Bits(ty, v)) }

  /** An `l` name may stand where `w` is wanted and gives its low half, never the reverse. */
  function Read(cls: Ty, regs: Regs, x: Name): Option<nat> {
    if x !in regs || regs[x].Address? then None
    else if regs[x].cls == cls then Some(regs[x].b)
    else if cls == Int then Some(regs[x].b % M32)
    else None
  }

  /** QBE arithmetic on bit patterns; `y` of a shift counts modulo the width. */
  function Machine(op: ArithOp, cls: Ty, x: nat, y: nat): Option<nat> {
    match op
    case Add => Some(Bits(cls, x + y))
    case Sub => Some(Bits(cls, x - y))
    case Mul => Some(Bits(cls, x * y))
    case Div =>
      var a, b := Signed(cls, x), Signed(cls, y);
      if b == 0 || !InRange(cls, TruncDiv(a, b)) then None else Some(Bits(cls, TruncDiv(a, b)))
    case Rem =>
      var a, b := Signed(cls, x), Signed(cls, y);
      if b == 0 || !InRange(cls, TruncDiv(a, b)) then None else Some(Bits(cls, TruncRem(a, b)))
    case Shl => Some(Bits(cls, x * Pow2(y % Width(cls))))
    case Shr => Some(Halve(x, y % Width(cls)))
    case Bit(kind) => Some(Bitwise(kind, Width(cls), x, y))
  }

  /** The class of the second operand: shifts take a `w` count. */
  function SecondClass(op: ArithOp, cls: Ty): Ty { if op.Shl? || op.Shr? then Int else cls }

  /** The first place where label `l` is defined, from `i` on. */
  function FindFrom(code: seq<Instr>, l: Lbl, i: nat): Option<nat>
    decreases |code| - i
  {
    if i >= |code| then None
    else if code[i] == Mark(l) then Some(i)
    else FindFrom(code, l, i + 1)
  }

  function Goto(code: seq<Instr>, l: Lbl, regs: Regs, mem: Memory): Config {
    match FindFrom(code, l, 0)
    case None => Stuck
    case Some(i) => Running(i, regs, mem)
  }

  function Define(c: Config, d: Name, v: Val): Config
    requires c.Running?
  {
    Running(c.pc + 1, c.regs[d := v], c.mem)
  }

  function Step(code: seq<Instr>, c: Config): Config {
    if !c.Running? then c
    else if c.pc >= |code| then Stuck
    else
      match code[c.pc]
      case Mark(_) => c.(pc := c.pc + 1)
      case Const(d, cls, k) => Define(c, d, Enc(cls, k))
      case Copy(d, cls, s) =>
        if s in c.regs && c.regs[s].Address? && cls == Long then Define(c, d, c.regs[s])
        else
          (match Read(cls, c.regs, s)
           case None => Stuck
           case Some(x) => Define(c, d, Num(cls, x)))
      case Extsw(d, s) =>
        (match Read(Int, c.regs, s)
         case None => Stuck
         case Some(x) => Define(c, d, Enc(Long, Signed(Int, x))))
      case Bin(d, cls, op, a, b) =>
        (match (Read(cls, c.regs, a), Read(SecondClass(op, cls), c.regs, b))
         case (Some(x), Some(y)) =>
           (match Machine(op, cls, x, y)
            case None => Stuck
            case Some(z) => Define(c, d, Num(cls, z)))
         case _ => Stuck)
      case Cmp(d, cmp, cls, a, b) =>
        (match (Read(cls, c.regs, a), Read(cls, c.regs, b))
         case (Some(x), Some(y)) =>
           Define(c, d, Enc(Int, Truth(Compare(cmp, Signed(cls, x), Signed(cls, y)))))
         case _ => Stuck)
      case Cnew0(d, a) =>
        (match Read(Int, c.regs, a)
         case None => Stuck
         case Some(x) => Define(c, d, Enc(Int, Truth(x != 0))))
      case Load(d, cls, a) =>
        if a in c.regs && c.regs[a].Address? && c.regs[a].slot in c.mem
           && c.mem[c.regs[a].slot].content.Some? && c.mem[c.regs[a].slot].content.value.Num?
           && c.mem[c.regs[a].slot].content.value.cls == cls
        then Define(c, d, c.mem[c.regs[a].slot].content.value)
        else Stuck
      case Store(cls, s, a) =>
        if a in c.regs && c.regs[a].Address? && c.regs[a].slot in c.mem
           && Size(cls) <= c.mem[c.regs[a].slot].size && Read(cls, c.regs, s).Some?
        then
          var slot := c.regs[a].slot;
          Running(c.pc + 1, c.regs,
            c.mem[slot := c.mem[slot].(content := Some(Num(cls, Read(cls, c.regs, s).value)))])
        else Stuck
      case Alloc(id, size) =>
        Running(c.pc + 1, c.regs[V(id) := Address(id)], c.mem[id := Slot(size, None)])
      case Jnz(a, t, e) =>
        (match Read(Int, c.regs, a)
         case None => Stuck
         case Some(x) => Goto(code, if x != 0 then t else e, c.regs, c.mem))
      case Jmp(l) => Goto(code, l, c.regs, c.mem)
      case Ret(cls, s) =>
        (match Read(cls, c.regs, s)
         case None => Stuck
         case Some(x) => Halted(Num(cls, x), c.mem))
      case RetConst(cls, k) => Halted(Enc(cls, k), c.mem)
  }

  /** The configuration after `k` steps. */
  function Run(code: seq<Instr>, k: nat, c: Config): Config {
    if k == 0 then c else Run(code, k - 1, Step(code, c))
  }

  lemma {:induction false} RunAdd(code: seq<Instr>, j: nat, k: nat, c: Config)
    ensures Run(code, j + k, c) == Run(code, k, Run(code, j, c))
  {
    if j > 0 {
      RunAdd(code, j - 1, k, Step(code, c));
    }
  }

  lemma {:induction false} RunStays(code: seq<Instr>, k: nat, c: Config)
    requires !c.Running?
    ensures Run(code, k, c) == c
  {
    if k > 0 { RunStays(code, k - 1, c); }
  }

  /** A run that still goes on after `k` steps was going on before. */
  lemma RunningBefore(code: seq<Instr>, j: nat, k: nat, c: Config)
    requires j <= k && Run(code, k, c).Running?
    ensures Run(code, j, c).Running?
  {
    RunAdd(code, j, k - j, c);
    if !Run(code, j, c).Running? { RunStays(code, k - j, Run(code, j, c)); }
  }

  /** Each label is defined at most once. */
  ghost predicate UniqueLabels(code: seq<Instr>) {
    forall i, j :: 0 <= i < j < |code| && code[i].Mark? && code[j].Mark? ==> code[i].l != code[j].l
  }

  lemma {:induction false} FindUnique(code: seq<Instr>, l: Lbl, i: nat, k: nat)
    requires UniqueLabels(code) && i <= k < |code| && code[k] == Mark(l)
    ensures FindFrom(code, l, i) == Some(k)
    decreases k - i
  {
    if i < k { FindUnique(code, l, i + 1, k); }
  }

  /** `frag` stands in `code` at `b`. */
  ghost predicate At(code: seq<Instr>, b: nat, frag: seq<Instr>) {
    b + |frag| <= |code| && forall i :: 0 <= i < |frag| ==> code[b + i] == frag[i]
  }

  lemma AtAppend(code: seq<Instr>, b: nat, x: seq<Instr>, y: seq<Instr>)
    requires At(code, b, x + y)
    ensures At(code, b, x) && At(code, b + |x|, y)
  {
    forall i | 0 <= i < |x| ensures code[b + i] == x[i] {
      assert (x + y)[i] == x[i];
    }
    forall i | 0 <= i < |y| ensures code[b + |x| + i] == y[i] {
      assert (x + y)[|x| + i] == y[i];
    }
  }
}
