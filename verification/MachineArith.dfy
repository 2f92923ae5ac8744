/** The machine's arithmetic on bit patterns computes the C values. */
module MachineArith {
  import opened Options
  import opened Words
  import opened Typed
  import opened Il

  lemma {:induction false} Pow2Add(a: nat, b: nat)
    ensures Pow2(a + b) == Pow2(a) * Pow2(b)
  {
    if a > 0 {
      Pow2Add(a - 1, b);
      assert 2 * Pow2(a - 1) * Pow2(b) == 2 * (Pow2(a - 1) * Pow2(b));
    }
  }

  lemma Pow2Double(a: nat, p: int)
    requires Pow2(a) == p
    ensures Pow2(2 * a) == p * p
  {
    Pow2Add(a, a);
  }

  lemma Pow2Width(ty: Ty)
    ensures Pow2(Width(ty)) == Modulus(ty)
  {
    assert Pow2(2) == 4;
    Pow2Double(2, 4);
    Pow2Double(4, 0x10);
    Pow2Double(8, 0x100);
    Pow2Double(16, 0x1_0000);
    Pow2Double(32, 0x1_0000_0000);
  }

  lemma {:induction false} BitwiseBound(kind: BitKind, w: nat, x: nat, y: nat)
    ensures Bitwise(kind, w, x, y) < Pow2(w)
  {
    if w > 0 { BitwiseBound(kind, w - 1, x / 2, y / 2); }
  }

  lemma BitsSmall(ty: Ty, b: nat)
    requires b < Modulus(ty)
    ensures Bits(ty, b) == b
  {
  }

  /** The bit pattern the machine reads for the second operand. */
  function SecondBits(op: ArithOp, tb: Ty, b: int): nat {
    if IsShift(op) && tb == Long then Bits(Long, b) % M32 else Bits(tb, b)
  }

  /** Whenever C defines `a op b`, the machine computes its representation. */
  lemma MachineComputes(op: ArithOp, ty: Ty, a: int, tb: Ty, b: int)
    requires InRange(ty, a) && InRange(tb, b)
    requires IsShift(op) || tb == ty
    requires Arith(op, ty, a, b).Some?
    ensures Machine(op, ty, Bits(ty, a), SecondBits(op, tb, b)) == Some(Bits(ty, Arith(op, ty, a, b).value))
  {
    match op
    case Add => BitsAdd(ty, a, b); WrapFacts(ty, a + b);
    case Sub => BitsAdd(ty, a, b); WrapFacts(ty, a - b);
    case Mul => BitsMul(ty, a, b); WrapFacts(ty, a * b);
    case Div => SignedBits(ty, a); SignedBits(ty, b);
    case Rem => SignedBits(ty, a); SignedBits(ty, b);
    case Bit(kind) =>
      var z := Bitwise(kind, Width(ty), Bits(ty, a), Bits(ty, b));
      BitwiseBound(kind, Width(ty), Bits(ty, a), Bits(ty, b));
      Pow2Width(ty);
      WrapFacts(ty, z);
      BitsSmall(ty, z);
    case Shl =>
      ShiftCount(op, ty, tb, b);
      WrapFacts(ty, a * Pow2(b));
      BitsMul(ty, a, Pow2(b));
    case Shr =>
      ShiftCount(op, ty, tb, b);
      WrapFacts(ty, Halve(Bits(ty, a), b));
      BitsSmall(ty, Halve(Bits(ty, a), b));
  }

  lemma ShiftCount(op: ArithOp, ty: Ty, tb: Ty, b: int)
    requires IsShift(op) && 0 <= b < Width(ty)
    ensures SecondBits(op, tb, b) == b && b % Width(ty) == b
  {
  }
}
