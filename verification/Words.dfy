/** Options, shared by every module. */
module Options {
  datatype Option<+T> = None | Some(value: T)
}

/**
 Two's-complement arithmetic of the two C types the code generator supports,
 `int` (32 bits) and `long` (64 bits). A C value is a mathematical integer in
 the signed range of its type; `Bits` is its machine representation.
 */
module Words {
  import opened Options

  datatype Ty = Int | Long

  const M32: int := 0x1_0000_0000
  const M64: int := 0x1_0000_0000_0000_0000

  datatype BitKind = And | Or | Xor
  datatype ArithOp = Add | Sub | Mul | Div | Rem | Bit(kind: BitKind) | Shl | Shr
  datatype CmpOp = Lt | Gt | Le | Ge | Eq | Ne

  function Width(ty: Ty): nat { if ty == Int then 32 else 64 }
  function Modulus(ty: Ty): int { if ty == Int then M32 else M64 }

  predicate InRange(ty: Ty, v: int) { -(Modulus(ty) / 2) <= v < Modulus(ty) / 2 }

  /** The unsigned bit pattern of `v`. */
  function Bits(ty: Ty, v: int): (b: nat)
    ensures b < Modulus(ty)
  {
    match ty
    case Int => v % M32
    case Long => v % M64
  }

  /** The signed reading of a bit pattern. */
  function Signed(ty: Ty, b: int): int {
    if b >= Modulus(ty) / 2 then b - Modulus(ty) else b
  }

  /** Conversion of any integer to `ty`: the congruent value in the signed range. */
  function Wrap(ty: Ty, x: int): int { Signed(ty, Bits(ty, x)) }

  function Pow2(k: nat): (p: nat)
    ensures p > 0
  {
    if k == 0 then 1 else 2 * Pow2(k - 1)
  }

  function BitOp(kind: BitKind, x: nat, y: nat): (z: nat)
    requires x < 2 && y < 2
    ensures z < 2
  {
    match kind
    case And => if x == 1 && y == 1 then 1 else 0
    case Or => if x == 1 || y == 1 then 1 else 0
    case Xor => if x != y then 1 else 0
  }

  /** The low `w` bits of a bitwise operation, one bit at a time. */
  function Bitwise(kind: BitKind, w: nat, x: nat, y: nat): nat {
    if w == 0 then 0
    else BitOp(kind, x % 2, y % 2) + 2 * Bitwise(kind, w - 1, x / 2, y / 2)
  }

  /** `x` shifted right by `k` bits. */
  function Halve(x: nat, k: nat): (z: nat)
    ensures z <= x
  {
    if k == 0 then x else Halve(x / 2, k - 1)
  }

  function Abs(a: int): nat { if a >= 0 then a else -a }

  /** Division and remainder truncating toward zero (section 6.5.5 of ISO C11). */
  function TruncDiv(a: int, b: int): int
    requires b != 0
  {
    if (a >= 0) == (b > 0) then Abs(a) / Abs(b) else -(Abs(a) / Abs(b))
  }

  function TruncRem(a: int, b: int): int
    requires b != 0
  {
    if a >= 0 then Abs(a) % Abs(b) else -(Abs(a) % Abs(b))
  }

  /**
   The C value of `a op b` computed in type `ty`; `None` where C leaves it
   undefined (division by zero, quotient overflow, shift count out of range).
   Addition, subtraction, multiplication and left shift wrap; right shift is logical.
   */
  function Arith(op: ArithOp, ty: Ty, a: int, b: int): Option<int> {
    match op
    case Add => Some(Wrap(ty, a + b))
    case Sub => Some(Wrap(ty, a - b))
    case Mul => Some(Wrap(ty, a * b))
    case Div =>
      if b == 0 || !InRange(ty, TruncDiv(a, b)) then None else Some(TruncDiv(a, b))
    case Rem =>
      if b == 0 || !InRange(ty, TruncDiv(a, b)) then None else Some(TruncRem(a, b))
    case Shl =>
      if 0 <= b < Width(ty) then Some(Wrap(ty, a * Pow2(b))) else None
    case Shr =>
      if 0 <= b < Width(ty) then Some(Wrap(ty, Halve(Bits(ty, a), b))) else None
    case Bit(kind) => Some(Wrap(ty, Bitwise(kind, Width(ty), Bits(ty, a), Bits(ty, b))))
  }

  predicate Compare(op: CmpOp, a: int, b: int) {
    match op
    case Lt => a < b
    case Gt => a > b
    case Le => a <= b
    case Ge => a >= b
    case Eq => a == b
    case Ne => a != b
  }

  function Truth(b: bool): int { if b then 1 else 0 }

  // ----- representation -----

  lemma SignedBits(ty: Ty, v: int)
    requires InRange(ty, v)
    ensures Signed(ty, Bits(ty, v)) == v
  {
    if v >= 0 {
      assert v % Modulus(ty) == v;
    } else {
      assert (v + Modulus(ty)) % Modulus(ty) == v + Modulus(ty);
      assert v % Modulus(ty) == v + Modulus(ty);
    }
  }

  /** The low half of a 64-bit pattern is the pattern of the value cast to 32 bits. */
  lemma LowHalf(v: int)
    requires InRange(Long, v)
    ensures Bits(Long, v) % M32 == Bits(Int, v)
  {
    var k := v / M64 * M32;
    assert Bits(Long, v) == v - k * M32;
    WithoutMultiple(v, k);
  }

  lemma WithoutMultiple(v: int, k: int)
    ensures (v - k * M32) % M32 == v % M32
  {
  }

  /** Cast to 32 bits, a value is zero exactly when it is a multiple of 2^32. */
  lemma ZeroBits(v: int)
    ensures Wrap(Int, v) == 0 <==> Bits(Int, v) == 0
    ensures Wrap(Int, v) == 0 <==> v % M32 == 0
  {
  }

  lemma WrapFacts(ty: Ty, x: int)
    ensures InRange(ty, Wrap(ty, x))
    ensures Bits(ty, Wrap(ty, x)) == Bits(ty, x)
  {
    var b := Bits(ty, x);
    assert b % Modulus(ty) == b;
    assert (b - Modulus(ty)) % Modulus(ty) == b;
  }

  /** `b != 0` makes quotient and remainder those of section 6.5.5 of ISO C11. */
  lemma TruncDivision(a: int, b: int)
    requires b != 0
    ensures a == TruncDiv(a, b) * b + TruncRem(a, b)
    ensures Abs(TruncRem(a, b)) < Abs(b) && Abs(TruncRem(a, b)) <= Abs(a)
    ensures TruncRem(a, b) != 0 ==> (TruncRem(a, b) > 0) == (a > 0)
  {
    var q, r := Abs(a) / Abs(b), Abs(a) % Abs(b);
    DivisionOf(Abs(a), Abs(b));
    SignRules(q, Abs(b));
  }

  lemma DivisionOf(p: nat, n: nat)
    requires n > 0
    ensures p == (p / n) * n + p % n
    ensures 0 <= p % n < n && p % n <= p
  {
    if p < n { assert p % n == p; }
  }

  lemma SignRules(q: int, n: int)
    ensures (-q) * n == -(q * n) && q * (-n) == -(q * n) && (-q) * (-n) == q * n
  {
  }

  /** Bit patterns form a ring: the pattern of a sum, difference or product depends on patterns only. */
  lemma BitsShift(ty: Ty, a: int, k: int)
    ensures Bits(ty, a + k * Modulus(ty)) == Bits(ty, a)
  {
    match ty
    case Int => assert (a + k * M32) % M32 == a % M32;
    case Long => assert (a + k * M64) % M64 == a % M64;
  }

  lemma Quotient(ty: Ty, a: int) returns (q: int)
    ensures a == Bits(ty, a) + q * Modulus(ty)
  {
    match ty
    case Int => q := a / M32;
    case Long => q := a / M64;
  }

  lemma Recombine(qa: int, ra: int, qb: int, rb: int, m: int)
    ensures ra + rb + (qa + qb) * m == (ra + qa * m) + (rb + qb * m)
    ensures ra - rb + (qa - qb) * m == (ra + qa * m) - (rb + qb * m)
  {
  }

  lemma BitsAdd(ty: Ty, a: int, b: int)
    ensures Bits(ty, Bits(ty, a) + Bits(ty, b)) == Bits(ty, a + b)
    ensures Bits(ty, Bits(ty, a) - Bits(ty, b)) == Bits(ty, a - b)
  {
    hide Bits;
    var ra: int, rb: int := Bits(ty, a), Bits(ty, b);
    var qa := Quotient(ty, a);
    var qb := Quotient(ty, b);
    Recombine(qa, ra, qb, rb, Modulus(ty));
    BitsShift(ty, ra + rb, qa + qb);
    BitsShift(ty, ra - rb, qa - qb);
  }

  lemma MulExpand(qa: int, ra: int, qb: int, rb: int, m: int)
    ensures (ra + qa * m) * (rb + qb * m) == ra * rb + (qa * qb * m + qa * rb + ra * qb) * m
  {
  }

  lemma BitsMul(ty: Ty, a: int, b: int)
    ensures Bits(ty, Bits(ty, a) * Bits(ty, b)) == Bits(ty, a * b)
    ensures Bits(ty, Bits(ty, a) * b) == Bits(ty, a * b)
  {
    hide Bits;
    var m := Modulus(ty);
    var ra, rb := Bits(ty, a), Bits(ty, b);
    var qa := Quotient(ty, a);
    var qb := Quotient(ty, b);
    MulExpand(qa, ra, qb, rb, m);
    BitsShift(ty, ra * rb, qa * qb * m + qa * rb + ra * qb);
    MulExpand(0, ra, qb, rb, m);
    BitsShift(ty, ra * rb, ra * qb);
  }

  /** Every defined C result is a value of its type. */
  lemma ArithInRange(op: ArithOp, ty: Ty, a: int, b: int)
    requires InRange(ty, a)
    ensures Arith(op, ty, a, b).Some? ==> InRange(ty, Arith(op, ty, a, b).value)
  {
    if op.Rem? && b != 0 {
      TruncDivision(a, b);
    } else if op.Rem? || op.Div? {
    } else {
      forall x { WrapFacts(ty, x); }
    }
  }
}
