/**
 Compound assignment of a `long` to an `int`: semantic analysis converts the right side
 to `int` first and the operation is done in 32 bits, where C computes in 64 bits and
 converts the result (section 6.5.16.2 of ISO C11).
 */
module Narrow {
  import opened Options
  import opened Words
  import opened Typed
  import opened MachineArith

  lemma NarrowBits(x: int)
    ensures Bits(Int, Wrap(Long, x)) == Bits(Int, x)
    ensures Bits(Int, Bits(Long, x)) == Bits(Int, x)
    ensures Wrap(Int, Wrap(Long, x)) == Wrap(Int, x)
  {
    WrapFacts(Long, x);
    TwoSteps(x);
    TwoSteps(Wrap(Long, x));
  }

  /** The low half of the low 64 bits. */
  lemma TwoSteps(x: int)
    ensures (x % M64) % M32 == x % M32
  {
    var q := x / M64;
    assert x == M64 * q + x % M64;
    assert (x % M64 + M32 * (M32 * q)) % M32 == (x % M64) % M32;
  }

  lemma {:induction false} BitwiseLow(kind: BitKind, w: nat, k: nat, x: nat, y: nat)
    requires k <= w
    ensures Bitwise(kind, w, x, y) % Pow2(k) == Bitwise(kind, k, x, y)
    decreases w
  {
    if k > 0 {
      BitwiseLow(kind, w - 1, k - 1, x / 2, y / 2);
      DoubleMod(BitOp(kind, x % 2, y % 2), Bitwise(kind, w - 1, x / 2, y / 2), Pow2(k - 1));
    }
  }

  lemma DoubleMod(b: nat, z: nat, p: nat)
    requires b < 2 && p > 0
    ensures (b + 2 * z) % (2 * p) == b + 2 * (z % p)
  {
    DivisionOf(z, p);
    assert b + 2 * z == (z / p) * (2 * p) + (b + 2 * (z % p)) by {
      assert (z / p) * (2 * p) == 2 * ((z / p) * p);
    }
    RemainderIs(b + 2 * z, z / p, b + 2 * (z % p), 2 * p);
  }

  lemma RemainderIs(x: nat, q: int, r: nat, m: nat)
    requires m > 0 && r < m && x == q * m + r
    ensures x % m == r
  {
    DivisionOf(x, m);
    var d := x / m - q;
    assert d * m == (x / m) * m - q * m;
    Apart(d, m);
  }

  lemma Apart(d: int, m: nat)
    ensures d > 0 ==> d * m >= m
    ensures d < 0 ==> d * m + m <= 0
  {
    if d > 0 { assert (d - 1) * m >= 0; }
    if d < 0 { assert (-1 - d) * m >= 0; }
  }

  /** A bitwise operation looks at the low bits only. */
  lemma {:induction false} BitwiseMasked(kind: BitKind, w: nat, x: nat, y: nat)
    ensures Bitwise(kind, w, x % Pow2(w), y % Pow2(w)) == Bitwise(kind, w, x, y)
  {
    if w > 0 {
      Halved(x, Pow2(w - 1));
      Halved(y, Pow2(w - 1));
      BitwiseMasked(kind, w - 1, x / 2, y / 2);
    }
  }

  lemma Halved(x: nat, p: nat)
    requires p > 0
    ensures x % (2 * p) >= 0 && (x % (2 * p)) % 2 == x % 2 && (x % (2 * p)) / 2 == (x / 2) % p
  {
    DoubleMod(x % 2, x / 2, p);
    assert x % 2 + 2 * (x / 2) == x;
  }

  lemma BitwiseNarrow(kind: BitKind, a: int, b: int)
    ensures Bits(Int, Bitwise(kind, 64, Bits(Long, a), Bits(Long, b))) == Bitwise(kind, 32, Bits(Int, a), Bits(Int, b))
  {
    var x, y := Bits(Long, a), Bits(Long, b);
    Pow2Width(Int);
    BitwiseLow(kind, 64, 32, x, y);
    BitwiseMasked(kind, 32, x, y);
    NarrowBits(a);
    NarrowBits(b);
  }

  /** What the compiled `a op= b` stores. */
  function Compiled(op: ArithOp, a: int, b: int): Option<int> { Arith(op, Int, a, Wrap(Int, b)) }

  /** What C stores: the result in `long`, converted to `int`; a shift is done in the type of `a`. */
  function Standard(op: ArithOp, a: int, b: int): Option<int> {
    match Arith(op, if IsShift(op) then Int else Long, a, b)
    case None => None
    case Some(v) => Some(Wrap(Int, v))
  }

  /** Narrowing first is right for every operator but `/` and `%`. */
  lemma NarrowFirst(op: ArithOp, a: int, b: int)
    requires InRange(Int, a) && InRange(Long, b) && !op.Div? && !op.Rem?
    requires Standard(op, a, b).Some?
    ensures Compiled(op, a, b) == Standard(op, a, b)
  {
    match op
    case Add => NarrowRing(a, b);
    case Sub => NarrowRing(a, b);
    case Mul => NarrowRing(a, b);
    case Bit(kind) => NarrowBitwise(kind, a, b);
    case Shl => SmallWrap(b); WrapTwice(a * Pow2(b));
    case Shr => SmallWrap(b); WrapTwice(Halve(Bits(Int, a), b));
  }

  lemma WrapTwice(x: int)
    ensures Wrap(Int, Wrap(Int, x)) == Wrap(Int, x)
  {
    WrapFacts(Int, x);
    SignedBits(Int, Wrap(Int, x));
  }

  lemma NarrowRing(a: int, b: int)
    ensures Wrap(Int, a + Wrap(Int, b)) == Wrap(Int, Wrap(Long, a + b))
    ensures Wrap(Int, a - Wrap(Int, b)) == Wrap(Int, Wrap(Long, a - b))
    ensures Wrap(Int, a * Wrap(Int, b)) == Wrap(Int, Wrap(Long, a * b))
  {
    hide Bits, Signed;
    WrapFacts(Int, b);
    NarrowBits(a + b);
    NarrowBits(a - b);
    NarrowBits(a * b);
    BitsAdd(Int, a, b);
    BitsAdd(Int, a, Wrap(Int, b));
    BitsMul(Int, a, b);
    BitsMul(Int, a, Wrap(Int, b));
  }

  lemma NarrowBitwise(kind: BitKind, a: int, b: int)
    ensures Compiled(Bit(kind), a, b) == Standard(Bit(kind), a, b)
  {
    hide Bits, Signed, Bitwise;
    WrapFacts(Int, b);
    BitwiseNarrow(kind, a, b);
    NarrowBits(Bitwise(kind, 64, Bits(Long, a), Bits(Long, b)));
    BitwiseBound(kind, 32, Bits(Int, a), Bits(Int, b));
    Pow2Width(Int);
    BitsSmall(Int, Bitwise(kind, 32, Bits(Int, a), Bits(Int, b)));
  }

  lemma SmallWrap(b: int)
    requires 0 <= b < 32
    ensures Wrap(Int, b) == b
  {
  }

  /** 6 /= 2^32 + 4 and 6 %= 2^32 + 4: the divisor becomes 4. */
  lemma DivisionDiffers()
    ensures Standard(Div, 6, M32 + 4) == Some(0) && Compiled(Div, 6, M32 + 4) == Some(1)
    ensures Standard(Rem, 6, M32 + 4) == Some(6) && Compiled(Rem, 6, M32 + 4) == Some(2)
  {
  }

  /** The operators for which narrowing first is right for all operands are exactly the others. */
  lemma NarrowExactly(op: ArithOp)
    ensures !op.Div? && !op.Rem? <==>
      forall a, b :: InRange(Int, a) && InRange(Long, b) && Standard(op, a, b).Some?
        ==> Compiled(op, a, b) == Standard(op, a, b)
  {
    if !op.Div? && !op.Rem? {
      forall a, b | InRange(Int, a) && InRange(Long, b) && Standard(op, a, b).Some?
        ensures Compiled(op, a, b) == Standard(op, a, b)
      {
        NarrowFirst(op, a, b);
      }
    } else {
      DivisionDiffers();
      assert Standard(op, 6, M32 + 4).Some?;
    }
  }

  /** Where the quotient or remainder stays the same. */
  predicate SafeDivisor(op: ArithOp, b: int) {
    (InRange(Int, b) && b != -1) || (op.Rem? && b == M32 / 2)
  }

  lemma SmallDividend(a: int, b: int)
    requires b != 0 && Abs(a) < Abs(b)
    ensures TruncDiv(a, b) == 0 && TruncRem(a, b) == a
  {
  }

  lemma QuotientSmaller(a: int, b: int)
    requires b != 0
    ensures Abs(TruncDiv(a, b)) <= Abs(a) && Abs(TruncRem(a, b)) < Abs(b)
    ensures Abs(b) >= 2 ==> Abs(TruncDiv(a, b)) <= Abs(a) / 2
  {
    hide Abs;
    AbsFacts(a);
    AbsFacts(b);
    Quotient(Abs(a), Abs(b));
    AbsFacts(TruncDiv(a, b));
    AbsFacts(TruncRem(a, b));
  }

  lemma AbsFacts(a: int)
    ensures Abs(a) == if a < 0 then -a else a
  {
  }

  lemma Quotient(a: nat, b: nat)
    requires b > 0
    ensures 0 <= a / b <= a && 0 <= a % b < b && (b >= 2 ==> a / b <= a / 2)
  {
    DivisionOf(a, b);
    if b >= 2 { assert a / b * b >= a / b * 2; }
    assert a / b * b >= a / b;
  }

  /** A divisor the narrowing leaves alone. */
  lemma DivisorKept(op: ArithOp, a: int, b: int)
    requires (op.Div? || op.Rem?) && InRange(Int, a) && SafeDivisor(op, b) && Standard(op, a, b).Some?
    ensures Compiled(op, a, b) == Standard(op, a, b)
  {
    hide TruncDiv, TruncRem;
    QuotientSmaller(a, b);
    if InRange(Int, b) {
      WrapSame(b);
      if b == 1 { DivideByOne(a); }
      WrapSame(if op.Div? then TruncDiv(a, b) else TruncRem(a, b));
    } else {
      HalfDivisor(a);
    }
  }

  lemma WrapSame(v: int)
    requires InRange(Int, v)
    ensures Wrap(Int, v) == v
  {
    SignedBits(Int, v);
  }

  lemma DivideByOne(a: int)
    ensures TruncDiv(a, 1) == a && TruncRem(a, 1) == 0
  {
  }

  /** 2^31 becomes -2^31, and the remainder is the same. */
  lemma HalfDivisor(a: int)
    requires InRange(Int, a)
    ensures Compiled(Rem, a, M32 / 2) == Standard(Rem, a, M32 / 2)
  {
    if Abs(a) < M32 / 2 {
      SmallDividend(a, M32 / 2);
      SmallDividend(a, -(M32 / 2));
      WrapSame(a);
    }
  }

  /** A dividend for which any other divisor gives a wrong result. */
  lemma DivisorLost(op: ArithOp, b: int) returns (a: int)
    requires (op.Div? || op.Rem?) && InRange(Long, b) && !SafeDivisor(op, b)
    ensures InRange(Int, a) && Standard(op, a, b).Some? && Compiled(op, a, b) != Standard(op, a, b)
  {
    hide Standard, Compiled, Wrap;
    WrapFacts(Int, b);
    if b == -1 {
      a := -(M32 / 2);
      OverflowLost(op);
    } else if Wrap(Int, b) == 0 {
      a := 0;
      ZeroLost(op, b);
    } else {
      a := Wrap(Int, b);
      ItselfLost(op, b, a);
    }
  }

  lemma OverflowLost(op: ArithOp)
    requires op.Div? || op.Rem?
    ensures Standard(op, -(M32 / 2), -1).Some? && Compiled(op, -(M32 / 2), -1).None?
  {
  }

  lemma ZeroLost(op: ArithOp, b: int)
    requires (op.Div? || op.Rem?) && b != 0 && Wrap(Int, b) == 0
    ensures Standard(op, 0, b).Some? && Compiled(op, 0, b).None?
  {
    hide Wrap, TruncDiv, TruncRem;
    SmallDividend(0, b);
  }

  /** The narrowed divisor as dividend. */
  lemma ItselfLost(op: ArithOp, b: int, w: int)
    requires (op.Div? || op.Rem?) && !InRange(Int, b) && !SafeDivisor(op, b) && w == Wrap(Int, b) && w != 0
      && InRange(Int, w)
    ensures Standard(op, w, b).Some? && Compiled(op, w, b) != Standard(op, w, b)
  {
    hide Wrap, TruncDiv, TruncRem;
    ByItself(w);
    WrapSame(w);
    WrapSame(0);
    if Abs(w) < Abs(b) {
      SmallDividend(w, b);
    } else {
      HalfItself();
    }
  }

  lemma HalfItself()
    ensures TruncDiv(-(M32 / 2), M32 / 2) == -1 && Wrap(Int, -1) == -1
  {
  }

  lemma ByItself(w: int)
    requires w != 0
    ensures TruncDiv(w, w) == 1 && TruncRem(w, w) == 0
  {
  }

  /** The divisors for which `/=` and `%=` are right for all dividends are exactly the safe ones. */
  lemma DivisorExactly(op: ArithOp, b: int)
    requires (op.Div? || op.Rem?) && InRange(Long, b)
    ensures SafeDivisor(op, b) <==>
      forall a :: InRange(Int, a) && Standard(op, a, b).Some? ==> Compiled(op, a, b) == Standard(op, a, b)
  {
    hide Standard, Compiled, SafeDivisor;
    if SafeDivisor(op, b) {
      forall a | InRange(Int, a) && Standard(op, a, b).Some? ensures Compiled(op, a, b) == Standard(op, a, b) {
        DivisorKept(op, a, b);
      }
    } else {
      var a := DivisorLost(op, b);
    }
  }
}
