/** The operators of sections 6.5.5 to 6.5.12 of ISO C11, by the properties the standard gives them. */
module ArithRules {
  import opened Options
  import opened Words
  import opened MachineArith

  /** `u` and `v` differ by a multiple of the modulus. */
  predicate Congruent(ty: Ty, u: int, v: int) { (u - v) % Modulus(ty) == 0 }

  lemma SameResidue(ty: Ty, u: int, v: int)
    requires Bits(ty, u) == Bits(ty, v)
    ensures Congruent(ty, u, v)
  {
    hide Bits;
    var qu := Quotient(ty, u);
    var qv := Quotient(ty, v);
    match ty
    case Int => Difference32(u, v, qu - qv);
    case Long => Difference64(u, v, qu - qv);
  }

  lemma Difference32(u: int, v: int, q: int)
    requires u - v == q * M32
    ensures (u - v) % M32 == 0
  {
  }

  lemma Difference64(u: int, v: int, q: int)
    requires u - v == q * M64
    ensures (u - v) % M64 == 0
  {
  }

  /** A type has one value congruent to each integer. */
  lemma OneValue(ty: Ty, u: int, v: int)
    requires InRange(ty, u) && InRange(ty, v) && Congruent(ty, u, v)
    ensures u == v
  {
  }

  /** The value of `ty` that is congruent to `x`. */
  predicate IsWrapped(ty: Ty, v: int, x: int) {
    InRange(ty, v) && Congruent(ty, v, x)
  }

  lemma WrapIs(ty: Ty, x: int, v: int)
    ensures Wrap(ty, x) == v <==> IsWrapped(ty, v, x)
  {
    hide Wrap, Bits, InRange;
    WrapFacts(ty, x);
    SameResidue(ty, Wrap(ty, x), x);
    if IsWrapped(ty, v, x) {
      Chain(ty, v, x, Wrap(ty, x));
      OneValue(ty, v, Wrap(ty, x));
    }
  }

  lemma Chain(ty: Ty, u: int, x: int, v: int)
    requires Congruent(ty, u, x) && Congruent(ty, v, x)
    ensures Congruent(ty, u, v)
  {
  }

  /** Sums, differences, products and left shifts are the exact result, wrapped. */
  lemma RingRule(op: ArithOp, ty: Ty, a: int, b: int, v: int)
    ensures Arith(Add, ty, a, b) == Some(v) <==> IsWrapped(ty, v, a + b)
    ensures Arith(Sub, ty, a, b) == Some(v) <==> IsWrapped(ty, v, a - b)
    ensures Arith(Mul, ty, a, b) == Some(v) <==> IsWrapped(ty, v, a * b)
  {
    hide Wrap, IsWrapped;
    WrapIs(ty, a + b, v);
    WrapIs(ty, a - b, v);
    WrapIs(ty, a * b, v);
  }

  /** Left shifts multiply by a power of two and wrap; right shifts divide the bit pattern. */
  lemma ShiftRule(ty: Ty, a: int, b: int, v: int)
    ensures Arith(Shl, ty, a, b) == Some(v) <==> 0 <= b < Width(ty) && IsWrapped(ty, v, a * Pow2(b))
    ensures
      Arith(Shr, ty, a, b) == Some(v) <==> 0 <= b < Width(ty) && InRange(ty, v) && Bits(ty, v) == Bits(ty, a) / Pow2(b)
  {
    hide Wrap, Bits, IsWrapped, InRange, Pow2, Halve;
    if 0 <= b < Width(ty) {
      WrapIs(ty, a * Pow2(b), v);
      var h := Halve(Bits(ty, a), b);
      HalveDivides(Bits(ty, a), b);
      WrapFacts(ty, h);
      BitsSmall(ty, h);
      if InRange(ty, v) && Bits(ty, v) == h { SignedBits(ty, v); }
    }
  }

  lemma BitsSmall(ty: Ty, h: nat)
    requires h < Modulus(ty)
    ensures Bits(ty, h) == h && Wrap(ty, h) == Signed(ty, h)
  {
  }

  lemma {:induction false} HalveDivides(x: nat, k: nat)
    ensures Halve(x, k) == x / Pow2(k)
    decreases k
  {
    if k > 0 {
      HalveDivides(x / 2, k - 1);
      HalfTwice(x, Pow2(k - 1));
    }
  }

  lemma HalfTwice(x: nat, p: nat)
    requires p > 0
    ensures x / 2 / p == x / (2 * p)
  {
    var h := x / 2;
    var q, r := h / p, h % p;
    DivisionOf(h, p);
    assert x == 2 * h + x % 2;
    assert x == q * (2 * p) + (2 * r + x % 2) by { assert 2 * (q * p) == q * (2 * p); }
    QuotientIs(x, q, 2 * r + x % 2, 2 * p);
  }

  lemma QuotientIs(x: nat, q: nat, r: nat, m: nat)
    requires m > 0 && r < m && x == q * m + r
    ensures x / m == q
  {
    DivisionOf(x, m);
    var q', r' := x / m, x % m;
    Distribute(q', q, m);
    if q' > q { Larger(q' - q, m); }
    if q' < q { Larger(q - q', m); }
  }

  lemma Distribute(p: int, q: int, m: int)
    ensures (p - q) * m == p * m - q * m && (q - p) * m == q * m - p * m
  {
  }

  lemma Larger(d: nat, m: nat)
    requires d > 0
    ensures d * m >= m
  {
  }

  /** Division and remainder: the quotient is truncated, and both are undefined when it does not exist or fit. */
  lemma DivisionRule(ty: Ty, a: int, b: int)
    ensures Arith(Div, ty, a, b).Some? <==> Arith(Rem, ty, a, b).Some?
    ensures Arith(Div, ty, a, b).None? <==> b == 0 || !InRange(ty, TruncDiv(a, b))
    ensures Arith(Div, ty, a, b).Some? ==>
      var q, r := Arith(Div, ty, a, b).value, Arith(Rem, ty, a, b).value;
      a == q * b + r && Abs(r) < Abs(b) && (r != 0 ==> (r > 0) == (a > 0))
  {
    if b != 0 { TruncDivision(a, b); }
  }

  /** Bit `k` of a pattern. */
  function BitAt(x: nat, k: nat): nat { Halve(x, k) % 2 }

  /** Bitwise operators combine each pair of bits. */
  lemma {:induction false} BitwiseAt(kind: BitKind, w: nat, x: nat, y: nat, k: nat)
    requires k < w
    ensures
      var (p, q) := (BitAt(x, k) == 1, BitAt(y, k) == 1);
      BitAt(Bitwise(kind, w, x, y), k) == 1 <==>
        match kind
        case And => p && q
        case Or => p || q
        case Xor => p != q
    decreases k
  {
    var z := Bitwise(kind, w - 1, x / 2, y / 2);
    var b := BitOp(kind, x % 2, y % 2);
    assert Bitwise(kind, w, x, y) == b + 2 * z;
    if k > 0 {
      BitwiseAt(kind, w - 1, x / 2, y / 2, k - 1);
      assert (b + 2 * z) / 2 == z;
    }
  }

  lemma {:induction false} BitwiseFits(kind: BitKind, w: nat, x: nat, y: nat)
    ensures Bitwise(kind, w, x, y) < Pow2(w)
  {
    if w > 0 { BitwiseFits(kind, w - 1, x / 2, y / 2); }
  }

  /** So each bit of a bitwise result is that of the operands' bits. */
  lemma BitRule(kind: BitKind, ty: Ty, a: int, b: int, k: nat)
    requires k < Width(ty)
    ensures Arith(Bit(kind), ty, a, b).Some?
    ensures
      var v := Arith(Bit(kind), ty, a, b).value;
      var (p, q) := (BitAt(Bits(ty, a), k) == 1, BitAt(Bits(ty, b), k) == 1);
      InRange(ty, v)
      && (BitAt(Bits(ty, v), k) == 1 <==>
          match kind
          case And => p && q
          case Or => p || q
          case Xor => p != q)
  {
    hide Wrap, Bits, Bitwise, BitAt, InRange, BitOp;
    var z := Bitwise(kind, Width(ty), Bits(ty, a), Bits(ty, b));
    WrapFacts(ty, z);
    BitwiseFits(kind, Width(ty), Bits(ty, a), Bits(ty, b));
    Pow2Width(ty);
    BitsSmall(ty, z);
    BitwiseAt(kind, Width(ty), Bits(ty, a), Bits(ty, b), k);
  }

  /** Comparisons are those of the mathematical integers. */
  lemma CompareRule(a: int, b: int)
    ensures Compare(Lt, a, b) <==> b - a > 0
    ensures Compare(Gt, a, b) <==> Compare(Lt, b, a)
    ensures Compare(Le, a, b) <==> !Compare(Lt, b, a)
    ensures Compare(Ge, a, b) <==> !Compare(Lt, a, b)
    ensures Compare(Eq, a, b) <==> Compare(Le, a, b) && Compare(Ge, a, b)
    ensures Compare(Ne, a, b) <==> !Compare(Eq, a, b)
  {
  }
}
