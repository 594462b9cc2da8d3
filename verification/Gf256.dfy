/** The field GF(2^8) that the sharing arithmetic rests on: bytes are polynomials over GF(2)
    of degree at most 7, multiplied modulo x^8 + x^4 + x^3 + x + 1. */
module Gf256 {
  /** A byte by its bits; `b0` is the least significant one. */
  datatype byte = Byte(b7: bool, b6: bool, b5: bool, b4: bool, b3: bool, b2: bool, b1: bool, b0: bool)

  const ZERO := Byte(false, false, false, false, false, false, false, false)
  const ONE := Byte(false, false, false, false, false, false, false, true)
  const THREE := Byte(false, false, false, false, false, false, true, true)

  function Xor(a: byte, b: byte): byte {
    Byte(a.b7 != b.b7, a.b6 != b.b6, a.b5 != b.b5, a.b4 != b.b4,
         a.b3 != b.b3, a.b2 != b.b2, a.b1 != b.b1, a.b0 != b.b0)
  }

  /** `a << 1`, dropping the top bit. */
  function ShiftLeft(a: byte): byte {
    Byte(a.b6, a.b5, a.b4, a.b3, a.b2, a.b1, a.b0, false)
  }

  /** `a >> 1`. */
  function ShiftRight(a: byte): byte {
    Byte(false, a.b7, a.b6, a.b5, a.b4, a.b3, a.b2, a.b1)
  }

  /** Multiplication by x: a shift to the left, where a degree-8 term that falls out comes back
      as x^4 + x^3 + x + 1 (0x1B). */
  function Xtime(a: byte): byte {
    Byte(a.b6, a.b5, a.b4, a.b3 != a.b7, a.b2 != a.b7, a.b1, a.b0 != a.b7, a.b7)
  }

  /** `a` when the lowest bit of `b` is set, zero otherwise. */
  function LowTerm(a: byte, b: byte): byte {
    if b.b0 then a else ZERO
  }

  /** The number of low bits that may be set: a measure for loops that shift right. */
  function Width(b: byte): nat {
    if b.b7 then 8 else if b.b6 then 7 else if b.b5 then 6 else if b.b4 then 5
    else if b.b3 then 4 else if b.b2 then 3 else if b.b1 then 2 else if b.b0 then 1 else 0
  }

  /** By the bits of `b` from the lowest one up, `depth` calls further on. */
  function MulBehind(depth: nat, a: byte, b: byte): byte
    decreases Width(b), Width(a), depth
  {
    if depth > 0 then MulBehind(depth - 1, a, b)
    else if b == ZERO then ZERO
    else Xor(LowTerm(a, b), Mul(Xtime(a), ShiftRight(b)))
  }

  /** The product. Its definition stands behind a few calls, out of the solver's reach: proofs use
      the laws below instead of the bits, and those that do need a step of it call MulDef. */
  function Mul(a: byte, b: byte): byte
    decreases Width(b), Width(a), 9
  {
    MulBehind(8, a, b)
  }

  lemma {:induction false} Within(depth: nat, a: byte, b: byte)
    ensures MulBehind(depth, a, b) == MulBehind(0, a, b)
  {
    hide Xor, Xtime, LowTerm;
    if depth > 0 {
      Within(depth - 1, a, b);
    }
  }

  lemma MulDef(a: byte, b: byte)
    ensures Mul(a, b) == if b == ZERO then ZERO else Xor(LowTerm(a, b), Mul(Xtime(a), ShiftRight(b)))
  {
    hide Xor, Xtime, LowTerm;
    Within(8, a, b);
  }

  // --- Exclusive or ---

  lemma XorSelf(a: byte)
    ensures Xor(a, a) == ZERO && Xor(a, ZERO) == a && Xor(ZERO, a) == a
  {
  }

  lemma XorComm(a: byte, b: byte)
    ensures Xor(a, b) == Xor(b, a)
  {
  }

  lemma XorUndo(a: byte, b: byte)
    ensures Xor(Xor(a, b), b) == a
  {
  }

  lemma XorCancel(a: byte, b: byte)
    requires Xor(a, b) == ZERO
    ensures a == b
  {
  }

  lemma XorAssoc(a: byte, b: byte, c: byte)
    ensures Xor(Xor(a, b), c) == Xor(a, Xor(b, c))
  {
  }

  lemma XorSwap(a: byte, b: byte, c: byte, d: byte)
    ensures Xor(Xor(a, b), Xor(c, d)) == Xor(Xor(a, c), Xor(b, d))
  {
  }

  // --- Ring laws, by induction on the bits of one factor ---

  lemma XtimeXor(a: byte, b: byte)
    ensures Xtime(Xor(a, b)) == Xor(Xtime(a), Xtime(b))
  {
  }

  lemma LowTermXor(a: byte, b: byte, c: byte)
    ensures LowTerm(Xor(a, b), c) == Xor(LowTerm(a, c), LowTerm(b, c))
  {
  }

  lemma XtimeLowTerm(a: byte, b: byte)
    ensures Xtime(LowTerm(a, b)) == LowTerm(Xtime(a), b)
  {
  }

  lemma XorOfZeros()
    ensures Xor(ZERO, ZERO) == ZERO && Xtime(ZERO) == ZERO
  {
  }

  lemma LowTermOfZero(a: byte)
    ensures LowTerm(a, ZERO) == ZERO && ShiftRight(ZERO) == ZERO && Xtime(ZERO) == ZERO && Xor(ZERO, ZERO) == ZERO
  {
  }

  lemma NarrowerRight(b: byte)
    requires b != ZERO
    ensures Width(ShiftRight(b)) < Width(b)
  {
  }

  lemma SplitLowBit(b: byte)
    ensures b == Xor(LowTerm(ONE, b), Xtime(ShiftRight(b)))
  {
  }

  lemma {:induction false} MulXorLeft(a: byte, b: byte, c: byte)
    ensures Mul(Xor(a, b), c) == Xor(Mul(a, c), Mul(b, c))
    decreases Width(c)
  {
    hide Xor, Xtime, LowTerm, Mul;
    MulDef(Xor(a, b), c);
    MulDef(a, c);
    MulDef(b, c);
    if c == ZERO {
      XorOfZeros();
    } else {
      NarrowerRight(c);
      XtimeXor(a, b);
      LowTermXor(a, b, c);
      MulXorLeft(Xtime(a), Xtime(b), ShiftRight(c));
      XorSwap(LowTerm(a, c), LowTerm(b, c), Mul(Xtime(a), ShiftRight(c)), Mul(Xtime(b), ShiftRight(c)));
    }
  }

  lemma {:induction false} MulXtimeLeft(a: byte, b: byte)
    ensures Mul(Xtime(a), b) == Xtime(Mul(a, b))
    decreases Width(b)
  {
    hide Xor, Xtime, LowTerm, Mul;
    MulDef(Xtime(a), b);
    MulDef(a, b);
    if b == ZERO {
      XorOfZeros();
    } else {
      NarrowerRight(b);
      MulXtimeLeft(Xtime(a), ShiftRight(b));
      XtimeXor(LowTerm(a, b), Mul(Xtime(a), ShiftRight(b)));
      XtimeLowTerm(a, b);
    }
  }

  /** The product by its lowest bit, with the shift moved outside. */
  lemma MulByLowBit(a: byte, b: byte)
    ensures Mul(a, b) == Xor(LowTerm(a, b), Xtime(Mul(a, ShiftRight(b))))
  {
    hide Xor, Xtime, LowTerm, Mul;
    MulDef(a, b);
    MulXtimeLeft(a, ShiftRight(b));
    if b == ZERO {
      MulDef(a, ShiftRight(b));
      LowTermOfZero(a);
    }
  }

  lemma {:induction false} MulZeroLeft(b: byte)
    ensures Mul(ZERO, b) == ZERO
    decreases Width(b)
  {
    MulDef(ZERO, b);
    if b == ZERO {
    } else {
      MulZeroLeft(ShiftRight(b));
    }
  }

  lemma {:induction false} MulOneLeft(b: byte)
    ensures Mul(ONE, b) == b
    decreases Width(b)
  {
    if b == ZERO {
      MulDef(ONE, b);
    } else {
      MulOneLeft(ShiftRight(b));
      hide Xor, Xtime, LowTerm, Mul;
      MulByLowBit(ONE, b);
      SplitLowBit(b);
    }
  }

  lemma MulLowTerm(a: byte, b: byte, c: byte)
    ensures Mul(LowTerm(a, b), c) == LowTerm(Mul(a, c), b)
  {
    hide Mul;
    MulZeroLeft(c);
  }

  lemma {:induction false} MulComm(a: byte, b: byte)
    ensures Mul(a, b) == Mul(b, a)
    decreases Width(b)
  {
    MulZeroLeft(a);
    if b == ZERO {
      MulDef(a, b);
    } else {
      hide Xor, Xtime, LowTerm, Mul;
      MulComm(a, ShiftRight(b));
      MulLowTerm(ONE, b, a);
      MulOneLeft(a);
      MulByLowBit(a, b);
      SplitLowBit(b);
      MulXorLeft(LowTerm(ONE, b), Xtime(ShiftRight(b)), a);
      MulXtimeLeft(ShiftRight(b), a);
    }
  }

  lemma MulXorRight(a: byte, b: byte, c: byte)
    ensures Mul(a, Xor(b, c)) == Xor(Mul(a, b), Mul(a, c))
  {
    hide *;
    MulComm(a, Xor(b, c));
    MulXorLeft(b, c, a);
    MulComm(a, b);
    MulComm(a, c);
  }

  lemma MulXtimeRight(a: byte, b: byte)
    ensures Mul(a, Xtime(b)) == Xtime(Mul(a, b))
  {
    hide *;
    MulComm(a, Xtime(b));
    MulXtimeLeft(b, a);
    MulComm(a, b);
  }

  lemma {:induction false} MulAssoc(a: byte, b: byte, c: byte)
    ensures Mul(Mul(a, b), c) == Mul(a, Mul(b, c))
    decreases Width(c)
  {
    if c == ZERO {
      MulDef(Mul(a, b), c);
      MulDef(b, c);
      MulDef(a, c);
    } else {
      hide Xor, Xtime, LowTerm, Mul;
      MulAssoc(a, b, ShiftRight(c));
      MulLowTerm(b, c, a);
      MulComm(a, LowTerm(b, c));
      MulComm(a, b);
      MulByLowBit(Mul(a, b), c);
      MulByLowBit(b, c);
      MulXorRight(a, LowTerm(b, c), Xtime(Mul(b, ShiftRight(c))));
      MulXtimeRight(a, Mul(b, ShiftRight(c)));
    }
  }

  lemma MulOneRight(a: byte)
    ensures Mul(a, ONE) == a
  {
    hide *;
    MulComm(a, ONE);
    MulOneLeft(a);
  }

  // --- Powers of the generator 3 ---

  function Pow(n: nat): byte {
    if n == 0 then ONE else Mul(Pow(n - 1), THREE)
  }

  lemma {:induction false} PowAdd(m: nat, n: nat)
    ensures Pow(m + n) == Mul(Pow(m), Pow(n))
  {
    hide Mul;
    if n == 0 {
      MulOneRight(Pow(m));
    } else {
      PowAdd(m, n - 1);
      MulAssoc(Pow(m), Pow(n - 1), THREE);
    }
  }

  lemma {:induction false} PowMultiple(d: nat, m: nat)
    requires Pow(d) == ONE
    ensures Pow(d * m) == ONE
  {
    hide Mul;
    if m == 0 {
    } else {
      PowMultiple(d, m - 1);
      assert d * m == d * (m - 1) + d;
      PowAdd(d * (m - 1), d);
      MulOneRight(ONE);
    }
  }
}
