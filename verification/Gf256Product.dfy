/** The byte product agrees with the textbook definition of the field: the unique remainder of
    the polynomial product on division by x^8 + x^4 + x^3 + x + 1 (section 4.2 of FIPS 197). */
module Gf256Product {
  import opened Gf256

  /** The coefficient of x^k in the polynomial `b`. */
  function Bit(b: byte, k: int): bool {
    if k == 0 then b.b0 else if k == 1 then b.b1 else if k == 2 then b.b2 else if k == 3 then b.b3
    else if k == 4 then b.b4 else if k == 5 then b.b5 else if k == 6 then b.b6 else k == 7 && b.b7
  }

  /** The coefficient of x^k in the (unreduced) product of the polynomials `a` and `b`. */
  function ProductBit(a: byte, b: byte, k: int): bool
    decreases Width(b)
  {
    if b == ZERO then false else (b.b0 && Bit(a, k)) != ProductBit(a, ShiftRight(b), k - 1)
  }

  /** The coefficient of x^k in a polynomial given by its coefficient list. */
  function CoeffAt(q: seq<bool>, k: int): bool {
    0 <= k < |q| && q[k]
  }

  /** The coefficient of x^k in q * (x^8 + x^4 + x^3 + x + 1). */
  function ModulusMultipleBit(q: seq<bool>, k: int): bool {
    ((CoeffAt(q, k) != CoeffAt(q, k - 1)) != (CoeffAt(q, k - 3) != CoeffAt(q, k - 4))) != CoeffAt(q, k - 8)
  }

  /** `r` is what is left of a * b after taking away `q` times the modulus. */
  ghost predicate Divides(a: byte, b: byte, q: seq<bool>, r: byte) {
    forall k: int :: ProductBit(a, b, k) == (ModulusMultipleBit(q, k) != Bit(r, k))
  }

  lemma XtimeBit(m: byte, k: int)
    ensures Bit(Xtime(m), k) == (Bit(m, k - 1) != (m.b7 && (k == 0 || k == 1 || k == 3 || k == 4 || k == 8)))
  {
  }

  lemma ShiftedMultipleBit(c: bool, q: seq<bool>, k: int)
    ensures ModulusMultipleBit([c] + q, k)
         == (ModulusMultipleBit(q, k - 1) != (c && (k == 0 || k == 1 || k == 3 || k == 4 || k == 8)))
  {
    assert forall j: int :: CoeffAt([c] + q, j) == if j == 0 then c else CoeffAt(q, j - 1);
  }

  lemma XorBit(a: byte, b: byte, k: int)
    ensures Bit(a, k) ==> Bit(Xor(a, b), k) == !Bit(b, k)
    ensures !Bit(a, k) ==> Bit(Xor(a, b), k) == Bit(b, k)
  {
  }

  lemma LowTermBit(a: byte, b: byte, k: int)
    ensures Bit(LowTerm(a, b), k) == (b.b0 && Bit(a, k))
  {
  }

  lemma ProductBitStep(a: byte, b: byte, k: int)
    ensures ProductBit(a, b, k) == ((b.b0 && Bit(a, k)) != ProductBit(a, ShiftRight(b), k - 1))
  {
    assert b == ZERO ==> ShiftRight(b) == ZERO;
  }

  /** One step of the long division, at one coefficient. */
  lemma RemainderStep(a: byte, b: byte, q: seq<bool>, k: int)
    requires Divides(a, ShiftRight(b), q, Mul(a, ShiftRight(b)))
    ensures ProductBit(a, b, k)
         == (ModulusMultipleBit([Mul(a, ShiftRight(b)).b7] + q, k) != Bit(Mul(a, b), k))
  {
    hide Mul, Xor, Xtime, Bit, ProductBit, ModulusMultipleBit, CoeffAt, LowTerm;
    var m := Mul(a, ShiftRight(b));
    assert ProductBit(a, ShiftRight(b), k - 1) == (ModulusMultipleBit(q, k - 1) != Bit(m, k - 1));
    ProductBitStep(a, b, k);
    MulByLowBit(a, b);
    XorBit(LowTerm(a, b), Xtime(m), k);
    LowTermBit(a, b, k);
    XtimeBit(m, k);
    ShiftedMultipleBit(m.b7, q, k);
  }

  /** Long division succeeds, and leaves the byte product. */
  lemma {:induction false} MulIsRemainder(a: byte, b: byte) returns (q: seq<bool>)
    ensures Divides(a, b, q, Mul(a, b))
    decreases Width(b)
  {
    if b == ZERO {
      q := [];
      MulDef(a, b);
    } else {
      var q' := MulIsRemainder(a, ShiftRight(b));
      q := [Mul(a, ShiftRight(b)).b7] + q';
      hide Mul, Bit, ProductBit, ModulusMultipleBit;
      forall k: int
        ensures ProductBit(a, b, k) == (ModulusMultipleBit(q, k) != Bit(Mul(a, b), k))
      {
        RemainderStep(a, b, q', k);
      }
    }
  }

  /** A nonzero multiple of the modulus has a term of degree at least 8. */
  lemma {:induction false} MultipleHasHighTerm(q: seq<bool>, j: nat) returns (k: int)
    requires CoeffAt(q, j)
    ensures k >= 8 && ModulusMultipleBit(q, k)
    decreases |q| - j
  {
    if i: nat :| j < i && CoeffAt(q, i) {
      k := MultipleHasHighTerm(q, i);
    } else {
      k := j + 8;
    }
  }

  /** Two different quotients differ in some term of degree at least 8. */
  lemma DifferentMultiples(q1: seq<bool>, q2: seq<bool>, j: nat) returns (k: int)
    requires CoeffAt(q1, j) != CoeffAt(q2, j)
    ensures k >= 8 && ModulusMultipleBit(q1, k) != ModulusMultipleBit(q2, k)
  {
    var n := if |q1| > |q2| then |q1| else |q2|;
    var d := seq(n, i => CoeffAt(q1, i) != CoeffAt(q2, i));
    assert forall k: int :: CoeffAt(d, k) == (CoeffAt(q1, k) != CoeffAt(q2, k));
    k := MultipleHasHighTerm(d, j);
  }

  lemma SameQuotient(q1: seq<bool>, q2: seq<bool>, r1: byte, r2: byte)
    requires forall k: int :: (ModulusMultipleBit(q1, k) != Bit(r1, k)) == (ModulusMultipleBit(q2, k) != Bit(r2, k))
    ensures forall k: int :: CoeffAt(q1, k) == CoeffAt(q2, k)
  {
    if j: int :| CoeffAt(q1, j) != CoeffAt(q2, j) {
      var k := DifferentMultiples(q1, q2, j);
      assert false;
    }
  }

  lemma SameMultiple(q1: seq<bool>, q2: seq<bool>, k: int)
    requires forall j: int :: CoeffAt(q1, j) == CoeffAt(q2, j)
    ensures ModulusMultipleBit(q1, k) == ModulusMultipleBit(q2, k)
  {
  }

  lemma SameBits(a: byte, b: byte)
    requires forall k: int :: Bit(a, k) == Bit(b, k)
    ensures a == b
  {
    assert forall k: int | 0 <= k < 8 :: Bit(a, k) == Bit(b, k);
    assert Bit(a, 0) == Bit(b, 0) && Bit(a, 1) == Bit(b, 1) && Bit(a, 2) == Bit(b, 2) && Bit(a, 3) == Bit(b, 3);
    assert Bit(a, 4) == Bit(b, 4) && Bit(a, 5) == Bit(b, 5) && Bit(a, 6) == Bit(b, 6) && Bit(a, 7) == Bit(b, 7);
  }

  /** The byte product is the one and only remainder of the polynomial product. */
  lemma MulIsTheRemainder(a: byte, b: byte, r: byte)
    ensures (exists q: seq<bool> :: Divides(a, b, q, r)) <==> r == Mul(a, b)
  {
    var q1 := MulIsRemainder(a, b);
    if q: seq<bool> :| Divides(a, b, q, r) {
      hide Mul, Bit, ProductBit, ModulusMultipleBit, CoeffAt;
      forall k: int
        ensures (ModulusMultipleBit(q1, k) != Bit(Mul(a, b), k)) == (ModulusMultipleBit(q, k) != Bit(r, k))
      {
        assert ProductBit(a, b, k) == (ModulusMultipleBit(q1, k) != Bit(Mul(a, b), k));
        assert ProductBit(a, b, k) == (ModulusMultipleBit(q, k) != Bit(r, k));
      }
      SameQuotient(q1, q, Mul(a, b), r);
      forall k: int
        ensures Bit(r, k) == Bit(Mul(a, b), k)
      {
        SameMultiple(q1, q, k);
      }
      SameBits(r, Mul(a, b));
    }
  }
}
