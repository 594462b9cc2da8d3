/** 3 generates the multiplicative group: its powers run through every nonzero byte, so every
    nonzero byte has a logarithm and an inverse. */
module Generator {
  import opened Gf256

  // --- 3 has order 255 ---

  /** Squaring is linear over the bits. */
  function Square(a: byte): byte {
    Byte(a.b7 != a.b6, a.b5 != a.b3, a.b6 != a.b5, (a.b7 != a.b4) != a.b2,
         ((a.b7 != a.b6) != a.b5) != a.b4, a.b5 != a.b1, (a.b7 != a.b6) != a.b4, (a.b6 != a.b4) != a.b0)
  }

  lemma SquareOfSum(a: byte, b: byte)
    ensures Mul(Xor(a, b), Xor(a, b)) == Xor(Mul(a, a), Mul(b, b))
  {
    hide *;
    MulXorLeft(a, b, Xor(a, b));
    MulXorRight(a, a, b);
    MulXorRight(b, a, b);
    MulComm(a, b);
    XorComm(Mul(b, a), Mul(b, b));
    XorSwap(Mul(a, a), Mul(b, a), Mul(b, b), Mul(b, a));
    XorSelf(Mul(b, a));
    XorSelf(Xor(Mul(a, a), Mul(b, b)));
  }

  lemma SquareShifted(a: byte)
    ensures Square(ShiftRight(a)) == Byte(a.b7, a.b6 != a.b4, a.b7 != a.b6, a.b5 != a.b3,
                                          (a.b7 != a.b6) != a.b5, a.b6 != a.b2, a.b7 != a.b5, (a.b7 != a.b5) != a.b1)
  {
  }

  lemma XtimeSquareShifted(a: byte)
    ensures Xor(LowTerm(ONE, a), Square(a)) == Xtime(Xtime(Square(ShiftRight(a))))
  {
    SquareShifted(a);
    hide ShiftRight;
    var s := Square(ShiftRight(a));
    var t := Xtime(s);
    assert t.b7 == s.b6 && t.b6 == s.b5 && t.b5 == s.b4 && t.b4 == (a.b6 != a.b5);
    assert t.b3 == (s.b2 != s.b7) && t.b2 == s.b1 && t.b1 == (s.b0 != s.b7) && t.b0 == s.b7;
  }

  lemma SquareStep(a: byte)
    ensures Square(a) == Xor(LowTerm(ONE, a), Xtime(Xtime(Square(ShiftRight(a)))))
  {
    XtimeSquareShifted(a);
    hide *;
    XorUndo(Square(a), LowTerm(ONE, a));
    XorComm(LowTerm(ONE, a), Square(a));
    XorComm(LowTerm(ONE, a), Xtime(Xtime(Square(ShiftRight(a)))));
  }

  lemma LowBitSquared(a: byte)
    ensures Mul(LowTerm(ONE, a), LowTerm(ONE, a)) == LowTerm(ONE, a)
  {
    hide Mul;
    MulLowTerm(ONE, a, LowTerm(ONE, a));
    MulOneLeft(LowTerm(ONE, a));
  }

  lemma {:induction false} SquareIsProduct(a: byte)
    ensures Mul(a, a) == Square(a)
    decreases Width(a)
  {
    if a == ZERO {
    } else {
      var rest := ShiftRight(a);
      hide Mul, Xor, Xtime, LowTerm, Square;
      SquareIsProduct(rest);
      LowBitSquared(a);
      SplitLowBit(a);
      SquareOfSum(LowTerm(ONE, a), Xtime(rest));
      MulXtimeLeft(rest, Xtime(rest));
      MulXtimeRight(rest, rest);
      SquareStep(a);
    }
  }

  function Times3(a: byte): byte {
    Xor(a, Xtime(a))
  }

  lemma Times3IsProduct(a: byte)
    ensures Mul(a, THREE) == Times3(a)
  {
    hide Mul;
    MulByLowBit(a, THREE);
    MulOneRight(a);
  }

  lemma PowDouble(n: nat)
    ensures Pow(2 * n) == Square(Pow(n))
    ensures Pow(2 * n + 1) == Times3(Square(Pow(n)))
  {
    hide Mul, Square, Times3;
    PowAdd(n, n);
    SquareIsProduct(Pow(n));
    Times3IsProduct(Pow(2 * n));
  }

  lemma PowOne()
    ensures Pow(1) == THREE
  {
    hide Mul;
    assert Pow(1) == Mul(Pow(0), THREE);
    MulOneLeft(THREE);
  }

  lemma KnownPowers(n: nat)
    ensures n == 15 ==> Pow(n) == Byte(false, false, true, true, false, true, false, true)
    ensures n == 51 ==> Pow(n) == Byte(false, false, false, false, true, true, false, false)
    ensures n == 85 ==> Pow(n) == Byte(true, false, true, true, true, true, false, true)
    ensures n == 255 ==> Pow(n) == ONE
  {
    hide Mul, Pow;
    PowOne();
    PowDouble(1);
    PowDouble(3);
    PowDouble(7);
    PowDouble(15);
    PowDouble(31);
    PowDouble(63);
    PowDouble(127);
    assert Pow(255) == ONE;
    PowDouble(6);
    PowDouble(12);
    PowDouble(25);
    PowDouble(2);
    PowDouble(5);
    PowDouble(10);
    PowDouble(21);
    PowDouble(42);
  }

  /** A proper divisor of 255 = 3 * 5 * 17 leaves out one of the three primes. */
  lemma DivisorOf255(d: nat)
    requires 0 < d < 255 && 255 % d == 0
    ensures 85 % d == 0 || 51 % d == 0 || 15 % d == 0
  {
    var k := 255 / d;
    assert k * d == 255 && k >= 2;
    if d > 15 {
      assert (k - 16) * d == 255 - 16 * d < 0;
      assert k == 3 || k == 5 || k == 15;
    }
  }

  /** No power of 3 below the 255th is 1: the least such exponent would divide 255. */
  lemma {:induction false} NoSmallerOrder(d: nat)
    requires 0 < d < 255
    ensures Pow(d) != ONE
  {
    hide Mul, Pow;
    if Pow(d) == ONE {
      KnownPowers(255);
      var r := 255 % d;
      PowMultiple(d, 255 / d);
      PowAdd(d * (255 / d), r);
      assert d * (255 / d) + r == 255;
      MulOneLeft(Pow(r));
      if r != 0 {
        NoSmallerOrder(r);
      } else {
        DivisorOf255(d);
        if 85 % d == 0 {
          KnownPowers(85);
          PowMultiple(d, 85 / d);
        } else if 51 % d == 0 {
          KnownPowers(51);
          PowMultiple(d, 51 / d);
        } else {
          KnownPowers(15);
          PowMultiple(d, 15 / d);
        }
      }
      assert false;
    }
  }

  lemma PowInverse(i: nat)
    requires i <= 255
    ensures Mul(Pow(i), Pow(255 - i)) == ONE && Pow(i) != ZERO
  {
    hide Pow, Mul;
    KnownPowers(255);
    PowAdd(i, 255 - i);
    MulZeroLeft(Pow(255 - i));
  }

  lemma PowInjective(i: nat, j: nat)
    requires i < j < 255
    ensures Pow(i) != Pow(j)
  {
    hide Pow, Mul;
    KnownPowers(255);
    NoSmallerOrder(j - i);
    PowAdd(i, 255 - i);
    PowAdd(j, 255 - i);
    PowAdd(j - i, 255);
    MulOneRight(Pow(j - i));
  }

  // --- Bytes as indices ---

  function Index(b: byte): nat {
    (if b.b7 then 128 else 0) + (if b.b6 then 64 else 0) + (if b.b5 then 32 else 0) + (if b.b4 then 16 else 0)
    + (if b.b3 then 8 else 0) + (if b.b2 then 4 else 0) + (if b.b1 then 2 else 0) + (if b.b0 then 1 else 0)
  }

  /** The byte with a given numeric value. */
  function FromNat(n: nat): byte
    requires n < 256
  {
    var r7 := if n >= 128 then n - 128 else n;
    var r6 := if r7 >= 64 then r7 - 64 else r7;
    var r5 := if r6 >= 32 then r6 - 32 else r6;
    var r4 := if r5 >= 16 then r5 - 16 else r5;
    var r3 := if r4 >= 8 then r4 - 8 else r4;
    var r2 := if r3 >= 4 then r3 - 4 else r3;
    var r1 := if r2 >= 2 then r2 - 2 else r2;
    Byte(n >= 128, r7 >= 64, r6 >= 32, r5 >= 16, r4 >= 8, r3 >= 4, r2 >= 2, r1 >= 1)
  }

  lemma IndexFromNat(n: nat)
    requires n < 256
    ensures Index(FromNat(n)) == n
  {
  }

  lemma IndexInjective(a: byte, b: byte)
    requires Index(a) == Index(b)
    ensures a == b
  {
  }

  // --- Surjectivity, by counting ---

  function UpTo(n: nat): (r: set<nat>)
    ensures forall k: nat :: k in r <==> 1 <= k <= n
  {
    if n == 0 then {} else UpTo(n - 1) + {n}
  }

  lemma {:induction false} RangeSize(n: nat)
    ensures |UpTo(n)| == n
  {
    if n > 0 {
      RangeSize(n - 1);
    }
  }

  ghost function Elements<T(!new)>(s: seq<T>): (r: set<T>)
    ensures forall x :: x in r <==> x in s
  {
    if s == [] then {} else {s[0]} + Elements(s[1..])
  }

  lemma {:induction false} DistinctSize<T(!new)>(s: seq<T>)
    requires forall i, j :: 0 <= i < j < |s| ==> s[i] != s[j]
    ensures |Elements(s)| == |s|
  {
    if s == [] {
    } else {
      DistinctSize(s[1..]);
      assert s[0] !in s[1..];
    }
  }

  lemma {:induction false} SubsetSize<T>(a: set<T>, b: set<T>)
    requires a <= b
    ensures |a| <= |b|
  {
    if x :| x in a {
      SubsetSize(a - {x}, b - {x});
    }
  }

  /** n different numbers between 1 and n are all of them. */
  lemma Pigeonhole(s: seq<nat>, v: nat)
    requires forall i, j :: 0 <= i < j < |s| ==> s[i] != s[j]
    requires forall i :: 0 <= i < |s| ==> 1 <= s[i] <= |s|
    requires 1 <= v <= |s|
    ensures v in s
  {
    RangeSize(|s|);
    DistinctSize(s);
    if v !in s {
      var others := UpTo(|s|) - {v};
      assert |others| == |s| - 1;
      forall x | x in Elements(s)
        ensures x in others
      {
      }
      SubsetSize(Elements(s), others);
      assert false;
    }
  }

  lemma NonzeroIndex(b: byte)
    requires b != ZERO
    ensures 1 <= Index(b) <= 255
  {
  }

  /** Every nonzero byte is a power of 3. */
  lemma LogExists(b: byte) returns (i: nat)
    requires b != ZERO
    ensures i < 255 && Pow(i) == b
  {
    hide Pow, Mul, Index;
    var s := seq(255, i requires 0 <= i => Index(Pow(i)));
    forall i, j | 0 <= i < j < 255
      ensures s[i] != s[j]
    {
      PowInjective(i, j);
      if Index(Pow(i)) == Index(Pow(j)) {
        IndexInjective(Pow(i), Pow(j));
      }
    }
    forall i | 0 <= i < 255
      ensures 1 <= s[i] <= 255
    {
      PowInverse(i);
      NonzeroIndex(Pow(i));
    }
    NonzeroIndex(b);
    Pigeonhole(s, Index(b));
    i :| 0 <= i < 255 && s[i] == Index(b);
    IndexInjective(Pow(i), b);
  }

  ghost function Log(b: byte): (i: nat)
    requires b != ZERO
    ensures i < 255 && Pow(i) == b
  {
    assert exists i: nat :: i < 255 && Pow(i) == b by {
      var i := LogExists(b);
    }
    var i: nat :| i < 255 && Pow(i) == b;
    i
  }

  // --- Inverses and division ---

  ghost function Inverse(b: byte): (r: byte)
    requires b != ZERO
    ensures Mul(b, r) == ONE
  {
    PowInverse(Log(b));
    Pow(255 - Log(b))
  }

  ghost function Quotient(a: byte, b: byte): byte
    requires b != ZERO
  {
    Mul(a, Inverse(b))
  }

  lemma QuotientTimes(a: byte, b: byte)
    requires b != ZERO
    ensures Mul(Quotient(a, b), b) == a
  {
    hide Mul;
    MulAssoc(a, Inverse(b), b);
    MulComm(Inverse(b), b);
    MulOneRight(a);
  }

  /** The quotient is the only solution. */
  lemma QuotientUnique(a: byte, b: byte, q: byte)
    requires b != ZERO && Mul(q, b) == a
    ensures q == Quotient(a, b)
  {
    hide Mul;
    MulAssoc(q, b, Inverse(b));
    MulOneRight(q);
  }

  lemma NoZeroDivisors(a: byte, b: byte)
    requires Mul(a, b) == ZERO && b != ZERO
    ensures a == ZERO
  {
    hide Mul;
    QuotientUnique(ZERO, b, a);
    MulZeroLeft(Inverse(b));
  }
}
