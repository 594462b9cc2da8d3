/** The logarithm tables, built once by a loop over the powers of 3, and the table-driven
    product and quotient. */
module GfTables {
  import opened Gf256
  import opened Generator

  datatype Division = Quo(value: byte) | DivisionByZero

  lemma MulStep(x: byte, y: byte)
    ensures Mul(x, y) == Xor(LowTerm(x, y), Mul(Xtime(x), ShiftRight(y)))
  {
    hide Xor, Xtime, Mul;
    XorSelf(ZERO);
    MulDef(x, y);
    MulDef(Xtime(x), ShiftRight(y));
    assert y == ZERO ==> ShiftRight(y) == ZERO;
  }

  lemma XtimeByShift(x: byte)
    ensures Xtime(x)
      == if x.b7 then Xor(ShiftLeft(x), Byte(false, false, false, true, true, false, true, true)) else ShiftLeft(x)
  {
  }

  lemma WidthShrinks(y: byte)
    ensures Width(ShiftRight(y)) <= (if Width(y) > 0 then Width(y) - 1 else 0)
  {
  }

  lemma RoundKeepsSum(p: byte, x: byte, y: byte)
    ensures Xor(if y.b0 then Xor(p, x) else p, Mul(Xtime(x), ShiftRight(y))) == Xor(p, Mul(x, y))
    ensures Xtime(x)
      == if x.b7 then Xor(ShiftLeft(x), Byte(false, false, false, true, true, false, true, true)) else ShiftLeft(x)
    ensures Width(ShiftRight(y)) <= (if Width(y) > 0 then Width(y) - 1 else 0)
  {
    hide Mul, Xor, Xtime, Width, ShiftLeft, ShiftRight;
    MulStep(x, y);
    XtimeByShift(x);
    WidthShrinks(y);
    XorAssoc(p, LowTerm(x, y), Mul(Xtime(x), ShiftRight(y)));
    XorSelf(p);
  }

  /** Shift-and-add multiplication: eight rounds, whatever the operands. */
  method GfMulSlow(a: byte, b: byte) returns (p: byte)
    ensures p == Mul(a, b)
  {
    p := ZERO;
    var x, y := a, b;
    XorSelf(Mul(a, b));
    for i := 0 to 8
      invariant Width(y) <= 8 - i
      invariant Xor(p, Mul(x, y)) == Mul(a, b)
    {
      RoundKeepsSum(p, x, y);
      if y.b0 {
        p := Xor(p, x);
      }
      var hiBitSet := x.b7;
      x := ShiftLeft(x);
      if hiBitSet {
        x := Xor(x, Byte(false, false, false, true, true, false, true, true));
      }
      y := ShiftRight(y);
    }
    XorSelf(p);
    MulDef(x, y);
  }

  lemma PowNext(n: nat)
    ensures Pow(n + 1) == Mul(Pow(n), THREE)
  {
  }

  lemma PowZero()
    ensures Pow(0) == ONE
  {
  }

  lemma LogSlotsDistinct(i: nat)
    requires i < 255
    ensures forall j: nat :: j < i ==> Index(Pow(j)) != Index(Pow(i))
  {
    hide Mul, Pow, Index;
    forall j: nat | j < i
      ensures Index(Pow(j)) != Index(Pow(i))
    {
      PowInjective(j, i);
      if Index(Pow(j)) == Index(Pow(i)) {
        IndexInjective(Pow(j), Pow(i));
      }
    }
  }

  lemma IndexRange(b: byte)
    ensures Index(b) < 256
  {
  }

  lemma PowCycle(n: nat)
    ensures Pow(n + 255) == Pow(n)
  {
    hide Mul, Pow;
    PowAdd(n, 255);
    KnownPowers(255);
    MulOneRight(Pow(n));
  }

  class Tables {
    const expTable: array<byte>
    const logTable: array<byte>

    ghost predicate Valid()
      reads expTable, logTable
    {
      && expTable.Length == 255 && logTable.Length == 256
      && (forall i: nat :: i < 255 ==> expTable[i] == Pow(i))
      && (forall i: nat :: i < 255 ==> Index(Pow(i)) < 256 && logTable[Index(Pow(i))] == FromNat(i))
    }

    constructor ()
      ensures Valid() && fresh(expTable) && fresh(logTable)
    {
      hide Mul, Pow, Index, FromNat;
      var exp := new byte[255];
      var log := new byte[256];
      var x := ONE;
      PowZero();
      for i := 0 to 255
        invariant x == Pow(i)
        invariant forall j: nat :: j < i ==> exp[j] == Pow(j)
        invariant forall j: nat :: j < i ==> Index(Pow(j)) < 256 && log[Index(Pow(j))] == FromNat(j)
      {
        exp[i] := x;
        IndexRange(x);
        LogSlotsDistinct(i);
        log[Index(x)] := FromNat(i);
        x := GfMulSlow(x, THREE);
        PowNext(i);
      }
      expTable, logTable := exp, log;
    }

    /** The logarithm of a nonzero byte, as found in the table. */
    lemma TableLog(b: byte)
      requires Valid() && b != ZERO
      ensures Index(b) < 256 && Index(logTable[Index(b)]) == Log(b) < 255
      ensures Pow(Log(b)) == b
    {
      hide Mul, Pow, Index, FromNat;
      IndexRange(b);
      IndexFromNat(Log(b));
      assert logTable[Index(Pow(Log(b)))] == FromNat(Log(b));
    }

    method GfMul(a: byte, b: byte) returns (r: byte)
      requires Valid()
      ensures r == Mul(a, b)
    {
      hide Mul, Pow, Index, FromNat;
      IndexRange(a);
      IndexRange(b);
      if a == ZERO || b == ZERO {
        MulZeroLeft(b);
        MulZeroLeft(a);
        MulComm(a, b);
        return ZERO;
      }
      TableLog(a);
      TableLog(b);
      var sum := Index(logTable[Index(a)]) + Index(logTable[Index(b)]);
      PowAdd(Log(a), Log(b));
      if sum >= 255 {
        sum := sum - 255;
        PowCycle(sum);
      }
      r := expTable[sum];
    }

    method GfDiv(a: byte, b: byte) returns (r: Division)
      requires Valid()
      ensures r == DivisionByZero <==> a != ZERO && b == ZERO
      ensures r.Quo? && b != ZERO ==> Mul(r.value, b) == a
      ensures r.Quo? && b == ZERO ==> r.value == ZERO
    {
      hide Mul, Pow, Index, FromNat;
      IndexRange(a);
      IndexRange(b);
      if a == ZERO {
        MulZeroLeft(b);
        return Quo(ZERO);
      }
      if b == ZERO {
        return DivisionByZero;
      }
      TableLog(a);
      TableLog(b);
      var diff := Index(logTable[Index(a)]) - Index(logTable[Index(b)]);
      if diff < 0 {
        diff := diff + 255;
        PowCycle(Log(a));
      }
      PowAdd(diff, Log(b));
      r := Quo(expTable[diff]);
    }
  }
}
