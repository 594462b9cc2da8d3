/** Lagrange interpolation: the interpolant exists, and its value at 0 is the weighted sum that
    recombining shares computes. */
module Lagrange {
  import opened Gf256
  import opened Generator
  import opened Polynomial

  /** The product of (x - xs[j]) over j below n, leaving out the index `skip`. */
  function ProductAt(xs: seq<byte>, skip: int, x: byte, n: nat): byte
    requires n <= |xs|
  {
    if n == 0 then ONE
    else if n - 1 == skip then ProductAt(xs, skip, x, n - 1)
    else Mul(ProductAt(xs, skip, x, n - 1), Xor(x, xs[n - 1]))
  }

  /** The same product as a polynomial in x. */
  function ProductPoly(xs: seq<byte>, skip: int, n: nat): (p: Poly)
    requires n <= |xs|
    ensures |p| == if 0 <= skip < n then n else n + 1
  {
    if n == 0 then [ONE]
    else if n - 1 == skip then ProductPoly(xs, skip, n - 1)
    else TimesLinear(ProductPoly(xs, skip, n - 1), xs[n - 1])
  }

  lemma {:induction false} EvalProductPoly(xs: seq<byte>, skip: int, x: byte, n: nat)
    requires n <= |xs|
    ensures Eval(ProductPoly(xs, skip, n), x) == ProductAt(xs, skip, x, n)
  {
    hide Mul, Xor;
    if n == 0 {
      MulComm(x, ZERO);
      MulZeroLeft(x);
      XorSelf(ONE);
    } else {
      EvalProductPoly(xs, skip, x, n - 1);
      EvalTimesLinear(ProductPoly(xs, skip, n - 1), xs[n - 1], x);
      MulComm(ProductAt(xs, skip, x, n - 1), Xor(x, xs[n - 1]));
    }
  }

  /** The product is zero exactly at the points it ranges over. */
  lemma {:induction false} ProductZero(xs: seq<byte>, skip: int, x: byte, n: nat)
    requires n <= |xs|
    ensures ProductAt(xs, skip, x, n) == ZERO <==> exists j :: 0 <= j < n && j != skip && xs[j] == x
  {
    hide Mul, Xor;
    if n > 0 {
      ProductZero(xs, skip, x, n - 1);
      if n - 1 != skip {
        var before := ProductAt(xs, skip, x, n - 1);
        var factor := Xor(x, xs[n - 1]);
        XorSelf(x);
        if factor == ZERO {
          XorCancel(x, xs[n - 1]);
          MulComm(before, ZERO);
          MulZeroLeft(before);
        } else if before == ZERO {
          MulZeroLeft(factor);
        } else if Mul(before, factor) == ZERO {
          NoZeroDivisors(before, factor);
        }
      }
    }
  }

  /** The leading coefficient of a product of linear factors is 1. */
  lemma {:induction false} ProductMonic(xs: seq<byte>, n: nat)
    requires n <= |xs|
    ensures ProductPoly(xs, -1, n)[n] == ONE
  {
    hide Mul, Xor;
    if n > 0 {
      ProductMonic(xs, n - 1);
      XorSelf(ONE);
    }
  }

  function Denominator(xs: seq<byte>, i: nat): (d: byte)
    requires Distinct(xs) && i < |xs|
    ensures d != ZERO
  {
    ProductZero(xs, i, xs[i], |xs|);
    ProductAt(xs, i, xs[i], |xs|)
  }

  /** The sum, over the points below n, of y times its weight at 0. */
  ghost function WeightedSum(xs: seq<byte>, ys: seq<byte>, n: nat): byte
    requires Distinct(xs) && |xs| == |ys| && n <= |xs|
  {
    if n == 0 then ZERO
    else Xor(WeightedSum(xs, ys, n - 1),
             Mul(ys[n - 1], Quotient(ProductAt(xs, n - 1, ZERO, |xs|), Denominator(xs, n - 1))))
  }

  /** The part of the interpolant that the points below n contribute. */
  ghost function Interpolant(xs: seq<byte>, ys: seq<byte>, n: nat): (p: Poly)
    requires Distinct(xs) && |xs| == |ys| && n <= |xs|
    ensures |p| == |xs|
  {
    if n == 0 then seq(|xs|, _ => ZERO)
    else Add(Interpolant(xs, ys, n - 1),
             Scale(Quotient(ys[n - 1], Denominator(xs, n - 1)), ProductPoly(xs, n - 1, |xs|)))
  }

  lemma {:induction false} InterpolantAtPoint(xs: seq<byte>, ys: seq<byte>, n: nat, m: nat)
    requires Distinct(xs) && |xs| == |ys| && n <= |xs| && m < |xs|
    ensures Eval(Interpolant(xs, ys, n), xs[m]) == if m < n then ys[m] else ZERO
  {
    hide Mul, Xor, Eval, Quotient, ProductAt, ProductPoly;
    if n == 0 {
      EvalAllZero(Interpolant(xs, ys, 0), xs[m]);
    } else {
      InterpolantAtPoint(xs, ys, n - 1, m);
      var c := Quotient(ys[n - 1], Denominator(xs, n - 1));
      EvalAdd(Interpolant(xs, ys, n - 1), Scale(c, ProductPoly(xs, n - 1, |xs|)), xs[m]);
      EvalScale(c, ProductPoly(xs, n - 1, |xs|), xs[m]);
      EvalProductPoly(xs, n - 1, xs[m], |xs|);
      if m == n - 1 {
        QuotientTimes(ys[m], Denominator(xs, m));
        XorSelf(ys[m]);
      } else {
        ProductZero(xs, n - 1, xs[m], |xs|);
        MulComm(c, ZERO);
        MulZeroLeft(c);
        XorSelf(Eval(Interpolant(xs, ys, n - 1), xs[m]));
      }
    }
  }

  lemma {:induction false} InterpolantAtZero(xs: seq<byte>, ys: seq<byte>, n: nat)
    requires Distinct(xs) && |xs| == |ys| && n <= |xs|
    ensures Eval(Interpolant(xs, ys, n), ZERO) == WeightedSum(xs, ys, n)
  {
    hide Mul, Xor, Eval, ProductAt, ProductPoly;
    if n == 0 {
      EvalAllZero(Interpolant(xs, ys, 0), ZERO);
    } else {
      InterpolantAtZero(xs, ys, n - 1);
      var c := Quotient(ys[n - 1], Denominator(xs, n - 1));
      EvalAdd(Interpolant(xs, ys, n - 1), Scale(c, ProductPoly(xs, n - 1, |xs|)), ZERO);
      EvalScale(c, ProductPoly(xs, n - 1, |xs|), ZERO);
      EvalProductPoly(xs, n - 1, ZERO, |xs|);
      var num, den := ProductAt(xs, n - 1, ZERO, |xs|), Denominator(xs, n - 1);
      MulAssoc(ys[n - 1], Inverse(den), num);
      MulComm(Inverse(den), num);
    }
  }

  /** There is exactly one polynomial with as many coefficients as there are points through
      those points, and its value at 0 is the weighted sum. */
  lemma InterpolationTheorem(xs: seq<byte>, ys: seq<byte>) returns (p: Poly)
    requires Distinct(xs) && |xs| == |ys|
    ensures |p| == |xs| && Through(p, xs, ys)
    ensures forall q: Poly :: |q| == |xs| && Through(q, xs, ys) ==> q == p
    ensures Eval(p, ZERO) == WeightedSum(xs, ys, |xs|)
  {
    hide Mul, Xor, Eval;
    p := Interpolant(xs, ys, |xs|);
    forall i | 0 <= i < |xs|
      ensures Eval(p, xs[i]) == ys[i]
    {
      InterpolantAtPoint(xs, ys, |xs|, i);
    }
    InterpolantAtZero(xs, ys, |xs|);
    forall q: Poly | |q| == |xs| && Through(q, xs, ys)
      ensures q == p
    {
      UniqueThrough(p, q, xs, ys);
    }
  }

  /** The same polynomial with zero coefficients added up to length n. */
  function Pad(p: Poly, n: nat): (q: Poly)
    requires |p| <= n
    ensures |q| == n
    decreases n
  {
    if |p| == n then p else Pad(p, n - 1) + [ZERO]
  }

  lemma {:induction false} EvalPad(p: Poly, n: nat, x: byte)
    requires |p| <= n
    ensures Eval(Pad(p, n), x) == Eval(p, x)
    decreases n
  {
    hide Mul, Xor, Eval;
    if |p| < n {
      EvalPad(p, n - 1, x);
      EvalSnoc(Pad(p, n - 1), ZERO, x);
      MulZeroLeft(XPow(x, n - 1));
      XorSelf(Eval(p, x));
    }
  }

  lemma WeightedSumIsValueAtZero(xs: seq<byte>, ys: seq<byte>, p: Poly)
    requires Distinct(xs) && |xs| == |ys| && |p| <= |xs| && Through(p, xs, ys)
    ensures WeightedSum(xs, ys, |xs|) == Eval(p, ZERO)
  {
    hide Mul, Xor, Eval;
    var q := InterpolationTheorem(xs, ys);
    var padded := Pad(p, |xs|);
    forall x: byte
      ensures Eval(padded, x) == Eval(p, x)
    {
      EvalPad(p, |xs|, x);
    }
    assert Through(padded, xs, ys);
  }
}
