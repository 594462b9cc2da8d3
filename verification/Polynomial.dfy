/** Polynomials over GF(2^8), as coefficient lists with the constant term first: evaluation,
    division by a linear factor, the bound on the number of roots, and interpolation. */
module Polynomial {
  import opened Gf256
  import opened Generator

  type Poly = seq<byte>

  function Eval(p: Poly, x: byte): byte {
    if p == [] then ZERO else Xor(p[0], Mul(x, Eval(p[1..], x)))
  }

  predicate Distinct(xs: seq<byte>) {
    forall i, j :: 0 <= i < j < |xs| ==> xs[i] != xs[j]
  }

  predicate AllZero(p: Poly) {
    forall i :: 0 <= i < |p| ==> p[i] == ZERO
  }

  /** p takes the value ys[i] at xs[i]. */
  predicate Through(p: Poly, xs: seq<byte>, ys: seq<byte>)
    requires |xs| == |ys|
  {
    forall i :: 0 <= i < |xs| ==> Eval(p, xs[i]) == ys[i]
  }

  // --- Evaluation as a sum of terms ---

  function XPow(x: byte, n: nat): byte {
    if n == 0 then ONE else Mul(XPow(x, n - 1), x)
  }

  /** The sum of p[i] * x^i for i below n. */
  function TermSum(p: Poly, x: byte, n: nat): byte
    requires n <= |p|
  {
    if n == 0 then ZERO else Xor(TermSum(p, x, n - 1), Mul(p[n - 1], XPow(x, n - 1)))
  }

  lemma {:induction false} XPowFront(x: byte, n: nat)
    ensures XPow(x, n + 1) == Mul(x, XPow(x, n))
  {
    hide Mul, Xor;
    if n == 0 {
      MulComm(x, ONE);
    } else {
      XPowFront(x, n - 1);
      MulAssoc(x, XPow(x, n - 1), x);
    }
  }

  lemma {:induction false} EvalSnoc(p: Poly, c: byte, x: byte)
    ensures Eval(p + [c], x) == Xor(Eval(p, x), Mul(c, XPow(x, |p|)))
  {
    hide Mul, Xor;
    if p == [] {
      MulComm(x, ZERO);
      MulZeroLeft(x);
      MulOneRight(c);
      XorSelf(c);
    } else {
      assert (p + [c])[1..] == p[1..] + [c];
      EvalSnoc(p[1..], c, x);
      var w := XPow(x, |p| - 1);
      MulXorRight(x, Eval(p[1..], x), Mul(c, w));
      XPowFront(x, |p| - 1);
      MulComm(c, w);
      MulComm(c, Mul(x, w));
      MulAssoc(x, w, c);
      XorAssoc(p[0], Mul(x, Eval(p[1..], x)), Mul(c, XPow(x, |p|)));
    }
  }

  lemma {:induction false} PrefixSum(p: Poly, x: byte, n: nat)
    requires n <= |p|
    ensures Eval(p[..n], x) == TermSum(p, x, n)
  {
    hide Mul, Xor;
    if n > 0 {
      PrefixSum(p, x, n - 1);
      assert p[..n] == p[..n - 1] + [p[n - 1]];
      EvalSnoc(p[..n - 1], p[n - 1], x);
    }
  }

  /** Evaluation is the sum of the coefficients times the powers of x. */
  lemma EvalIsTermSum(p: Poly, x: byte)
    ensures Eval(p, x) == TermSum(p, x, |p|)
  {
    PrefixSum(p, x, |p|);
    assert p[..|p|] == p;
  }

  lemma EvalAtZero(p: Poly)
    requires p != []
    ensures Eval(p, ZERO) == p[0]
  {
    hide Mul, Xor;
    MulZeroLeft(Eval(p[1..], ZERO));
    XorSelf(p[0]);
  }

  // --- Sums, multiples and products with a linear factor ---

  function Add(p: Poly, q: Poly): (r: Poly)
    requires |p| == |q|
    ensures |r| == |p|
    ensures forall i :: 0 <= i < |p| ==> r[i] == Xor(p[i], q[i])
  {
    seq(|p|, i requires 0 <= i < |p| => Xor(p[i], q[i]))
  }

  function Scale(c: byte, p: Poly): (r: Poly)
    ensures |r| == |p|
    ensures forall i :: 0 <= i < |p| ==> r[i] == Mul(c, p[i])
  {
    seq(|p|, i requires 0 <= i < |p| => Mul(c, p[i]))
  }

  /** (x - r) * p. */
  function TimesLinear(p: Poly, r: byte): (q: Poly)
    ensures |q| == |p| + 1
  {
    Add([ZERO] + p, Scale(r, p) + [ZERO])
  }

  lemma {:induction false} EvalAdd(p: Poly, q: Poly, x: byte)
    requires |p| == |q|
    ensures Eval(Add(p, q), x) == Xor(Eval(p, x), Eval(q, x))
  {
    hide Mul, Xor;
    if p == [] {
      XorSelf(ZERO);
    } else {
      assert Add(p, q)[1..] == Add(p[1..], q[1..]);
      EvalAdd(p[1..], q[1..], x);
      MulXorRight(x, Eval(p[1..], x), Eval(q[1..], x));
      XorSwap(p[0], q[0], Mul(x, Eval(p[1..], x)), Mul(x, Eval(q[1..], x)));
    }
  }

  lemma {:induction false} EvalScale(c: byte, p: Poly, x: byte)
    ensures Eval(Scale(c, p), x) == Mul(c, Eval(p, x))
  {
    hide Mul, Xor;
    if p == [] {
      MulComm(c, ZERO);
      MulZeroLeft(c);
    } else {
      var rest := Eval(p[1..], x);
      assert Scale(c, p)[1..] == Scale(c, p[1..]);
      EvalScale(c, p[1..], x);
      MulXorRight(c, p[0], Mul(x, rest));
      MulAssoc(x, c, rest);
      MulAssoc(c, x, rest);
      MulComm(c, x);
    }
  }

  lemma EvalTimesLinear(p: Poly, r: byte, x: byte)
    ensures Eval(TimesLinear(p, r), x) == Mul(Xor(x, r), Eval(p, x))
  {
    hide Mul, Xor;
    EvalAdd([ZERO] + p, Scale(r, p) + [ZERO], x);
    assert ([ZERO] + p)[1..] == p;
    XorSelf(Mul(x, Eval(p, x)));
    EvalSnoc(Scale(r, p), ZERO, x);
    MulZeroLeft(XPow(x, |p|));
    XorSelf(Eval(Scale(r, p), x));
    EvalScale(r, p, x);
    MulXorLeft(x, r, Eval(p, x));
  }

  lemma {:induction false} EvalAllZero(p: Poly, x: byte)
    requires AllZero(p)
    ensures Eval(p, x) == ZERO
  {
    hide Mul, Xor;
    if p != [] {
      EvalAllZero(p[1..], x);
      MulComm(x, ZERO);
      MulZeroLeft(x);
      XorSelf(ZERO);
    }
  }

  // --- Division by a linear factor, and the number of roots ---

  /** The quotient of p by (x - r); the remainder is Eval(p, r). */
  function DivideLinear(p: Poly, r: byte): (q: Poly)
    ensures |q| == if p == [] then 0 else |p| - 1
  {
    if |p| <= 1 then [] else [Eval(p[1..], r)] + DivideLinear(p[1..], r)
  }

  lemma XorRegroup(c: byte, xt: byte, rt: byte, xq: byte)
    ensures Xor(c, Xor(xq, xt)) == Xor(Xor(Xor(xt, rt), xq), Xor(c, rt))
  {
  }

  lemma {:induction false} DivisionLaw(p: Poly, r: byte, x: byte)
    requires p != []
    ensures Eval(p, x) == Xor(Mul(Xor(x, r), Eval(DivideLinear(p, r), x)), Eval(p, r))
  {
    hide Mul, Xor;
    var d := Xor(x, r);
    if |p| == 1 {
      MulComm(x, ZERO);
      MulComm(r, ZERO);
      MulComm(d, ZERO);
      MulZeroLeft(x);
      MulZeroLeft(r);
      MulZeroLeft(d);
      XorSelf(p[0]);
    } else {
      var t := p[1..];
      var q := Eval(DivideLinear(t, r), x);
      var tr := Eval(t, r);
      DivisionLaw(t, r, x);
      assert DivideLinear(p, r)[1..] == DivideLinear(t, r);
      MulXorRight(x, Mul(d, q), tr);
      MulXorRight(d, tr, Mul(x, q));
      MulXorLeft(x, r, tr);
      MulAssoc(x, d, q);
      MulAssoc(d, x, q);
      MulComm(x, d);
      XorRegroup(p[0], Mul(x, tr), Mul(r, tr), Mul(x, Mul(d, q)));
    }
  }

  lemma {:induction false} ZeroQuotient(p: Poly, r: byte)
    requires p != [] && AllZero(DivideLinear(p, r)) && Eval(p, r) == ZERO
    ensures AllZero(p)
  {
    hide Mul, Xor;
    if |p| == 1 {
      MulComm(r, ZERO);
      MulZeroLeft(r);
      XorSelf(p[0]);
    } else {
      var q := DivideLinear(p, r);
      assert q[0] == ZERO && q[1..] == DivideLinear(p[1..], r);
      ZeroQuotient(p[1..], r);
      MulComm(r, ZERO);
      MulZeroLeft(r);
      XorSelf(p[0]);
      assert p[0] == ZERO;
      assert forall i :: 0 < i < |p| ==> p[i] == p[1..][i - 1];
    }
  }

  lemma RootOfQuotient(p: Poly, r: byte, x: byte)
    requires p != [] && x != r && Eval(p, r) == ZERO && Eval(p, x) == ZERO
    ensures Eval(DivideLinear(p, r), x) == ZERO
  {
    hide Mul, Xor, Eval, DivideLinear;
    DivisionLaw(p, r, x);
    var v := Eval(DivideLinear(p, r), x);
    XorSelf(Mul(Xor(x, r), v));
    MulComm(Xor(x, r), v);
    if Xor(x, r) == ZERO {
      XorCancel(x, r);
    }
    NoZeroDivisors(v, Xor(x, r));
  }

  /** A polynomial with as many roots as coefficients is zero. */
  lemma {:induction false} RootBound(p: Poly, xs: seq<byte>)
    requires Distinct(xs) && |p| <= |xs|
    requires forall i :: 0 <= i < |xs| ==> Eval(p, xs[i]) == ZERO
    ensures AllZero(p)
    decreases |p|
  {
    hide Mul, Xor, Eval, DivideLinear;
    if p != [] {
      var r := xs[0];
      var q := DivideLinear(p, r);
      forall i | 0 <= i < |xs[1..]|
        ensures Eval(q, xs[1..][i]) == ZERO
      {
        RootOfQuotient(p, r, xs[i + 1]);
      }
      RootBound(q, xs[1..]);
      ZeroQuotient(p, r);
    }
  }

  /** At most one polynomial of a given length passes through as many points. */
  lemma UniqueThrough(p: Poly, q: Poly, xs: seq<byte>, ys: seq<byte>)
    requires |p| == |q| <= |xs| == |ys| && Distinct(xs)
    requires Through(p, xs, ys) && Through(q, xs, ys)
    ensures p == q
  {
    hide Mul, Xor, Eval;
    forall i | 0 <= i < |xs|
      ensures Eval(Add(p, q), xs[i]) == ZERO
    {
      EvalAdd(p, q, xs[i]);
      XorSelf(ys[i]);
    }
    RootBound(Add(p, q), xs);
    forall i | 0 <= i < |p|
      ensures p[i] == q[i]
    {
      XorCancel(p[i], q[i]);
    }
  }
}
