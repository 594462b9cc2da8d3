/** What threshold sharing promises: enough shares give the secret back, one share too few give
    a value that is off by a known amount, and too few shares are consistent with every secret. */
module SharingTheorems {
  import opened Wrappers
  import opened Gf256
  import opened Generator
  import opened Polynomial
  import opened Lagrange
  import opened Shamir

  // --- Combining, on every accepted input ---

  /** Every byte of the result is p(0) for the one polynomial p with as many coefficients as there
      are shares that passes through the shares' points for that byte. */
  lemma CombineInterpolates(shares: seq<Bytes>, b: nat)
    requires WellFormed(shares) && b < |shares[0]| - 1
    ensures exists p: Poly ::
      && |p| == |shares| && Through(p, Xs(shares), Ys(shares, b))
      && CombinedBytes(shares)[b] == Eval(p, ZERO)
      && forall q: Poly :: |q| == |shares| && Through(q, Xs(shares), Ys(shares, b)) ==> q == p
  {
    hide Mul, Xor, Eval;
    var p := InterpolationTheorem(Xs(shares), Ys(shares, b));
  }

  // --- Picking shares ---

  /** The shares of a split secret at the given indices, in the given order. */
  function Picked(secret: Bytes, rows: seq<Bytes>, picks: seq<nat>): (s: seq<Bytes>)
    requires |secret| <= |rows| && forall k :: 0 <= k < |picks| ==> picks[k] < 255
    ensures |s| == |picks|
  {
    seq(|picks|, k requires 0 <= k < |picks| => ShareAt(secret, rows, picks[k]))
  }

  ghost predicate ValidPicks(picks: seq<nat>) {
    && (forall k :: 0 <= k < |picks| ==> picks[k] < 255)
    && (forall k, l :: 0 <= k < l < |picks| ==> picks[k] != picks[l])
  }

  lemma CoordinateNonzero(i: nat)
    requires i < 255
    ensures Coordinate(i) != ZERO
  {
    hide FromNat;
    IndexFromNat(i + 1);
    assert Index(ZERO) == 0;
  }

  lemma CoordinatesDiffer(i: nat, j: nat)
    requires i < 255 && j < 255 && i != j
    ensures Coordinate(i) != Coordinate(j)
  {
    hide FromNat, Index;
    IndexFromNat(i + 1);
    IndexFromNat(j + 1);
  }

  lemma PickedWellFormed(secret: Bytes, rows: seq<Bytes>, picks: seq<nat>)
    requires 0 < |secret| <= |rows| && ValidPicks(picks) && |picks| >= 2
    ensures WellFormed(Picked(secret, rows, picks))
    ensures forall k :: 0 <= k < |picks| ==> Xs(Picked(secret, rows, picks))[k] == Coordinate(picks[k])
  {
    hide FromNat, Eval;
    var shares := Picked(secret, rows, picks);
    forall k | 0 <= k < |picks|
      ensures shares[k][0] != ZERO
    {
      CoordinateNonzero(picks[k]);
    }
    forall k, l | 0 <= k < l < |picks|
      ensures Xs(shares)[k] != Xs(shares)[l]
    {
      CoordinatesDiffer(picks[k], picks[l]);
    }
  }

  /** The picked shares are points of the polynomial of each byte. */
  lemma PickedThrough(secret: Bytes, rows: seq<Bytes>, picks: seq<nat>, b: nat)
    requires |secret| <= |rows| && b < |secret|
    requires forall k :: 0 <= k < |picks| ==> picks[k] < 255
    ensures Through(RowPoly(secret, rows, b), Xs(Picked(secret, rows, picks)), Ys(Picked(secret, rows, picks), b))
  {
    hide FromNat, Eval;
  }

  // --- Round trip ---

  lemma ShareLengths(secret: Bytes, rows: seq<Bytes>, picks: seq<nat>)
    requires |secret| <= |rows| && forall k :: 0 <= k < |picks| ==> picks[k] < 255
    ensures forall k :: 0 <= k < |picks| ==> |Picked(secret, rows, picks)[k]| == |secret| + 1
  {
  }

  lemma CombinedByteIsConstantTerm(secret: Bytes, threshold: int, rows: seq<Bytes>, picks: seq<nat>, b: nat)
    requires b < |secret| && 2 <= threshold && ValidRows(rows, |secret|, threshold)
    requires ValidPicks(picks) && |picks| >= threshold
    requires WellFormed(Picked(secret, rows, picks))
    ensures CombinedByte(Picked(secret, rows, picks), b) == secret[b]
  {
    hide Mul, Xor, Eval, FromNat, WeightedSum;
    var shares := Picked(secret, rows, picks);
    PickedThrough(secret, rows, picks, b);
    WeightedSumIsValueAtZero(Xs(shares), Ys(shares, b), RowPoly(secret, rows, b));
    EvalAtZero(RowPoly(secret, rows, b));
  }

  /** Any `threshold` or more different shares, in any order, give the secret back. */
  lemma RoundTrip(secret: Bytes, threshold: int, rows: seq<Bytes>, picks: seq<nat>)
    requires secret != [] && 2 <= threshold && ValidRows(rows, |secret|, threshold)
    requires ValidPicks(picks) && |picks| >= threshold
    ensures Combined(Picked(secret, rows, picks)) == Ok(secret)
  {
    hide Mul, Xor, Eval, FromNat, WellFormed, CombineError, WeightedSum;
    var shares := Picked(secret, rows, picks);
    PickedWellFormed(secret, rows, picks);
    AcceptedIffWellFormed(shares);
    ShareLengths(secret, rows, picks);
    forall b | 0 <= b < |secret|
      ensures CombinedBytes(shares)[b] == secret[b]
    {
      CombinedByteIsConstantTerm(secret, threshold, rows, picks, b);
    }
    assert CombinedBytes(shares) == secret;
  }

  // --- One share too few ---

  /** The product of the x-coordinates of some shares. */
  function CoordinateProduct(shares: seq<Bytes>): byte
    requires forall i :: 0 <= i < |shares| ==> |shares[i]| > 0
  {
    ProductAt(Xs(shares), -1, ZERO, |shares|)
  }

  /** Taking the leading term off, along the product of linear factors, keeps the points. */
  lemma LowerDegree(p: Poly, xs: seq<byte>, ys: seq<byte>) returns (q: Poly)
    requires |p| == |xs| + 1 && |xs| == |ys| && Through(p, xs, ys)
    ensures |q| == |xs| && Through(q, xs, ys)
    ensures Eval(q, ZERO) == Xor(Eval(p, ZERO), Mul(p[|xs|], ProductAt(xs, -1, ZERO, |xs|)))
  {
    hide Mul, Xor, Eval, ProductAt, ProductPoly;
    var n := |xs|;
    var top := p[n];
    var correction := Scale(top, ProductPoly(xs, -1, n));
    var sum := Add(p, correction);
    ProductMonic(xs, n);
    MulOneRight(top);
    XorSelf(top);
    q := sum[..n];
    assert sum == q + [ZERO];
    forall x: byte
      ensures Eval(q, x) == Xor(Eval(p, x), Mul(top, ProductAt(xs, -1, x, n)))
    {
      EvalSnoc(q, ZERO, x);
      MulZeroLeft(XPow(x, n));
      XorSelf(Eval(q, x));
      EvalAdd(p, correction, x);
      EvalScale(top, ProductPoly(xs, -1, n), x);
      EvalProductPoly(xs, -1, x, n);
    }
    forall i | 0 <= i < n
      ensures Eval(q, xs[i]) == ys[i]
    {
      ProductZero(xs, -1, xs[i], n);
      MulComm(top, ZERO);
      MulZeroLeft(top);
      XorSelf(ys[i]);
    }
  }

  lemma WellFormedParts(shares: seq<Bytes>)
    requires WellFormed(shares)
    ensures |shares| >= 2 && Distinct(Xs(shares)) && forall i :: 0 <= i < |shares| ==> |shares[i]| == |shares[0]| >= 2
    ensures forall i :: 0 <= i < |shares| ==> Xs(shares)[i] != ZERO
  {
  }

  lemma ShiftFixesOnlyByZero(a: byte, d: byte)
    ensures Xor(a, d) == a <==> d == ZERO
  {
    hide Xor;
    XorSelf(a);
    if Xor(a, d) == a {
      XorComm(a, d);
      XorUndo(d, a);
    }
  }

  /** With threshold - 1 shares every byte comes out as the secret plus its top coefficient times
      the product of the x-coordinates; it is right exactly when the top coefficient is zero. */
  lemma OneShareShort(secret: Bytes, threshold: int, rows: seq<Bytes>, picks: seq<nat>, b: nat)
    requires secret != [] && 3 <= threshold && ValidRows(rows, |secret|, threshold)
    requires ValidPicks(picks) && |picks| == threshold - 1 && b < |secret|
    ensures Combined(Picked(secret, rows, picks)).Ok?
    ensures |Combined(Picked(secret, rows, picks)).value| == |secret|
    ensures Combined(Picked(secret, rows, picks)).value[b]
         == Xor(secret[b], Mul(rows[b][threshold - 2], CoordinateProduct(Picked(secret, rows, picks))))
    ensures Combined(Picked(secret, rows, picks)).value[b] == secret[b] <==> rows[b][threshold - 2] == ZERO
  {
    hide Mul, Xor, Eval, FromNat, WeightedSum, WellFormed, CombineError, ProductAt;
    var shares := Picked(secret, rows, picks);
    PickedWellFormed(secret, rows, picks);
    AcceptedIffWellFormed(shares);
    ShareLengths(secret, rows, picks);
    WellFormedParts(shares);
    PickedThrough(secret, rows, picks, b);
    var p := RowPoly(secret, rows, b);
    var q := LowerDegree(p, Xs(shares), Ys(shares, b));
    WeightedSumIsValueAtZero(Xs(shares), Ys(shares, b), q);
    EvalAtZero(p);
    var top := rows[b][threshold - 2];
    var product := CoordinateProduct(shares);
    ProductZero(Xs(shares), -1, ZERO, |shares|);
    MulZeroLeft(product);
    XorSelf(secret[b]);
    ShiftFixesOnlyByZero(secret[b], Mul(top, product));
    if Mul(top, product) == ZERO {
      NoZeroDivisors(top, product);
    }
  }

  // --- Secrecy, by counting ---

  lemma AlsoAtZero(xs: seq<byte>)
    requires Distinct(xs) && forall i :: 0 <= i < |xs| ==> xs[i] != ZERO
    ensures Distinct([ZERO] + xs)
  {
  }

  lemma ThroughLessZero(xs: seq<byte>, ys: seq<byte>, candidate: byte, p: Poly)
    requires |xs| == |ys| && |p| == |xs| + 1 && Through(p, [ZERO] + xs, [candidate] + ys)
    ensures [candidate] + p[1..] == p && Through(p, xs, ys)
  {
    hide Mul, Xor, Eval;
    var xs', ys' := [ZERO] + xs, [candidate] + ys;
    assert Eval(p, xs'[0]) == candidate;
    EvalAtZero(p);
    forall i | 0 <= i < |xs|
      ensures Eval(p, xs[i]) == ys[i]
    {
      assert Eval(p, xs'[i + 1]) == ys'[i + 1];
    }
  }

  lemma ThroughZeroToo(xs: seq<byte>, ys: seq<byte>, candidate: byte, row: Bytes)
    requires |xs| == |ys| && Through([candidate] + row, xs, ys)
    ensures Through([candidate] + row, [ZERO] + xs, [candidate] + ys)
  {
    hide Mul, Xor, Eval;
    EvalAtZero([candidate] + row);
  }

  /** For one byte: given one point fewer than the threshold, every candidate value is explained
      by exactly one choice of the random coefficients. */
  lemma SecrecyOfByte(xs: seq<byte>, ys: seq<byte>, candidate: byte) returns (row: Bytes)
    requires Distinct(xs) && |xs| == |ys| && forall i :: 0 <= i < |xs| ==> xs[i] != ZERO
    ensures |row| == |xs| && Through([candidate] + row, xs, ys)
    ensures forall other: Bytes :: |other| == |xs| && Through([candidate] + other, xs, ys) ==> other == row
  {
    hide Mul, Xor, Eval, Through, Distinct;
    AlsoAtZero(xs);
    var xs', ys' := [ZERO] + xs, [candidate] + ys;
    var p := InterpolationTheorem(xs', ys');
    row := p[1..];
    ThroughLessZero(xs, ys, candidate, p);
    forall other: Bytes | |other| == |xs| && Through([candidate] + other, xs, ys)
      ensures other == row
    {
      ThroughZeroToo(xs, ys, candidate, other);
      assert other == ([candidate] + other)[1..];
    }
  }

  /** Two choices of coefficients give the same shares at the picked indices. */
  ghost predicate SameShares(secret1: Bytes, rows1: seq<Bytes>, secret2: Bytes, rows2: seq<Bytes>, picks: seq<nat>)
    requires |secret1| <= |rows1| && |secret2| <= |rows2| && ValidPicks(picks)
  {
    forall k :: 0 <= k < |picks| ==> ShareAt(secret1, rows1, picks[k]) == ShareAt(secret2, rows2, picks[k])
  }

  ghost predicate Explains(candidate: Bytes, rows': seq<Bytes>, secret: Bytes, threshold: int, rows: seq<Bytes>,
                           picks: seq<nat>)
    requires |secret| <= |rows| && ValidPicks(picks)
  {
    ValidRows(rows', |candidate|, threshold) && SameShares(candidate, rows', secret, rows, picks)
  }

  /** The coefficients `row` turn the candidate's byte b into the observed values. */
  ghost predicate RowFits(secret: Bytes, threshold: int, rows: seq<Bytes>, picks: seq<nat>, candidate: Bytes, b: nat,
                          row: Bytes)
    requires ValidRows(rows, |secret|, threshold) && b < |candidate| == |secret| && ValidPicks(picks)
  {
    && |row| == threshold - 1
    && forall k :: 0 <= k < |picks| ==>
         Eval([candidate[b]] + row, Coordinate(picks[k])) == Eval(RowPoly(secret, rows, b), Coordinate(picks[k]))
  }

  lemma FittingRow(secret: Bytes, threshold: int, rows: seq<Bytes>, picks: seq<nat>, candidate: Bytes, b: nat)
    returns (row: Bytes)
    requires 2 <= threshold && ValidRows(rows, |secret|, threshold) && b < |candidate| == |secret|
    requires ValidPicks(picks) && |picks| == threshold - 1
    ensures RowFits(secret, threshold, rows, picks, candidate, b, row)
    ensures forall other :: RowFits(secret, threshold, rows, picks, candidate, b, other) ==> other == row
  {
    hide Mul, Xor, Eval, FromNat, Coordinate;
    var xs := seq(|picks|, k requires 0 <= k < |picks| => Coordinate(picks[k]));
    var ys := seq(|picks|, k requires 0 <= k < |picks| => Eval(RowPoly(secret, rows, b), Coordinate(picks[k])));
    forall k, l | 0 <= k < l < |picks|
      ensures xs[k] != xs[l]
    {
      CoordinatesDiffer(picks[k], picks[l]);
    }
    forall k | 0 <= k < |picks|
      ensures xs[k] != ZERO
    {
      CoordinateNonzero(picks[k]);
    }
    row := SecrecyOfByte(xs, ys, candidate[b]);
    forall k | 0 <= k < |picks|
      ensures Eval([candidate[b]] + row, Coordinate(picks[k])) == Eval(RowPoly(secret, rows, b), Coordinate(picks[k]))
    {
      assert Eval([candidate[b]] + row, xs[k]) == ys[k];
    }
    forall other | RowFits(secret, threshold, rows, picks, candidate, b, other)
      ensures other == row
    {
      assert Through([candidate[b]] + other, xs, ys);
    }
  }

  lemma BuildRows(secret: Bytes, threshold: int, rows: seq<Bytes>, picks: seq<nat>, candidate: Bytes, n: nat)
    returns (rows': seq<Bytes>)
    requires 2 <= threshold && ValidRows(rows, |secret|, threshold) && n <= |candidate| == |secret|
    requires ValidPicks(picks) && |picks| == threshold - 1
    ensures |rows'| == n
    ensures forall b :: 0 <= b < n ==> RowFits(secret, threshold, rows, picks, candidate, b, rows'[b])
  {
    hide RowFits, Coordinate;
    rows' := [];
    for b := 0 to n
      invariant |rows'| == b
      invariant forall c :: 0 <= c < b ==> RowFits(secret, threshold, rows, picks, candidate, c, rows'[c])
    {
      var row := FittingRow(secret, threshold, rows, picks, candidate, b);
      rows' := rows' + [row];
    }
  }

  /** Whatever threshold - 1 shares an observer holds, every secret of the right length is
      explained by exactly one choice of all the random coefficients. */
  lemma Secrecy(secret: Bytes, threshold: int, rows: seq<Bytes>, picks: seq<nat>, candidate: Bytes)
    returns (rows': seq<Bytes>)
    requires 2 <= threshold && ValidRows(rows, |secret|, threshold) && |candidate| == |secret|
    requires ValidPicks(picks) && |picks| == threshold - 1
    ensures Explains(candidate, rows', secret, threshold, rows, picks)
    ensures forall other: seq<Bytes> :: Explains(candidate, other, secret, threshold, rows, picks) ==> other == rows'
  {
    hide Mul, Xor, Eval, FromNat;
    rows' := BuildRows(secret, threshold, rows, picks, candidate, |secret|);
    forall k | 0 <= k < |picks|
      ensures ShareAt(candidate, rows', picks[k]) == ShareAt(secret, rows, picks[k])
    {
      forall b | 0 <= b < |secret|
        ensures Eval(RowPoly(candidate, rows', b), Coordinate(picks[k]))
          == Eval(RowPoly(secret, rows, b), Coordinate(picks[k]))
      {
        assert RowFits(secret, threshold, rows, picks, candidate, b, rows'[b]);
      }
    }
    forall other: seq<Bytes> | Explains(candidate, other, secret, threshold, rows, picks)
      ensures other == rows'
    {
      forall b | 0 <= b < |secret|
        ensures other[b] == rows'[b]
      {
        forall k | 0 <= k < |picks|
          ensures Eval(RowPoly(candidate, other, b), Coordinate(picks[k]))
            == Eval(RowPoly(secret, rows, b), Coordinate(picks[k]))
        {
          assert ShareAt(candidate, other, picks[k])[b + 1] == ShareAt(secret, rows, picks[k])[b + 1];
        }
        assert RowFits(secret, threshold, rows, picks, candidate, b, other[b]);
        assert RowFits(secret, threshold, rows, picks, candidate, b, rows'[b]);
        var unique := FittingRow(secret, threshold, rows, picks, candidate, b);
      }
    }
  }
}
