/** Threshold sharing of a byte string: one random polynomial per byte. */
module Shamir {
  import opened Wrappers
  import opened Gf256
  import opened Generator
  import opened GfTables
  import opened Polynomial
  import opened Lagrange

  type Bytes = seq<byte>

  datatype Error =
    | ThresholdTooSmall | SharesBelowThreshold | TooManyShares | EmptySecret | NoEntropy
    | TooFewShares | MalformedShare | MismatchedLengths | ZeroCoordinate | DuplicateCoordinate

  // --- What sharing computes ---

  /** One row of coefficients per secret byte, `threshold - 1` of them. */
  ghost predicate ValidRows(rows: seq<Bytes>, length: nat, threshold: int) {
    |rows| == length && forall b :: 0 <= b < length ==> |rows[b]| == threshold - 1
  }

  function RowPoly(secret: Bytes, rows: seq<Bytes>, b: nat): Poly
    requires b < |secret| && b < |rows|
  {
    [secret[b]] + rows[b]
  }

  function Coordinate(i: nat): byte
    requires i < 255
  {
    FromNat(i + 1)
  }

  /** The first n values of the share with index i, after its x-coordinate. */
  function SharePrefix(secret: Bytes, rows: seq<Bytes>, i: nat, n: nat): (s: Bytes)
    requires n <= |secret| && n <= |rows| && i < 255
    ensures |s| == n + 1
  {
    [Coordinate(i)] + seq(n, b requires 0 <= b < n => Eval(RowPoly(secret, rows, b), Coordinate(i)))
  }

  /** The share with index i: its x-coordinate, then one value per secret byte. */
  function ShareAt(secret: Bytes, rows: seq<Bytes>, i: nat): (s: Bytes)
    requires |secret| <= |rows| && i < 255
    ensures |s| == |secret| + 1
  {
    SharePrefix(secret, rows, i, |secret|)
  }

  // --- What recombination computes ---

  /** The x-coordinates of the first n shares. */
  function Xs(shares: seq<Bytes>): (xs: Bytes)
    requires forall i :: 0 <= i < |shares| ==> |shares[i]| > 0
    ensures |xs| == |shares|
  {
    seq(|shares|, i requires 0 <= i < |shares| => shares[i][0])
  }

  function Ys(shares: seq<Bytes>, b: nat): (ys: Bytes)
    requires forall i :: 0 <= i < |shares| ==> |shares[i]| > b + 1
    ensures |ys| == |shares|
  {
    seq(|shares|, i requires 0 <= i < |shares| => shares[i][b + 1])
  }

  /** The complaint about share i, given the shares before it. */
  function ShareError(shares: seq<Bytes>, i: nat): (e: Option<Error>)
    requires i < |shares|
  {
    if |shares[i]| != |shares[0]| then Some(MismatchedLengths)
    else if |shares[i]| == 0 || shares[i][0] == ZERO then Some(ZeroCoordinate)
    else if exists j :: 0 <= j < i && |shares[j]| > 0 && shares[j][0] == shares[i][0] then Some(DuplicateCoordinate)
    else None
  }

  /** The first complaint about any share from index i on. */
  function FirstError(shares: seq<Bytes>, i: nat): Option<Error>
    requires i <= |shares|
    decreases |shares| - i
  {
    if i == |shares| then None
    else if ShareError(shares, i).Some? then ShareError(shares, i)
    else FirstError(shares, i + 1)
  }

  function CombineError(shares: seq<Bytes>): Option<Error> {
    if |shares| < 2 then Some(TooFewShares)
    else if |shares[0]| <= 1 then Some(MalformedShare)
    else FirstError(shares, 0)
  }

  lemma {:induction false} NoErrorFrom(shares: seq<Bytes>, i: nat)
    requires i <= |shares| && FirstError(shares, i) == None
    ensures forall k :: i <= k < |shares| ==> ShareError(shares, k) == None
    decreases |shares| - i
  {
    if i < |shares| {
      NoErrorFrom(shares, i + 1);
    }
  }

  /** At least two shares of one length above 1, with distinct nonzero coordinates. */
  predicate WellFormed(shares: seq<Bytes>) {
    && |shares| >= 2 && |shares[0]| >= 2
    && (forall i :: 0 <= i < |shares| ==> |shares[i]| == |shares[0]|)
    && Distinct(Xs(shares))
    && (forall i :: 0 <= i < |shares| ==> shares[i][0] != ZERO)
  }

  lemma {:induction false} NoError(shares: seq<Bytes>, i: nat)
    requires i <= |shares|
    requires forall k :: i <= k < |shares| ==> ShareError(shares, k) == None
    ensures FirstError(shares, i) == None
    decreases |shares| - i
  {
    if i < |shares| {
      NoError(shares, i + 1);
    }
  }

  /** The shares before i are as they should be, and share i is not. */
  ghost predicate FirstBad(shares: seq<Bytes>, i: nat) {
    && 0 < |shares| && i < |shares|
    && (forall j :: 0 <= j < i ==> |shares[j]| == |shares[0]| > 0 && shares[j][0] != ZERO)
    && (forall j, k :: 0 <= j < k < i && |shares[j]| > 0 && |shares[k]| > 0 ==> shares[j][0] != shares[k][0])
    && (|shares[i]| == |shares[0]| > 0 && shares[i][0] != ZERO ==>
          exists j :: 0 <= j < i && |shares[j]| > 0 && shares[j][0] == shares[i][0])
  }

  lemma {:induction false} FirstErrorFound(shares: seq<Bytes>, i: nat) returns (k: nat)
    requires i <= |shares| && FirstError(shares, i).Some?
    ensures i <= k < |shares| && FirstError(shares, i) == ShareError(shares, k)
    ensures forall j :: i <= j < k ==> ShareError(shares, j) == None
    decreases |shares| - i
  {
    if ShareError(shares, i).Some? {
      k := i;
    } else {
      k := FirstErrorFound(shares, i + 1);
    }
  }

  /** What is complained of: too few shares, a first one that is too short, or else the first share
      that is of another length, has coordinate 0 or repeats one, in that order. */
  lemma ComplaintIsFirst(shares: seq<Bytes>) returns (i: nat)
    ensures |shares| < 2 ==> CombineError(shares) == Some(TooFewShares)
    ensures |shares| >= 2 && |shares[0]| < 2 ==> CombineError(shares) == Some(MalformedShare)
    ensures |shares| >= 2 && |shares[0]| >= 2 && CombineError(shares).Some? ==>
      && FirstBad(shares, i)
      && CombineError(shares).value
           == if |shares[i]| != |shares[0]| then MismatchedLengths
              else if shares[i][0] == ZERO then ZeroCoordinate else DuplicateCoordinate
  {
    i := 0;
    if |shares| >= 2 && |shares[0]| >= 2 && CombineError(shares).Some? {
      i := FirstErrorFound(shares, 0);
      forall j | 0 <= j < i
        ensures |shares[j]| == |shares[0]| > 0 && shares[j][0] != ZERO
        ensures forall k :: 0 <= k < j && |shares[k]| > 0 ==> shares[k][0] != shares[j][0]
      {
        assert ShareError(shares, j) == None;
      }
    }
  }

  /** The checks accept exactly the well-formed share lists. */
  lemma AcceptedIffWellFormed(shares: seq<Bytes>)
    ensures CombineError(shares) == None <==> WellFormed(shares)
  {
    if CombineError(shares) == None {
      NoErrorFrom(shares, 0);
      forall i | 0 <= i < |shares|
        ensures |shares[i]| == |shares[0]| && shares[i][0] != ZERO
        ensures forall j :: 0 <= j < i && |shares[j]| > 0 ==> shares[j][0] != shares[i][0]
      {
        assert ShareError(shares, i) == None;
      }
    }
    if WellFormed(shares) {
      forall i | 0 <= i < |shares|
        ensures ShareError(shares, i) == None
      {
        assert forall j :: 0 <= j < |shares| ==> Xs(shares)[j] == shares[j][0];
      }
      NoError(shares, 0);
    }
  }

  /** Byte b of the recombined secret. */
  ghost function CombinedByte(shares: seq<Bytes>, b: nat): byte
    requires WellFormed(shares) && b < |shares[0]| - 1
  {
    WeightedSum(Xs(shares), Ys(shares, b), |shares|)
  }

  ghost function CombinedBytes(shares: seq<Bytes>): (s: Bytes)
    requires WellFormed(shares)
    ensures |s| == |shares[0]| - 1
  {
    seq(|shares[0]| - 1, b requires 0 <= b < |shares[0]| - 1 => CombinedByte(shares, b))
  }

  ghost function Combined(shares: seq<Bytes>): Result<Bytes, Error> {
    match CombineError(shares)
    case Some(e) => Err(e)
    case None =>
      AcceptedIffWellFormed(shares);
      Ok(CombinedBytes(shares))
  }

  // --- The operations ---

  lemma EvalConstant(c: byte, x: byte)
    ensures Eval([c], x) == c
  {
    hide Mul, Xor;
    MulComm(x, ZERO);
    MulZeroLeft(x);
    XorSelf(c);
  }

  /** Horner's rule, from the top coefficient down. */
  method EvalPoly(t: Tables, coeffs: array<byte>, x: byte) returns (result: byte)
    requires t.Valid() && coeffs.Length > 0
    ensures result == Eval(coeffs[..], x)
  {
    hide Mul, Xor;
    var n := coeffs.Length;
    result := coeffs[n - 1];
    EvalConstant(result, x);
    assert coeffs[n - 1..] == [result];
    for i := n - 1 downto 0
      invariant result == Eval(coeffs[i..], x)
    {
      var product := t.GfMul(result, x);
      MulComm(result, x);
      XorComm(product, coeffs[i]);
      assert coeffs[i..][1..] == coeffs[i + 1..];
      result := Xor(product, coeffs[i]);
    }
    assert coeffs[0..] == coeffs[..];
  }

  /** The share buffers, with their x-coordinates filled in. */
  method NewShares(shares: nat, length: nat) returns (out: seq<array<byte>>)
    requires shares <= 255
    ensures |out| == shares
    ensures forall i :: 0 <= i < shares ==> fresh(out[i]) && out[i].Length == length + 1 && out[i][0] == Coordinate(i)
    ensures forall i, j :: 0 <= i < j < shares ==> out[i] != out[j]
  {
    hide FromNat;
    out := [];
    for i := 0 to shares
      invariant |out| == i
      invariant forall k :: 0 <= k < i ==> fresh(out[k]) && out[k].Length == length + 1 && out[k][0] == Coordinate(k)
      invariant forall k, l :: 0 <= k < l < i ==> out[k] != out[l]
    {
      var share := new byte[length + 1];
      share[0] := Coordinate(i);
      out := out + [share];
    }
  }

  /** Every share buffer holds its x-coordinate and the first n values. */
  ghost predicate Filled(out: seq<array<byte>>, secret: Bytes, rows: seq<Bytes>, n: nat)
    requires n <= |secret| && n <= |rows| && |out| <= 255
    reads out
  {
    forall i :: 0 <= i < |out| ==> out[i].Length == |secret| + 1 && out[i][..n + 1] == SharePrefix(secret, rows, i, n)
  }

  /** The next value of one share. */
  method FillOne(t: Tables, share: array<byte>, coeffs: array<byte>, ghost secret: Bytes, ghost rows: seq<Bytes>,
                 i: nat, b: nat)
    requires t.Valid() && i < 255 && b < |secret| && b < |rows|
    requires share != coeffs && share != t.expTable && share != t.logTable
    requires coeffs[..] == RowPoly(secret, rows, b)
    requires share.Length == |secret| + 1 && share[..b + 1] == SharePrefix(secret, rows, i, b)
    modifies share
    ensures share[..b + 2] == SharePrefix(secret, rows, i, b + 1)
  {
    hide Mul, Xor, Eval, FromNat;
    ghost var before := share[..b + 1];
    share[b + 1] := EvalPoly(t, coeffs, Coordinate(i));
    assert share[..b + 2] == before + [share[b + 1]];
    assert SharePrefix(secret, rows, i, b + 1) == SharePrefix(secret, rows, i, b) + [share[b + 1]];
  }

  /** The inner loop of Split: the next value of every share. */
  method FillColumn(t: Tables, out: seq<array<byte>>, coeffs: array<byte>, ghost secret: Bytes, ghost rows: seq<Bytes>,
                    b: nat)
    requires t.Valid() && |out| <= 255
    requires forall i :: 0 <= i < |out| ==> out[i] != coeffs && out[i] != t.expTable && out[i] != t.logTable
    requires forall i, j :: 0 <= i < j < |out| ==> out[i] != out[j]
    requires b < |secret| && b < |rows| && coeffs[..] == RowPoly(secret, rows, b)
    requires Filled(out, secret, rows, b)
    modifies out
    ensures Filled(out, secret, rows, b + 1)
  {
    hide Mul, Xor, Eval, FromNat, SharePrefix;
    for i := 0 to |out|
      invariant t.Valid() && coeffs[..] == RowPoly(secret, rows, b)
      invariant forall k :: 0 <= k < |out| ==> out[k].Length == |secret| + 1
      invariant forall k :: 0 <= k < i ==> out[k][..b + 2] == SharePrefix(secret, rows, k, b + 1)
      invariant forall k :: i <= k < |out| ==> out[k][..b + 1] == SharePrefix(secret, rows, k, b)
    {
      FillOne(t, out[i], coeffs, secret, rows, i, b);
    }
  }

  /** One row of coefficients: the secret byte, then random ones. */
  method FillCoefficients(coeffs: array<byte>, constant: byte, random: Bytes)
    requires coeffs.Length == |random| + 1
    modifies coeffs
    ensures coeffs[..] == [constant] + random
  {
    coeffs[0] := constant;
    forall k | 1 <= k < coeffs.Length {
      coeffs[k] := random[k - 1];
    }
  }

  lemma PrefixOfNothing(secret: Bytes, rows: seq<Bytes>, i: nat)
    requires i < 255
    ensures SharePrefix(secret, rows, i, 0) == [Coordinate(i)]
  {
    hide Eval, FromNat;
  }

  lemma NothingFilled(out: seq<array<byte>>, secret: Bytes, rows: seq<Bytes>)
    requires |out| <= 255
    requires forall i :: 0 <= i < |out| ==> out[i].Length == |secret| + 1 && out[i][0] == Coordinate(i)
    ensures Filled(out, secret, rows, 0)
  {
    hide SharePrefix, FromNat;
    forall i | 0 <= i < |out|
      ensures out[i][..1] == SharePrefix(secret, rows, i, 0)
    {
      PrefixOfNothing(secret, rows, i);
    }
  }

  /** When every column is filled the buffers hold the shares. */
  lemma AllFilled(out: seq<array<byte>>, secret: Bytes, rows: seq<Bytes>)
    requires |secret| <= |rows| && |out| <= 255 && Filled(out, secret, rows, |secret|)
    ensures forall i :: 0 <= i < |out| ==> out[i][..] == ShareAt(secret, rows, i)
  {
    hide SharePrefix;
    assert forall i :: 0 <= i < |out| ==> out[i][..] == out[i][..|secret| + 1];
  }

  /** Splits a secret. `entropy[b]` is what the b-th read of the random source delivers; a read
      past the end of `entropy` fails. */
  method Split(t: Tables, secret: Bytes, shares: int, threshold: int, entropy: seq<Bytes>)
    returns (r: Result<seq<array<byte>>, Error>)
    requires t.Valid()
    requires forall b :: 0 <= b < |entropy| ==> |entropy[b]| == threshold - 1
    ensures r.Ok? <==> 2 <= threshold <= shares <= 255 && secret != [] && |entropy| >= |secret|
    ensures threshold < 2 ==> r == Err(ThresholdTooSmall)
    ensures 2 <= threshold && shares < threshold ==> r == Err(SharesBelowThreshold)
    ensures 2 <= threshold <= shares && shares > 255 ==> r == Err(TooManyShares)
    ensures 2 <= threshold <= shares <= 255 && secret == [] ==> r == Err(EmptySecret)
    ensures 2 <= threshold <= shares <= 255 && secret != [] && |entropy| < |secret| ==> r == Err(NoEntropy)
    ensures r.Ok? ==> |r.value| == shares <= 255
    ensures r.Ok? ==> forall i :: 0 <= i < shares ==> fresh(r.value[i]) && r.value[i][..] == ShareAt(secret, entropy, i)
    ensures r.Ok? ==> forall i, j :: 0 <= i < j < shares ==> r.value[i] != r.value[j]
  {
    hide Mul, Xor, Eval, FromNat, SharePrefix, ShareAt, Filled;
    if threshold < 2 {
      return Err(ThresholdTooSmall);
    }
    if shares < threshold {
      return Err(SharesBelowThreshold);
    }
    if shares > 255 {
      return Err(TooManyShares);
    }
    if |secret| == 0 {
      return Err(EmptySecret);
    }
    var out := NewShares(shares, |secret|);
    NothingFilled(out, secret, entropy);
    var coeffs := new byte[threshold];
    for b := 0 to |secret|
      invariant b <= |entropy|
      invariant Filled(out, secret, entropy, b)
    {
      if b == |entropy| {
        return Err(NoEntropy);
      }
      FillCoefficients(coeffs, secret[b], entropy[b]);
      FillColumn(t, out, coeffs, secret, entropy, b);
    }
    AllFilled(out, secret, entropy);
    r := Ok(out);
  }

  ghost function Contents(shares: seq<array<byte>>): (c: seq<Bytes>)
    reads shares
    ensures |c| == |shares|
  {
    seq(|shares|, i requires 0 <= i < |shares| reads shares => shares[i][..])
  }

  /** The checks on one share, given the coordinates of those before it. */
  method CheckShare(shares: seq<array<byte>>, i: nat, seen: set<byte>) returns (e: Option<Error>)
    requires i < |shares|
    requires forall x :: x in seen <==>
      exists j :: 0 <= j < i && |Contents(shares)[j]| > 0 && Contents(shares)[j][0] == x
    ensures e == ShareError(Contents(shares), i)
    ensures e.None? ==> shares[i].Length == shares[0].Length && shares[i].Length > 0
  {
    ghost var c := Contents(shares);
    var s := shares[i];
    assert s[..] == c[i] && shares[0][..] == c[0];
    if s.Length != shares[0].Length {
      return Some(MismatchedLengths);
    }
    if s.Length == 0 || s[0] == ZERO {
      return Some(ZeroCoordinate);
    }
    if s[0] in seen {
      return Some(DuplicateCoordinate);
    }
    e := None;
  }

  /** The checks on the shares, in order; the coordinates are collected on the way. */
  method CheckShares(shares: seq<array<byte>>, xs: array<byte>) returns (e: Option<Error>)
    requires |shares| >= 2 && shares[0].Length >= 2 && xs.Length == |shares| && xs !in shares
    modifies xs
    ensures e == CombineError(Contents(shares))
    ensures e.None? ==> WellFormed(Contents(shares)) && xs[..] == Xs(Contents(shares))
  {
    AcceptedIffWellFormed(Contents(shares));
    hide WellFormed, ShareError;
    ghost var c := Contents(shares);
    assert |c[0]| == shares[0].Length;
    var seen: set<byte> := {};
    for i := 0 to |shares|
      invariant Contents(shares) == c
      invariant FirstError(c, 0) == FirstError(c, i)
      invariant forall j :: 0 <= j < i ==> |c[j]| == |c[0]| && xs[j] == c[j][0]
      invariant forall x :: x in seen <==> exists j :: 0 <= j < i && |c[j]| > 0 && c[j][0] == x
    {
      e := CheckShare(shares, i, seen);
      if e.Some? {
        return;
      }
      assert c[i] == shares[i][..];
      seen := seen + {shares[i][0]};
      xs[i] := shares[i][0];
    }
    e := None;
  }

  /** The numerator and denominator of one weight. */
  method WeightParts(t: Tables, xs: array<byte>, i: nat) returns (num: byte, den: byte)
    requires t.Valid() && i < xs.Length && Distinct(xs[..])
    ensures num == ProductAt(xs[..], i, ZERO, xs.Length)
    ensures den == Denominator(xs[..], i)
  {
    hide Mul, Xor;
    num, den := ONE, ONE;
    for j := 0 to xs.Length
      invariant num == ProductAt(xs[..], i, ZERO, j)
      invariant den == ProductAt(xs[..], i, xs[i], j)
    {
      if i == j {
        continue;
      }
      XorSelf(xs[j]);
      num := t.GfMul(num, xs[j]);
      den := t.GfMul(den, Xor(xs[i], xs[j]));
    }
  }

  /** The weight of one share; the division never meets a zero divisor. */
  method Weight(t: Tables, xs: array<byte>, i: nat) returns (w: byte)
    requires t.Valid() && i < xs.Length && Distinct(xs[..])
    ensures w == Quotient(ProductAt(xs[..], i, ZERO, xs.Length), Denominator(xs[..], i))
  {
    hide Mul, Xor, ProductAt, Quotient;
    var num, den := WeightParts(t, xs, i);
    var q := t.GfDiv(num, den);
    assert q.Quo?;
    QuotientUnique(num, den, q.value);
    w := q.value;
  }

  /** One byte of the result. */
  method CombineByte(t: Tables, shares: seq<array<byte>>, xs: array<byte>, b: nat) returns (acc: byte)
    requires t.Valid() && WellFormed(Contents(shares))
    requires xs[..] == Xs(Contents(shares)) && b < shares[0].Length - 1
    ensures acc == CombinedByte(Contents(shares), b)
  {
    hide Mul, Xor, ProductAt, Quotient, Denominator;
    ghost var c := Contents(shares);
    acc := ZERO;
    for i := 0 to |shares|
      invariant acc == WeightedSum(Xs(c), Ys(c, b), i)
    {
      assert shares[i][..] == c[i];
      var yi := shares[i][b + 1];
      var weight := Weight(t, xs, i);
      var term := t.GfMul(yi, weight);
      acc := Xor(acc, term);
    }
  }

  lemma WellFormedLengths(shares: seq<array<byte>>)
    requires WellFormed(Contents(shares))
    ensures |shares| >= 2 && |Contents(shares)| >= 2 && |Contents(shares)[0]| == shares[0].Length >= 2
  {
    assert Contents(shares)[0] == shares[0][..];
  }

  lemma CombinedBytesAre(c: seq<Bytes>, s: Bytes)
    requires WellFormed(c) && |s| == |c[0]| - 1
    requires forall k :: 0 <= k < |s| ==> s[k] == CombinedByte(c, k)
    ensures s == CombinedBytes(c)
  {
  }

  /** The loop over the secret's bytes. */
  method CombineBytes(t: Tables, shares: seq<array<byte>>, xs: array<byte>) returns (secret: array<byte>)
    requires t.Valid() && WellFormed(Contents(shares)) && xs[..] == Xs(Contents(shares))
    ensures fresh(secret) && secret[..] == CombinedBytes(Contents(shares))
  {
    hide *;
    ghost var c := Contents(shares);
    WellFormedLengths(shares);
    secret := new byte[shares[0].Length - 1];
    for b := 0 to secret.Length
      invariant Contents(shares) == c
      invariant forall k :: 0 <= k < b ==> secret[k] == CombinedByte(c, k)
    {
      var v := CombineByte(t, shares, xs, b);
      secret[b] := v;
    }
    CombinedBytesAre(c, secret[..]);
  }

  /** Recombines shares by interpolation at 0. */
  method Combine(t: Tables, shares: seq<array<byte>>) returns (r: Result<array<byte>, Error>)
    requires t.Valid()
    ensures Combined(Contents(shares)).Err? ==> r == Err(Combined(Contents(shares)).error)
    ensures Combined(Contents(shares)).Ok? ==>
      r.Ok? && fresh(r.value) && r.value[..] == Combined(Contents(shares)).value
  {
    hide WellFormed, CombinedBytes, FirstError;
    ghost var c := Contents(shares);
    if |shares| < 2 {
      return Err(TooFewShares);
    }
    assert |c[0]| == shares[0].Length;
    var secretLen := shares[0].Length - 1;
    if secretLen <= 0 {
      return Err(MalformedShare);
    }
    var xs := new byte[|shares|];
    var e := CheckShares(shares, xs);
    if e.Some? {
      return Err(e.value);
    }
    var secret := CombineBytes(t, shares, xs);
    r := Ok(secret);
  }
}
