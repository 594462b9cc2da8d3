/** Overwriting key and share buffers once they are no longer needed. */
module Wiping {
  import opened Gf256

  /** A buffer of its own for some bytes. */
  method Buffer(s: seq<byte>) returns (b: array<byte>)
    ensures fresh(b) && b[..] == s
  {
    b := new byte[|s|](k requires 0 <= k < |s| => s[k]);
  }

  ghost predicate Wiped(b: array<byte>)
    reads b
  {
    forall i :: 0 <= i < b.Length ==> b[i] == ZERO
  }

  /** Every byte of a wiped buffer is the zero byte. */
  lemma WipedIffZeros(b: array<byte>)
    ensures Wiped(b) <==> b[..] == seq(b.Length, _ => Byte(false, false, false, false, false, false, false, false))
  {
    if b[..] == seq(b.Length, _ => Byte(false, false, false, false, false, false, false, false)) {
      assert forall i :: 0 <= i < b.Length ==> b[i] == b[..][i];
    }
  }

  method Wipe(b: array<byte>)
    modifies b
    ensures Wiped(b)
    ensures forall i :: 0 <= i < b.Length ==> b[i] == ZERO
  {
    for i := 0 to b.Length
      invariant forall j :: 0 <= j < i ==> b[j] == ZERO
    {
      b[i] := ZERO;
    }
  }

  /** Wipes every buffer of a list. */
  method WipeAll(bs: seq<array<byte>>)
    modifies bs
    ensures forall k :: 0 <= k < |bs| ==> Wiped(bs[k])
  {
    for k := 0 to |bs|
      invariant forall l :: 0 <= l < k ==> Wiped(bs[l])
    {
      Wipe(bs[k]);
    }
  }
}
