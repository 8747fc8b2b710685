/** PKCS#7 padding (section 6.3 of RFC 5652) as the test helper
    `createExtraDataContent` applies it before CBC encryption, the all-zero
    IV it uses, and the matching removal the decryption side performs. */
module Pkcs7 {
  import opened Wrappers
  import opened GoStrings

  /** a * k grows with k: the one fact about multiplication by a variable
      block size the proofs below need. */
  lemma {:induction false} MulAtLeast(a: int, k: int)
    requires a > 0 && k >= 1
    ensures a * k >= a
    decreases k
  {
    if k > 1 {
      MulAtLeast(a, k - 1);
      assert a * k == a * (k - 1) + a;
    }
  }

  /** Euclidean division has a unique quotient and remainder. */
  lemma DivModUnique(n: int, d: int, q: int, r: int)
    requires d > 0 && n == d * q + r && 0 <= r < d
    ensures n / d == q && n % d == r
  {
    var k := n / d - q;
    assert d * (n / d) + n % d == n;
    assert d * k == r - n % d by {
      assert d * k == d * (n / d) - d * q;
    }
    if k > 0 {
      MulAtLeast(d, k);
    } else if k < 0 {
      MulAtLeast(d, -k);
    }
  }

  /** `blockSize - len % blockSize`: never zero, a whole block when the
      input is already aligned. */
  function PadLength(n: nat, blockSize: nat): (p: nat)
    requires 0 < blockSize
    ensures 1 <= p <= blockSize
    ensures (n + p) % blockSize == 0
    ensures n % blockSize == 0 ==> p == blockSize
  {
    var q := n / blockSize;
    assert n == blockSize * q + n % blockSize;
    DivModUnique(n + (blockSize - n % blockSize), blockSize, q + 1, 0);
    blockSize - n % blockSize
  }

  /** `append(out, bytes.Repeat([]byte{byte(padLength)}, padLength)...)`.
      The block size is at most 255, so `byte(padLength)` does not wrap. */
  function Pad(data: seq<byte>, blockSize: nat): (padded: seq<byte>)
    requires 0 < blockSize < 256
    ensures |padded| % blockSize == 0 && |padded| > |data|
    ensures |padded| - |data| == PadLength(|data|, blockSize)
    ensures padded[..|data|] == data
    ensures forall i :: |data| <= i < |padded| ==> padded[i] == |padded| - |data|
  {
    var p := PadLength(|data|, blockSize);
    data + seq(p, _ => p)
  }

  /** `make([]byte, blockSize)`: the IV the helper encrypts under. */
  function ZeroIV(blockSize: nat): (iv: seq<byte>)
    ensures |iv| == blockSize
    ensures forall i :: 0 <= i < |iv| ==> iv[i] == 0
  {
    seq(blockSize, _ => 0)
  }

  /** Removal: the last byte p declares the pad length; the input must be a
      non-empty whole number of blocks, 1 <= p <= blockSize, and the last p
      bytes must all equal p. None is the padding error. */
  function Unpad(data: seq<byte>, blockSize: nat): (r: Option<seq<byte>>)
    requires 0 < blockSize
    ensures r.Some? ==> |data| > 0 && |data| % blockSize == 0
    ensures r.Some? ==> 1 <= |data| - |r.value| <= blockSize && r.value == data[..|r.value|]
    ensures r.Some? ==> forall i :: |r.value| <= i < |data| ==> data[i] == |data| - |r.value|
    ensures |data| == 0 || |data| % blockSize != 0 ==> r.None?
  {
    if |data| == 0 || |data| % blockSize != 0 then None
    else
      var p := data[|data| - 1];
      if 1 <= p <= blockSize && forall i :: |data| - p <= i < |data| ==> data[i] == p then
        Some(data[..|data| - p])
      else None
  }

  /** Removal undoes padding. */
  lemma UnpadPad(data: seq<byte>, blockSize: nat)
    requires 0 < blockSize < 256
    ensures Unpad(Pad(data, blockSize), blockSize) == Some(data)
  {
    var padded := Pad(data, blockSize);
    assert padded[|padded| - 1] == |padded| - |data|;
  }

  /** Removing p bytes, 1 <= p <= blockSize, from a whole number of blocks
      leaves text that pads by exactly p. */
  lemma PadLengthBelowBoundary(n: nat, blockSize: nat, p: nat)
    requires 0 < blockSize && n % blockSize == 0 && n > 0 && 1 <= p <= blockSize
    ensures p <= n && PadLength(n - p, blockSize) == p
  {
    var k := n / blockSize;
    assert n == blockSize * k;
    assert k >= 1;
    MulAtLeast(blockSize, k);
    assert blockSize * k == blockSize * (k - 1) + blockSize;
    if p == blockSize {
      DivModUnique(n - p, blockSize, k - 1, 0);
    } else {
      DivModUnique(n - p, blockSize, k - 1, blockSize - p);
    }
  }

  /** Removal accepts only padded text: what it returns pads back to its input. */
  lemma PadUnpad(data: seq<byte>, blockSize: nat)
    requires 0 < blockSize < 256
    requires Unpad(data, blockSize).Some?
    ensures Pad(Unpad(data, blockSize).value, blockSize) == data
  {
    var p := data[|data| - 1];
    PadLengthBelowBoundary(|data|, blockSize, p);
    var x := data[..|data| - p];
    var padded := Pad(x, blockSize);
    assert |padded| == |data|;
    forall i | 0 <= i < |data|
      ensures padded[i] == data[i]
    {
      if i < |x| {
        assert padded[i] == padded[..|x|][i];
      }
    }
  }
}
