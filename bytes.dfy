/**
 * Octets, unsigned big-endian integers and the fixed-width packing used
 * by every signer of the system (r||s signatures, 32-byte scalars).
 */
module Bytes {

  /** Go's `byte`. */
  type byte = b: int | 0 <= b < 256

  type Bytes = seq<byte>

  /** `make([]byte, n)`: n zero bytes. */
  function Zeros(n: nat): (z: Bytes)
    ensures |z| == n
    ensures forall i :: 0 <= i < n ==> z[i] == 0
  {
    seq(n, _ => 0)
  }

  /** 256 to the power k. */
  function Pow256(k: nat): (p: nat)
    ensures p >= 1
  {
    if k == 0 then 1 else 256 * Pow256(k - 1)
  }

  /** The unsigned integer that a big-endian byte string denotes. */
  function Value(b: Bytes): nat
  {
    if b == [] then 0 else Value(b[..|b| - 1]) * 256 + b[|b| - 1]
  }

  /**
   * `big.Int.Bytes()` of a non-negative integer: its minimal big-endian
   * encoding, empty for zero.
   */
  function MinimalBytes(n: nat): (b: Bytes)
    ensures b != [] ==> b[0] != 0
  {
    if n == 0 then [] else MinimalBytes(n / 256) + [n % 256]
  }

  lemma {:induction false} MinimalBytesValue(n: nat)
    ensures Value(MinimalBytes(n)) == n
  {
    if n != 0 {
      var b := MinimalBytes(n);
      assert b[..|b| - 1] == MinimalBytes(n / 256);
      MinimalBytesValue(n / 256);
    }
  }

  /** A non-negative integer fits in k bytes exactly when it is below 256^k. */
  lemma {:induction false} MinimalBytesFits(n: nat, k: nat)
    ensures |MinimalBytes(n)| <= k <==> n < Pow256(k)
  {
    if n != 0 && k != 0 {
      MinimalBytesFits(n / 256, k - 1);
    }
  }

  /** Leading zero bytes do not change the value. */
  lemma {:induction false} ValueLeadingZeros(k: nat, b: Bytes)
    ensures Value(Zeros(k) + b) == Value(b)
    decreases |b|, k
  {
    var z := Zeros(k) + b;
    if b == [] {
      assert z == Zeros(k);
      if k != 0 {
        assert z[..|z| - 1] == Zeros(k - 1) + [];
        ValueLeadingZeros(k - 1, []);
      }
    } else {
      assert z[..|z| - 1] == Zeros(k) + b[..|b| - 1];
      ValueLeadingZeros(k, b[..|b| - 1]);
    }
  }

  /** A big-endian value of k bytes is below 256^k. */
  lemma {:induction false} ValueBound(b: Bytes)
    ensures Value(b) < Pow256(|b|)
  {
    if b != [] {
      ValueBound(b[..|b| - 1]);
    }
  }

  /** `binary.BigEndian.AppendUint32` applied to an empty slice. */
  function Uint32BE(n: nat): (b: Bytes)
    requires n < 0x1_0000_0000
    ensures |b| == 4 && Value(b) == n
  {
    var lo1 := n / 256;
    var lo2 := lo1 / 256;
    var lo3 := lo2 / 256;
    var b: Bytes := [lo3, lo2 % 256, lo1 % 256, n % 256];
    assert Value(b[..1]) == lo3 by {
      assert b[..1][..0] == [];
    }
    assert b[..2][..1] == b[..1];
    assert Value(b[..2]) == lo2;
    assert b[..3][..2] == b[..2];
    assert Value(b[..3]) == lo1;
    assert b[..4][..3] == b[..3];
    b
  }

  /** `[]byte(s)` for a string every character of which is ASCII. */
  function Ascii(s: string): (b: Bytes)
    requires forall i :: 0 <= i < |s| ==> s[i] as int < 128
    ensures |b| == |s|
    ensures forall i :: 0 <= i < |s| ==> b[i] == s[i] as int
  {
    seq(|s|, i requires 0 <= i < |s| => s[i] as int)
  }

  /**
   * `result := make([]byte, w); copy(result[w-len(b):w], b)`: b right-aligned
   * in w bytes, zero-filled on the left.
   */
  function LeftPad(b: Bytes, w: nat): (r: Bytes)
    requires |b| <= w
    ensures |r| == w
    ensures r[w - |b|..] == b
    ensures forall i :: 0 <= i < w - |b| ==> r[i] == 0
    ensures Value(r) == Value(b)
  {
    ValueLeadingZeros(w - |b|, b);
    Zeros(w - |b|) + b
  }

  /**
   * Go's `copy(dst[at:], src)` when the destination has room for all of src:
   * the bytes of src replace dst[at..at+|src|] and nothing else changes.
   */
  method CopyInto(dst: array<byte>, at: nat, src: Bytes)
    requires at + |src| <= dst.Length
    modifies dst
    ensures dst[..] == old(dst[..at]) + src + old(dst[at + |src|..])
  {
    var i := 0;
    while i < |src|
      invariant 0 <= i <= |src|
      invariant forall k :: 0 <= k < at ==> dst[k] == old(dst[k])
      invariant forall k :: 0 <= k < i ==> dst[at + k] == src[k]
      invariant forall k :: at + i <= k < dst.Length ==> dst[k] == old(dst[k])
    {
      dst[at + i] := src[i];
      i := i + 1;
    }
    assert dst[..] == old(dst[..at]) + src + old(dst[at + |src|..]) by {
      var want := old(dst[..at]) + src + old(dst[at + |src|..]);
      assert |want| == dst.Length;
      forall k | 0 <= k < dst.Length ensures dst[k] == want[k] {
        if k < at {
        } else if k < at + |src| {
          assert dst[at + (k - at)] == src[k - at];
        }
      }
    }
  }

  /** The big-endian value of a concatenation. */
  lemma {:induction false} ValueAppend(a: Bytes, b: Bytes)
    ensures Value(a + b) == Value(a) * Pow256(|b|) + Value(b)
    decreases |b|
  {
    if b == [] {
      assert a + b == a;
    } else {
      var c := a + b;
      var front := b[..|b| - 1];
      assert c[..|c| - 1] == a + front;
      ValueAppend(a, front);
      assert Value(c) == Value(a + front) * 256 + b[|b| - 1];
      assert Pow256(|b|) == 256 * Pow256(|front|);
      Regroup(Value(a), Pow256(|front|), Value(front), b[|b| - 1]);
    }
  }

  lemma Regroup(x: int, p: int, f: int, l: int)
    ensures (x * p + f) * 256 + l == x * (256 * p) + (f * 256 + l)
  {
  }

  /**
   * The buffer of the IEEE P1363 packing as the signers write it: 64 zero
   * bytes, then `copy(result[32-len(r):32], r)`, then
   * `copy(result[64-len(s):64], s)`. Both slice expressions are valid
   * exactly when |r| <= 32 and |s| <= 64. An s longer than 32 bytes
   * overwrites the end of r's half.
   */
  function P1363Layout(r: Bytes, s: Bytes): (sig: Bytes)
    requires |r| <= 32 && |s| <= 64
    ensures |sig| == 64
    ensures sig[64 - |s|..] == s
    ensures |s| <= 32 ==> sig == LeftPad(r, 32) + LeftPad(s, 32)
    ensures |s| <= 32 ==> Value(sig[..32]) == Value(r) && Value(sig[32..]) == Value(s)
    ensures |s| > 32 ==> sig[..64 - |s|] == LeftPad(r, 32)[..64 - |s|]
    ensures Value(sig) == Value(sig[..64 - |s|]) * Pow256(|s|) + Value(s)
  {
    var first := LeftPad(r, 32) + Zeros(32);
    var sig := first[..64 - |s|] + s;
    assert sig[..64 - |s|] == first[..64 - |s|];
    ValueAppend(sig[..64 - |s|], s);
    assert sig == sig[..64 - |s|] + s;
    assert |s| <= 32 ==> sig[..32] == LeftPad(r, 32) && sig[32..] == LeftPad(s, 32) by {
      if |s| <= 32 {
        assert first[..64 - |s|] == LeftPad(r, 32) + Zeros(32 - |s|);
        assert sig == LeftPad(r, 32) + LeftPad(s, 32);
      }
    }
    sig
  }

  /**
   * The P1363 packing step by step: a fresh 64-byte buffer and the two
   * `copy` calls, under the condition that makes both slice expressions valid.
   */
  method PackP1363(r: Bytes, s: Bytes) returns (sig: Bytes)
    requires |r| <= 32 && |s| <= 64
    ensures sig == P1363Layout(r, s)
  {
    var buf := new byte[64](_ => 0);
    assert buf[..] == Zeros(64);
    CopyInto(buf, 32 - |r|, r);
    assert buf[..] == LeftPad(r, 32) + Zeros(32);
    CopyInto(buf, 64 - |s|, s);
    sig := buf[..];
  }

  /**
   * `padded := make([]byte, w); copy(padded[w-len(b):], b)`: a fresh w-byte
   * buffer holding b right-aligned.
   */
  method PadTo(b: Bytes, w: nat) returns (padded: Bytes)
    requires |b| <= w
    ensures padded == LeftPad(b, w)
    ensures |padded| == w && Value(padded) == Value(b)
  {
    var buf := new byte[w](_ => 0);
    assert buf[..] == Zeros(w);
    CopyInto(buf, w - |b|, b);
    padded := buf[..];
  }
}
