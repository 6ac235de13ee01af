/**
 * Conversion of the DER-encoded ECDSA signatures that Cloud KMS returns into
 * the 64-byte r||s form of IEEE P1363. `derToP1363` (keys/kms.go) and
 * `kmsDerToP1363` (keys/rotating_kms.go) are the same code and are modelled
 * once here.
 */
module Kms {
  import opened Bytes
  import opened Wrappers
  import opened KeyRing

  /** `asn1.Unmarshal` of an ECDSA-Sig-Value: the integers r and s, or a parse failure. */
  type DerParser = Bytes -> Option<(int, int)>

  /** KMS `AsymmetricSign` on a key version name and a SHA-256 digest: a DER signature, or the service's error. */
  type AsymmetricSign = (string, Bytes) -> Result<Bytes, string>

  function Abs(x: int): nat
  {
    if x < 0 then -x else x
  }

  /**
   * The outcome of packing parsed integers. `big.Int.Bytes()` keeps only the
   * magnitude. The slice expression of the first copy is invalid, and Go
   * panics, when r needs more than 32 bytes; that of the second copy when s
   * needs more than 64. An s of 33 to 64 bytes is copied over the end of
   * r's half and the buffer is returned without an error.
   */
  function P1363Of(parsed: Option<(int, int)>): (r: Result<Bytes, KeyError>)
    ensures parsed.None? ==> r == Err(ParsingDerSignature)
    ensures parsed.Some? ==>
      (r.Ok? <==> Abs(parsed.value.0) < Pow256(32) && Abs(parsed.value.1) < Pow256(64))
    ensures r.Err? ==> r.error == ParsingDerSignature || r.error == SliceOutOfRange
    ensures r.Ok? ==> |r.value| == 64
    ensures r.Ok? && Abs(parsed.value.1) < Pow256(32) ==>
      Value(r.value[..32]) == Abs(parsed.value.0) && Value(r.value[32..]) == Abs(parsed.value.1)
    ensures r.Ok? ==>
      var sb := MinimalBytes(Abs(parsed.value.1));
      |sb| <= 64 && r.value[64 - |sb|..] == sb
      && Value(r.value) == Value(r.value[..64 - |sb|]) * Pow256(|sb|) + Abs(parsed.value.1)
  {
    match parsed
    case None => Err(ParsingDerSignature)
    case Some((r, s)) =>
      var rb, sb := MinimalBytes(Abs(r)), MinimalBytes(Abs(s));
      MinimalBytesFits(Abs(r), 32);
      MinimalBytesFits(Abs(s), 64);
      if |rb| > 32 || |sb| > 64 then Err(SliceOutOfRange)
      else
        PackedValues(Abs(r), Abs(s));
        Ok(P1363Layout(rb, sb))
  }

  /** What the packed buffer says about the magnitudes of r and s. */
  lemma PackedValues(r: nat, s: nat)
    requires r < Pow256(32) && s < Pow256(64)
    ensures |MinimalBytes(r)| <= 32 && |MinimalBytes(s)| <= 64
    ensures var sb := MinimalBytes(s);
      var sig := P1363Layout(MinimalBytes(r), sb);
      && (s < Pow256(32) ==> Value(sig[..32]) == r && Value(sig[32..]) == s)
      && Value(sig) == Value(sig[..64 - |sb|]) * Pow256(|sb|) + s
  {
    MinimalBytesFits(r, 32);
    MinimalBytesFits(s, 32);
    MinimalBytesFits(s, 64);
    MinimalBytesValue(r);
    MinimalBytesValue(s);
  }

  /**
   * The packing as written accepts an s of 33 to 64 bytes without an error,
   * and the second half of the buffer then no longer holds s: s's leading
   * bytes have been copied over the end of r's half.
   */
  lemma LongSOverwritesR(r: int, s: int)
    requires 0 <= r < Pow256(32) && Pow256(32) <= s < Pow256(64)
    ensures P1363Of(Some((r, s))).Ok?
    ensures Value(P1363Of(Some((r, s))).value[32..]) != s
  {
    assert Abs(r) == r && Abs(s) == s;
    var sig := P1363Of(Some((r, s))).value;
    ValueBound(sig[32..]);
  }

  /** `derToP1363`: parse, then write r and s right-aligned into a fresh 64-byte buffer. */
  method DerToP1363(der: Bytes, parse: DerParser) returns (r: Result<Bytes, KeyError>)
    ensures r == P1363Of(parse(der))
  {
    var parsed := parse(der);
    if parsed.None? {
      return Err(ParsingDerSignature);
    }
    var rBytes := MinimalBytes(Abs(parsed.value.0));
    var sBytes := MinimalBytes(Abs(parsed.value.1));
    if |rBytes| > 32 || |sBytes| > 64 {
      return Err(SliceOutOfRange);
    }
    var sig := PackP1363(rBytes, sBytes);
    r := Ok(sig);
  }

  /**
   * What signing through KMS with key version `keyName` yields: the service's
   * error wrapped, or the converted signature. `r` is the outcome observed.
   */
  predicate SignedBy(sign: AsymmetricSign, parse: DerParser, keyName: string, data: Bytes, r: Result<Bytes, KeyError>)
  {
    match sign(keyName, data)
    case Err(e) => r == Err(Remote(e))
    case Ok(der) => r == P1363Of(parse(der))
  }

  /**
   * `KMSSigner.Sign`, `RotatingKMSSigner.signWithKey` and
   * `kmsKeyVersionSigner.Sign`, which share one body: one AsymmetricSign call
   * on the named key version, then the DER conversion.
   */
  method SignWithKeyName(sign: AsymmetricSign, parse: DerParser, keyName: string, data: Bytes)
    returns (r: Result<Bytes, KeyError>)
    ensures SignedBy(sign, parse, keyName, data, r)
    ensures r.Ok? ==> |r.value| == 64 && sign(keyName, data).Ok?
  {
    var resp := sign(keyName, data);
    if resp.Err? {
      return Err(Remote(resp.error));
    }
    r := DerToP1363(resp.value, parse);
  }
}
