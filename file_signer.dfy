/**
 * `FileSigner`: a P-256 key pair held in memory, loaded from a 32-byte
 * base64url private scalar, signing locally and packing r||s like KMS.
 */
module FileSigner {
  import opened Bytes
  import opened Wrappers
  import opened Base64Url
  import opened KeyRing
  import opened Kms

  /** `ScalarBaseMult` followed by `elliptic.Marshal`: the uncompressed public key of a private scalar. */
  type PublicKeyOf = Bytes -> Bytes

  /** `ecdsa.Sign` with a private scalar over a digest: the integers r and s, or an error. */
  type EcdsaSign = (nat, Bytes) -> Result<(nat, nat), string>

  /** The signer's private scalar D and its uncompressed public key. */
  datatype Signer = Signer(privateKey: nat, publicKey: Bytes)

  datatype LoadError =
    | DecodingPrivateKey               // "decoding private key: ..."
    | WrongPrivateKeyLength(got: nat)  // "private key must be 32 bytes, got %d"

  /**
   * `NewFileSignerFromBase64`: the base64url text must decode to exactly 32
   * bytes, read as the big-endian scalar D.
   */
  function NewFileSignerFromBase64(privateKeyB64: string, publicKeyOf: PublicKeyOf): (r: Result<Signer, LoadError>)
    ensures Decode(privateKeyB64).Err? ==> r == Err(DecodingPrivateKey)
    ensures Decode(privateKeyB64).Ok? && |Decode(privateKeyB64).value| != 32 ==>
              r == Err(WrongPrivateKeyLength(|Decode(privateKeyB64).value|))
    ensures r.Ok? <==> Decode(privateKeyB64).Ok? && |Decode(privateKeyB64).value| == 32
    ensures r.Ok? ==> (r.value.privateKey < Pow256(32)
                       && PaddedScalar(r.value.privateKey) == Decode(privateKeyB64).value
                       && r.value.publicKey == publicKeyOf(Decode(privateKeyB64).value))
  {
    var decoded := Decode(privateKeyB64);
    if decoded.Err? then Err(DecodingPrivateKey)
    else if |decoded.value| != 32 then Err(WrongPrivateKeyLength(|decoded.value|))
    else
      PadMinimalValue(decoded.value);
      Ok(Signer(Value(decoded.value), publicKeyOf(decoded.value)))
  }

  /** The private scalar as exactly 32 big-endian bytes: `D.Bytes()` left-padded with zeros. */
  function PaddedScalar(d: nat): (b: Bytes)
    requires d < Pow256(32)
    ensures |b| == 32 && Value(b) == d
  {
    MinimalBytesFits(d, 32);
    MinimalBytesValue(d);
    LeftPad(MinimalBytes(d), 32)
  }

  /** Re-encoding a w-byte big-endian value minimally and padding it to w gives the same bytes. */
  lemma {:induction false} PadMinimalValue(b: Bytes)
    ensures Value(b) < Pow256(|b|)
    ensures |MinimalBytes(Value(b))| <= |b|
    ensures LeftPad(MinimalBytes(Value(b)), |b|) == b
  {
    ValueBound(b);
    MinimalBytesFits(Value(b), |b|);
    MinimalBytesValue(Value(b));
    var p := LeftPad(MinimalBytes(Value(b)), |b|);
    ValueInjective(p, b);
  }

  /** Two byte strings of the same length with the same big-endian value are equal. */
  lemma {:induction false} ValueInjective(a: Bytes, b: Bytes)
    requires |a| == |b| && Value(a) == Value(b)
    ensures a == b
  {
    if a != [] {
      var n := |a| - 1;
      ValueInjective(a[..n], b[..n]);
      assert a == a[..n] + [a[n]] && b == b[..n] + [b[n]];
    }
  }

  /** `Sign`: r and s copied right-aligned into a 64-byte buffer, with the same two `copy` calls as `derToP1363`. */
  method Sign(signer: Signer, sign: EcdsaSign, data: Bytes) returns (r: Result<Bytes, KeyError>)
    ensures sign(signer.privateKey, data).Err? ==> r == Err(Remote(sign(signer.privateKey, data).error))
    ensures sign(signer.privateKey, data).Ok? ==> r == P1363Of(Some(sign(signer.privateKey, data).value))
  {
    var signed := sign(signer.privateKey, data);
    if signed.Err? {
      return Err(Remote(signed.error));
    }
    var rBytes := MinimalBytes(signed.value.0);
    var sBytes := MinimalBytes(signed.value.1);
    if |rBytes| > 32 || |sBytes| > 64 {
      return Err(SliceOutOfRange);
    }
    var sig := PackP1363(rBytes, sBytes);
    r := Ok(sig);
  }

  /** `PublicKey`: the uncompressed public key. */
  function PublicKey(signer: Signer): (pk: Bytes)
    ensures pk == signer.publicKey
  {
    signer.publicKey
  }

  /** `PublicKeyBase64`: the public key in unpadded base64url. */
  function PublicKeyBase64(signer: Signer): (s: string)
    ensures Decode(s) == Ok(signer.publicKey)
    ensures forall i :: 0 <= i < |s| ==> IsAlphabet(s[i])
    ensures |s| == EncodedLength(|signer.publicKey|)
  {
    RoundTrip(signer.publicKey);
    Encode(signer.publicKey)
  }

  /**
   * `GenerateKeyPair`, given the outcome of `ecdsa.GenerateKey`: its error is
   * returned; otherwise the generated scalar D (below the P-256 group order,
   * so it fits 32 bytes) is left-padded to 32 bytes and, with its public key,
   * encoded in unpadded base64url. Loading the private half back gives the
   * same scalar and public key.
   */
  method GenerateKeyPair(generated: Result<nat, string>, publicKeyOf: PublicKeyOf)
    returns (r: Result<(string, string), string>)
    requires generated.Ok? ==> generated.value < Pow256(32)
    ensures generated.Err? ==> r == Err(generated.error)
    ensures generated.Ok? ==> r.Ok?
    ensures generated.Ok? ==>
      var d := generated.value;
      && Decode(r.value.0) == Ok(PaddedScalar(d))
      && Decode(r.value.1) == Ok(publicKeyOf(PaddedScalar(d)))
      && NewFileSignerFromBase64(r.value.0, publicKeyOf) == Ok(Signer(d, publicKeyOf(PaddedScalar(d))))
  {
    if generated.Err? {
      return Err(generated.error);
    }
    var d := generated.value;
    var privKeyBytes := MinimalBytes(d);
    MinimalBytesFits(d, 32);
    var padded := PadTo(privKeyBytes, 32);
    var pubKeyBytes := publicKeyOf(padded);
    RoundTrip(padded);
    RoundTrip(pubKeyBytes);
    assert padded == PaddedScalar(d);
    r := Ok((Encode(padded), Encode(pubKeyBytes)));
  }
}
