/**
 * `encrypt` of webpush.go: message encryption for Web Push (RFC 8291) in
 * the aes128gcm content coding (RFC 8188). The cryptographic primitives
 * are parameters; what is modelled is the order of the steps, their error
 * cases, the inputs handed to each primitive and the byte layout of the
 * result.
 */
module Encryption {
  import opened Bytes
  import opened Wrappers
  import opened Base64Url
  import opened Subscriptions

  /** An ephemeral P-256 ECDH key pair: private key bytes and uncompressed public key. */
  datatype KeyPair = KeyPair(privateKey: Bytes, publicKey: Bytes)

  /**
   * The primitives `encrypt` calls into:
   *  - acceptsPublicKey: `ecdh.P256().NewPublicKey` succeeds on the bytes
   *    (it keeps them unchanged as the key's `Bytes()`);
   *  - ecdh: `ECDH(private key, client public key)`, the shared secret or an error;
   *  - hkdf: `hkdf.New(sha256.New, secret, salt, info)`, as the bytes its
   *    reader yields before it is exhausted;
   *  - seal: `gcm.Seal(nil, nonce, plaintext, nil)` under key cek.
   */
  datatype Primitives = Primitives(
    acceptsPublicKey: Bytes -> bool,
    ecdh: (Bytes, Bytes) -> Result<Bytes, string>,
    hkdf: (Bytes, Bytes, Bytes) -> Bytes,
    seal: (Bytes, Bytes, Bytes) -> Bytes)

  datatype EncryptError =
    | DecodingP256dh                          // "decoding p256dh: ..."
    | DecodingAuth                            // "decoding auth: ..."
    | ParsingClientPublicKey                  // "parsing client public key: ..."
    | GeneratingServerKey(message: string)    // "generating server key: ..."
    | ComputingSharedSecret(message: string)  // "computing shared secret: ..."
    | GeneratingSalt(message: string)         // "generating salt: ..."
    | DerivingPrk                             // "deriving PRK: ..."
    | DerivingCek                             // "deriving CEK: ..."
    | DerivingNonce                           // "deriving nonce: ..."

  /** "WebPush: info" followed by a zero octet (section 3.4 of RFC 8291). */
  const KeyInfoLabel: Bytes := Ascii("WebPush: info") + [0]
  /** "Content-Encoding: aes128gcm" followed by a zero octet (section 2.2 of RFC 8188). */
  const CekInfo: Bytes := Ascii("Content-Encoding: aes128gcm") + [0]
  /** "Content-Encoding: nonce" followed by a zero octet (section 2.3 of RFC 8188). */
  const NonceInfo: Bytes := Ascii("Content-Encoding: nonce") + [0]

  const PrkLength: nat := 32
  const CekLength: nat := 16
  const NonceLength: nat := 12
  const SaltLength: nat := 16
  /** The last-record padding delimiter of section 2 of RFC 8188. */
  const LastRecordDelimiter: byte := 2
  /** salt (16) + rs (4) + idlen (1) + a 65-byte uncompressed P-256 key. */
  const HeaderLength: nat := 86

  /** key_info of section 3.4 of RFC 8291: the label, then the client's and the server's public keys. */
  function KeyInfo(clientPublic: Bytes, serverPublic: Bytes): (info: Bytes)
    ensures |info| == |KeyInfoLabel| + |clientPublic| + |serverPublic|
    ensures info[..|KeyInfoLabel|] == KeyInfoLabel
    ensures info[|KeyInfoLabel|..|KeyInfoLabel| + |clientPublic|] == clientPublic
    ensures info[|KeyInfoLabel| + |clientPublic|..] == serverPublic
  {
    var info := KeyInfoLabel + clientPublic + serverPublic;
    assert info[..|KeyInfoLabel|] == KeyInfoLabel;
    assert info[|KeyInfoLabel|..|KeyInfoLabel| + |clientPublic|] == clientPublic;
    info
  }

  /** The info strings have the lengths of RFC 8291 and RFC 8188: 144 octets of key_info for P-256 keys. */
  lemma InfoLengths(clientPublic: Bytes, serverPublic: Bytes)
    requires |clientPublic| == 65 && |serverPublic| == 65
    ensures |KeyInfo(clientPublic, serverPublic)| == 144
    ensures |CekInfo| == 28 && |NonceInfo| == 24
    ensures KeyInfoLabel[|KeyInfoLabel| - 1] == 0 && CekInfo[|CekInfo| - 1] == 0 && NonceInfo[|NonceInfo| - 1] == 0
  {
  }

  /** `io.ReadFull` of n bytes from a reader that yields `stream`: fails exactly when it is short. */
  function ReadFull(stream: Bytes, n: nat): (r: Option<Bytes>)
    ensures r.Some? <==> n <= |stream|
    ensures r.Some? ==> |r.value| == n && stream == r.value + stream[n..]
  {
    if |stream| < n then None else Some(stream[..n])
  }

  /** `uint32(len(ciphertext) + 86)`: the conversion keeps the low 32 bits. */
  function RecordSize(ciphertextLength: nat): (rs: nat)
    ensures rs < 0x1_0000_0000
    ensures ciphertextLength + HeaderLength < 0x1_0000_0000 ==> rs == ciphertextLength + HeaderLength
  {
    (ciphertextLength + HeaderLength) % 0x1_0000_0000
  }

  /** The aes128gcm header of section 2.1 of RFC 8188, as the parts a receiver reads. */
  datatype Header = Header(salt: Bytes, recordSize: nat, keyId: Bytes)

  /** salt || rs (uint32, big-endian) || idlen || keyid || ciphertext; idlen is `byte(len(keyid))`. */
  function Body(salt: Bytes, rs: nat, keyId: Bytes, ciphertext: Bytes): (body: Bytes)
    requires rs < 0x1_0000_0000
    ensures |body| == |salt| + 5 + |keyId| + |ciphertext|
  {
    salt + Uint32BE(rs) + [|keyId| % 256] + keyId + ciphertext
  }

  /** How a push service splits a body into its header and ciphertext. */
  function ParseBody(body: Bytes): (r: Option<(Header, Bytes)>)
    ensures r.Some? ==> |r.value.0.salt| == SaltLength && r.value.0.recordSize < 0x1_0000_0000
  {
    if |body| < 21 then None
    else
      var idlen := body[20] as nat;
      if |body| < 21 + idlen then None
      else
        Uint32Bound(body[16..20]);
        Some((Header(body[..16], Value(body[16..20]), body[21..21 + idlen]), body[21 + idlen..]))
  }

  lemma {:induction false} Uint32Bound(b: Bytes)
    requires |b| == 4
    ensures Value(b) < 0x1_0000_0000
  {
    ValueBound(b);
    assert Pow256(4) == 0x1_0000_0000;
  }

  /** A receiver recovers exactly the salt, record size, key id and ciphertext that were framed. */
  lemma ParseBodyInverts(salt: Bytes, rs: nat, keyId: Bytes, ciphertext: Bytes)
    requires |salt| == SaltLength && rs < 0x1_0000_0000 && |keyId| < 256
    ensures ParseBody(Body(salt, rs, keyId, ciphertext)) == Some((Header(salt, rs, keyId), ciphertext))
  {
    var body := Body(salt, rs, keyId, ciphertext);
    assert body[..16] == salt;
    assert body[16..20] == Uint32BE(rs);
    assert body[20] == |keyId|;
    assert body[21..21 + |keyId|] == keyId;
    assert body[21 + |keyId|..] == ciphertext;
  }

  /**
   * The content-encryption key and nonce of section 3.4 of RFC 8291:
   * PRK from the shared secret salted with the auth secret over key_info,
   * then CEK and nonce from PRK salted with the message salt.
   */
  function DeriveKeys(prims: Primitives, secret: Bytes, auth: Bytes, clientPublic: Bytes, serverPublic: Bytes, salt: Bytes)
    : (r: Result<(Bytes, Bytes), EncryptError>)
    ensures r.Ok? ==> |r.value.0| == CekLength && |r.value.1| == NonceLength
    ensures r.Err? ==> r.error in {DerivingPrk, DerivingCek, DerivingNonce}
    ensures |prims.hkdf(secret, auth, KeyInfo(clientPublic, serverPublic))| < PrkLength ==> r == Err(DerivingPrk)
  {
    match ReadFull(prims.hkdf(secret, auth, KeyInfo(clientPublic, serverPublic)), PrkLength)
    case None => Err(DerivingPrk)
    case Some(prk) =>
      match ReadFull(prims.hkdf(prk, salt, CekInfo), CekLength)
      case None => Err(DerivingCek)
      case Some(cek) =>
        match ReadFull(prims.hkdf(prk, salt, NonceInfo), NonceLength)
        case None => Err(DerivingNonce)
        case Some(nonce) => Ok((cek, nonce))
  }

  /**
   * The reference definition of `encrypt`, step by step in the source's
   * order; serverKey and salt are the outcomes of the key generation and of
   * `rand.Read`.
   */
  function EncryptSpec(prims: Primitives, sub: Subscription, plaintext: Bytes,
                       serverKey: Result<KeyPair, string>, salt: Result<Bytes, string>): (r: Result<Bytes, EncryptError>)
    ensures Decode(sub.keys.p256dh).Err? ==> r == Err(DecodingP256dh)
    ensures Decode(sub.keys.p256dh).Ok? && Decode(sub.keys.auth).Err? ==> r == Err(DecodingAuth)
    ensures r.Ok? ==> Decode(sub.keys.p256dh).Ok? && Decode(sub.keys.auth).Ok?
                      && prims.acceptsPublicKey(Decode(sub.keys.p256dh).value)
                      && serverKey.Ok? && salt.Ok?
  {
    match Decode(sub.keys.p256dh)
    case Err(_) => Err(DecodingP256dh)
    case Ok(clientPublic) =>
      match Decode(sub.keys.auth)
      case Err(_) => Err(DecodingAuth)
      case Ok(auth) =>
        if !prims.acceptsPublicKey(clientPublic) then Err(ParsingClientPublicKey)
        else match serverKey
          case Err(e) => Err(GeneratingServerKey(e))
          case Ok(server) =>
            match prims.ecdh(server.privateKey, clientPublic)
            case Err(e) => Err(ComputingSharedSecret(e))
            case Ok(secret) =>
              match salt
              case Err(e) => Err(GeneratingSalt(e))
              case Ok(salt) =>
                match DeriveKeys(prims, secret, auth, clientPublic, server.publicKey, salt)
                case Err(e) => Err(e)
                case Ok((cek, nonce)) =>
                  var ciphertext := prims.seal(cek, nonce, plaintext + [LastRecordDelimiter]);
                  Ok(Body(salt, RecordSize(|ciphertext|), server.publicKey, ciphertext))
  }

  /**
   * `encrypt`: the same steps, the header built by successive appends onto
   * an empty buffer and the ciphertext appended last.
   */
  method Encrypt(prims: Primitives, sub: Subscription, plaintext: Bytes,
                 serverKey: Result<KeyPair, string>, salt: Result<Bytes, string>) returns (r: Result<Bytes, EncryptError>)
    ensures r == EncryptSpec(prims, sub, plaintext, serverKey, salt)
  {
    var p256dh := Decode(sub.keys.p256dh);
    if p256dh.Err? {
      return Err(DecodingP256dh);
    }
    var auth := Decode(sub.keys.auth);
    if auth.Err? {
      return Err(DecodingAuth);
    }
    var clientPublic := p256dh.value;
    if !prims.acceptsPublicKey(clientPublic) {
      return Err(ParsingClientPublicKey);
    }
    if serverKey.Err? {
      return Err(GeneratingServerKey(serverKey.error));
    }
    var serverPublic := serverKey.value.publicKey;
    var shared := prims.ecdh(serverKey.value.privateKey, clientPublic);
    if shared.Err? {
      return Err(ComputingSharedSecret(shared.error));
    }
    if salt.Err? {
      return Err(GeneratingSalt(salt.error));
    }
    var prk := ReadFull(prims.hkdf(shared.value, auth.value, KeyInfo(clientPublic, serverPublic)), PrkLength);
    if prk.None? {
      return Err(DerivingPrk);
    }
    var cek := ReadFull(prims.hkdf(prk.value, salt.value, CekInfo), CekLength);
    if cek.None? {
      return Err(DerivingCek);
    }
    var nonce := ReadFull(prims.hkdf(prk.value, salt.value, NonceInfo), NonceLength);
    if nonce.None? {
      return Err(DerivingNonce);
    }
    var padded := plaintext + [LastRecordDelimiter];
    var ciphertext := prims.seal(cek.value, nonce.value, padded);
    var recordSize := RecordSize(|ciphertext|);
    var header: Bytes := [];
    header := header + salt.value;
    header := header + Uint32BE(recordSize);
    header := header + [|serverPublic| % 256];
    header := header + serverPublic;
    assert DeriveKeys(prims, shared.value, auth.value, clientPublic, serverPublic, salt.value) == Ok((cek.value, nonce.value));
    assert header + ciphertext == Body(salt.value, recordSize, serverPublic, ciphertext);
    r := Ok(header + ciphertext);
  }

  /**
   * Layout of every successful encryption with a 16-byte salt and a 65-byte
   * server key: an 86-byte header whose fields read back as that salt, that
   * key and a record size equal to the body's length (mod 2^32), followed by
   * the ciphertext.
   */
  lemma EncryptLayout(prims: Primitives, sub: Subscription, plaintext: Bytes,
                      serverKey: Result<KeyPair, string>, salt: Result<Bytes, string>)
    requires EncryptSpec(prims, sub, plaintext, serverKey, salt).Ok?
    requires salt.Ok? && |salt.value| == SaltLength
    requires serverKey.Ok? && |serverKey.value.publicKey| == 65
    ensures var body := EncryptSpec(prims, sub, plaintext, serverKey, salt).value;
            |body| >= HeaderLength &&
            ParseBody(body) == Some((Header(salt.value, |body| % 0x1_0000_0000, serverKey.value.publicKey), body[HeaderLength..]))
  {
    var body := EncryptSpec(prims, sub, plaintext, serverKey, salt).value;
    var ciphertext := body[HeaderLength..];
    var rs := RecordSize(|ciphertext|);
    assert body == Body(salt.value, rs, serverKey.value.publicKey, ciphertext) by {
      var clientPublic, auth := Decode(sub.keys.p256dh).value, Decode(sub.keys.auth).value;
      var secret := prims.ecdh(serverKey.value.privateKey, clientPublic).value;
      var keys := DeriveKeys(prims, secret, auth, clientPublic, serverKey.value.publicKey, salt.value).value;
      var ct := prims.seal(keys.0, keys.1, plaintext + [LastRecordDelimiter]);
      assert body == Body(salt.value, RecordSize(|ct|), serverKey.value.publicKey, ct);
      assert ct == ciphertext;
    }
    ParseBodyInverts(salt.value, rs, serverKey.value.publicKey, ciphertext);
  }

  /**
   * What is sealed: the payload followed by the single delimiter 0x02,
   * under the key and nonce derived for this salt. With a 16-byte tag the
   * body is 103 bytes longer than the payload.
   */
  lemma EncryptSeals(prims: Primitives, sub: Subscription, plaintext: Bytes,
                     serverKey: Result<KeyPair, string>, salt: Result<Bytes, string>)
    requires EncryptSpec(prims, sub, plaintext, serverKey, salt).Ok?
    requires salt.Ok? && |salt.value| == SaltLength
    requires serverKey.Ok? && |serverKey.value.publicKey| == 65
    ensures var clientPublic, auth := Decode(sub.keys.p256dh).value, Decode(sub.keys.auth).value;
            var secret := prims.ecdh(serverKey.value.privateKey, clientPublic);
            secret.Ok? &&
            var keys := DeriveKeys(prims, secret.value, auth, clientPublic, serverKey.value.publicKey, salt.value);
            keys.Ok? &&
            var sealed := prims.seal(keys.value.0, keys.value.1, plaintext + [LastRecordDelimiter]);
            EncryptSpec(prims, sub, plaintext, serverKey, salt).value[HeaderLength..] == sealed &&
            (|sealed| == |plaintext| + 1 + 16 ==> |EncryptSpec(prims, sub, plaintext, serverKey, salt).value| == |plaintext| + 103)
  {
    var body := EncryptSpec(prims, sub, plaintext, serverKey, salt).value;
    var clientPublic, auth := Decode(sub.keys.p256dh).value, Decode(sub.keys.auth).value;
    var secret := prims.ecdh(serverKey.value.privateKey, clientPublic).value;
    var keys := DeriveKeys(prims, secret, auth, clientPublic, serverKey.value.publicKey, salt.value).value;
    var ct := prims.seal(keys.0, keys.1, plaintext + [LastRecordDelimiter]);
    assert body == Body(salt.value, RecordSize(|ct|), serverKey.value.publicKey, ct);
    assert body[HeaderLength..] == ct;
  }
}
