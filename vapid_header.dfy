/**
 * `createVAPIDHeader` of webpush.go: the VAPID `Authorization` value of
 * RFC 8292, "vapid t=<JWT>, k=<public key>", with an ES256 JWT whose
 * audience is the endpoint's origin and which expires twelve hours after
 * the current time.
 */
module VapidHeader {
  import opened Bytes
  import opened Wrappers
  import opened Base64Url
  import opened Text

  /** `url.Parse` of an endpoint: its scheme and host, or the parser's error. */
  type UrlParse = string -> Result<(string, string), string>

  /** `json.Marshal` of the claims map with keys "aud", "exp" and "sub". */
  type MarshalClaims = (string, int, string) -> Bytes

  /** `sha256.Sum256`. */
  type Sha256 = Bytes -> Bytes

  /** The client's `Signer`: its `Sign` over a digest and its `PublicKey`. */
  datatype Signer = Signer(sign: Bytes -> Result<Bytes, string>, publicKey: Bytes)

  datatype VapidError =
    | ParsingEndpoint(message: string)   // "parsing endpoint: ..."
    | SigningJwt(message: string)        // "signing JWT: ..."

  /** `json.Marshal` of the header map {typ: JWT, alg: ES256}: Go writes map keys in sorted order. */
  const JwtHeader: string := "{\"alg\":\"ES256\",\"typ\":\"JWT\"}"

  /** `12 * time.Hour`, in seconds. */
  const Lifetime: int := 43200

  /** The JWT audience: the origin of the push endpoint. */
  function Audience(scheme: string, host: string): string
  {
    scheme + "://" + host
  }

  lemma AlphabetIsAscii(s: string)
    requires forall i :: 0 <= i < |s| ==> IsAlphabet(s[i])
    ensures forall i :: 0 <= i < |s| ==> s[i] as int < 128 && s[i] != '.' && s[i] != ','
  {
  }

  /** header.claims: the two JSON objects in unpadded base64url, joined by a dot. */
  function SigningInput(headerJson: Bytes, claimsJson: Bytes): (s: string)
    ensures forall i :: 0 <= i < |s| ==> s[i] as int < 128
  {
    AlphabetIsAscii(Encode(headerJson));
    AlphabetIsAscii(Encode(claimsJson));
    Encode(headerJson) + "." + Encode(claimsJson)
  }

  /**
   * `createVAPIDHeader` at time `now` (Unix seconds): the parse error of the
   * endpoint, the signer's error, or the header value.
   */
  function CreateVapidHeader(parseUrl: UrlParse, marshalClaims: MarshalClaims, sha256: Sha256, signer: Signer,
                             subject: string, now: int, endpoint: string): (r: Result<string, VapidError>)
    ensures parseUrl(endpoint).Err? ==> r == Err(ParsingEndpoint(parseUrl(endpoint).error))
    ensures parseUrl(endpoint).Ok? ==>
      var (scheme, host) := parseUrl(endpoint).value;
      var claims := marshalClaims(Audience(scheme, host), now + Lifetime, subject);
      var digest := sha256(Ascii(SigningInput(Ascii(JwtHeader), claims)));
      && (signer.sign(digest).Err? ==> r == Err(SigningJwt(signer.sign(digest).error)))
      && (signer.sign(digest).Ok? ==> r.Ok?)
    ensures r.Ok? ==> HasPrefix(r.value, "vapid t=")
  {
    match parseUrl(endpoint)
    case Err(e) => Err(ParsingEndpoint(e))
    case Ok((scheme, host)) =>
      var claims := marshalClaims(Audience(scheme, host), now + Lifetime, subject);
      var signingInput := SigningInput(Ascii(JwtHeader), claims);
      var hash := sha256(Ascii(signingInput));
      match signer.sign(hash)
      case Err(e) => Err(SigningJwt(e))
      case Ok(signature) =>
        var jwt := signingInput + "." + Encode(signature);
        var value := "vapid t=" + jwt + ", k=" + Encode(signer.publicKey);
        assert value[..8] == "vapid t=";
        Ok(value)
  }

  /** The four parts a push service reads from the header: JWT header, claims, signature, and key. */
  datatype Authorization = Authorization(header: Bytes, claims: Bytes, signature: Bytes, key: Bytes)

  /** The four base64url texts of a header value: split at the first '.', the next '.', then ", k=". */
  function SplitAuthorization(value: string): Option<(string, string, string, string)>
  {
    if !HasPrefix(value, "vapid t=") then None
    else match SplitFirst(value[8..], '.')
      case None => None
      case Some((header, rest)) =>
        match SplitFirst(rest, '.')
        case None => None
        case Some((claims, rest2)) =>
          match SplitFirst(rest2, ',')
          case None => None
          case Some((signature, tail)) =>
            if !HasPrefix(tail, " k=") then None else Some((header, claims, signature, tail[3..]))
  }

  /** How a push service takes an `Authorization` value apart and decodes its parts. */
  function ParseAuthorization(value: string): Option<Authorization>
  {
    match SplitAuthorization(value)
    case None => None
    case Some((h, c, s, k)) =>
      match (Decode(h), Decode(c), Decode(s), Decode(k))
      case (Ok(header), Ok(claims), Ok(signature), Ok(key)) => Some(Authorization(header, claims, signature, key))
      case _ => None
  }

  /** Texts without '.' and ',' joined into a header value split back into the same texts. */
  lemma SplitAssembled(eh: string, ec: string, es: string, ek: string)
    requires forall i :: 0 <= i < |eh| ==> eh[i] != '.'
    requires forall i :: 0 <= i < |ec| ==> ec[i] != '.'
    requires forall i :: 0 <= i < |es| ==> es[i] != ','
    ensures SplitAuthorization("vapid t=" + (eh + "." + ec + "." + es) + ", k=" + ek) == Some((eh, ec, es, ek))
  {
    var tail := " k=" + ek;
    var rest2 := es + [','] + tail;
    var rest := ec + ['.'] + rest2;
    var value := "vapid t=" + (eh + ['.'] + rest);
    assert value == "vapid t=" + (eh + "." + ec + "." + es) + ", k=" + ek;
    assert value[..8] == "vapid t=" && value[8..] == eh + ['.'] + rest;
    SplitFirstAt(eh, '.', rest);
    SplitFirstAt(ec, '.', rest2);
    SplitFirstAt(es, ',', tail);
    assert tail[..3] == " k=" && tail[3..] == ek;
  }

  /** A header value assembled from encodings reads back as the encoded bytes. */
  lemma ParseAssembled(h: Bytes, c: Bytes, s: Bytes, k: Bytes)
    ensures ParseAuthorization("vapid t=" + (Encode(h) + "." + Encode(c) + "." + Encode(s)) + ", k=" + Encode(k))
            == Some(Authorization(h, c, s, k))
  {
    AlphabetIsAscii(Encode(h));
    AlphabetIsAscii(Encode(c));
    AlphabetIsAscii(Encode(s));
    SplitAssembled(Encode(h), Encode(c), Encode(s), Encode(k));
    RoundTrip(h);
    RoundTrip(c);
    RoundTrip(s);
    RoundTrip(k);
  }

  /**
   * Every header the client builds reads back as: the ES256 JWT header,
   * the claims for the endpoint's origin expiring `Lifetime` seconds after
   * `now`, the signer's signature over the SHA-256 of header.claims, and
   * the signer's public key.
   */
  lemma VapidHeaderContents(parseUrl: UrlParse, marshalClaims: MarshalClaims, sha256: Sha256, signer: Signer,
                            subject: string, now: int, endpoint: string)
    requires CreateVapidHeader(parseUrl, marshalClaims, sha256, signer, subject, now, endpoint).Ok?
    ensures parseUrl(endpoint).Ok?
    ensures var claims := marshalClaims(Audience(parseUrl(endpoint).value.0, parseUrl(endpoint).value.1), now + Lifetime, subject);
            var signed := signer.sign(sha256(Ascii(SigningInput(Ascii(JwtHeader), claims))));
            signed.Ok? &&
            ParseAuthorization(CreateVapidHeader(parseUrl, marshalClaims, sha256, signer, subject, now, endpoint).value)
              == Some(Authorization(Ascii(JwtHeader), claims, signed.value, signer.publicKey))
  {
    var url := parseUrl(endpoint).value;
    var claims := marshalClaims(Audience(url.0, url.1), now + Lifetime, subject);
    var header := Ascii(JwtHeader);
    var signingInput := SigningInput(header, claims);
    var signature := signer.sign(sha256(Ascii(signingInput))).value;
    var value := CreateVapidHeader(parseUrl, marshalClaims, sha256, signer, subject, now, endpoint).value;
    assert signingInput == Encode(header) + "." + Encode(claims);
    assert value == "vapid t=" + (signingInput + "." + Encode(signature)) + ", k=" + Encode(signer.publicKey);
    ParseAssembled(header, claims, signature, signer.publicKey);
  }
}
