/**
 * The Web Push client of webpush.go: `Options`, `Client` and `Send`, which
 * encrypts the payload, signs a VAPID header, posts the result to the
 * subscription's endpoint and classifies the push service's answer.
 */
module WebPush {
  import opened Bytes
  import opened Wrappers
  import opened Text
  import opened Subscriptions
  import opened Encryption
  import opened VapidHeader

  /** Four weeks, in seconds: the TTL used when none is given. */
  const DefaultTtl: int := 2419200

  /** `Options`: time-to-live in seconds, urgency and topic; `Send` writes the defaulted TTL back. */
  class Options {
    var ttl: int
    var urgency: string
    var topic: string

    constructor (ttl: int, urgency: string, topic: string)
      ensures this.ttl == ttl && this.urgency == urgency && this.topic == topic
    {
      this.ttl := ttl;
      this.urgency := urgency;
      this.topic := topic;
    }
  }

  /** The POST request handed to the HTTP client. */
  datatype Request = Request(url: string, body: Bytes, headers: map<string, string>)

  /** `http.Client.Do`: the response's status code and body, or the transport's error. */
  type Transport = Request -> Result<(int, Bytes), string>

  datatype SendError =
    | EncryptingPayload(reason: EncryptError)        // "encrypting payload: ..."
    | CreatingVapidHeader(failure: VapidError)       // "creating VAPID header: ..."
    | SendingRequest(message: string)                // "sending request: ..."
    | PushServiceReturned(status: int, body: Bytes)  // "push service returned %d: %s"

  /**
   * What `Send` does not take from the client or the caller: the primitives
   * and random values of the encryption, the clock, and the URL, JSON and
   * hash functions of the VAPID header.
   */
  datatype Environment = Environment(
    prims: Primitives,
    serverKey: Result<KeyPair, string>,
    salt: Result<Bytes, string>,
    now: int,
    parseUrl: UrlParse,
    marshalClaims: MarshalClaims,
    sha256: Sha256)

  /** The TTL `Send` uses: zero means the default, anything else is kept. */
  function EffectiveTtl(ttl: int): (t: int)
    ensures t != 0
    ensures ttl == 0 ==> t == DefaultTtl
    ensures ttl != 0 ==> t == ttl
  {
    if ttl == 0 then DefaultTtl else ttl
  }

  /**
   * The headers of the push request: authorization, content coding, content
   * type and decimal TTL always; Urgency and Topic only when non-empty.
   */
  function RequestHeaders(authorization: string, ttl: int, urgency: string, topic: string): (h: map<string, string>)
    ensures h.Keys == {"Authorization", "Content-Encoding", "Content-Type", "TTL"}
                      + (if urgency != "" then {"Urgency"} else {})
                      + (if topic != "" then {"Topic"} else {})
    ensures h["Authorization"] == authorization
    ensures h["Content-Encoding"] == "aes128gcm" && h["Content-Type"] == "application/octet-stream"
    ensures ParseInt(h["TTL"]) == Some(ttl)
    ensures "Urgency" in h <==> urgency != ""
    ensures "Urgency" in h ==> h["Urgency"] == urgency
    ensures "Topic" in h <==> topic != ""
    ensures "Topic" in h ==> h["Topic"] == topic
  {
    ItoaRoundTrip(ttl);
    var always := map["Authorization" := authorization, "Content-Encoding" := "aes128gcm",
                      "Content-Type" := "application/octet-stream", "TTL" := Itoa(ttl)];
    var withUrgency := if urgency != "" then always["Urgency" := urgency] else always;
    if topic != "" then withUrgency["Topic" := topic] else withUrgency
  }

  /** The `req.Header.Set` calls of `Send`, in order. */
  method SetHeaders(authorization: string, ttl: int, urgency: string, topic: string) returns (headers: map<string, string>)
    ensures headers == RequestHeaders(authorization, ttl, urgency, topic)
  {
    headers := map[];
    headers := headers["Authorization" := authorization];
    headers := headers["Content-Encoding" := "aes128gcm"];
    headers := headers["Content-Type" := "application/octet-stream"];
    headers := headers["TTL" := Itoa(ttl)];
    if urgency != "" {
      headers := headers["Urgency" := urgency];
    }
    if topic != "" {
      headers := headers["Topic" := topic];
    }
  }

  /** The push service's answer: any 2xx status is success, anything else an error carrying status and body. */
  function Classify(status: int, body: Bytes): (r: Result<(), SendError>)
    ensures r.Ok? <==> 200 <= status < 300
    ensures r.Err? ==> r.error == PushServiceReturned(status, body)
  {
    if status < 200 || status >= 300 then Err(PushServiceReturned(status, body)) else Ok(())
  }

  /** The outcome of handing a request to the transport. */
  function Outcome(transport: Transport, request: Request): (r: Result<(), SendError>)
    ensures transport(request).Err? ==> r == Err(SendingRequest(transport(request).error))
    ensures transport(request).Ok? ==> r == Classify(transport(request).value.0, transport(request).value.1)
  {
    match transport(request)
    case Err(e) => Err(SendingRequest(e))
    case Ok((status, body)) => Classify(status, body)
  }

  /** `Client`: the VAPID signer, the HTTP client and the VAPID subject. */
  class Client {
    var signer: Signer
    var transport: Transport
    var subject: string

    /** `NewClient`, with `http.DefaultClient` given as `defaultTransport`. */
    constructor (signer: Signer, subject: string, defaultTransport: Transport)
      ensures this.signer == signer && this.subject == subject && transport == defaultTransport
    {
      this.signer := signer;
      this.subject := subject;
      transport := defaultTransport;
    }

    /** `WithHTTPClient`: replaces the HTTP client and returns the same client. */
    method WithHttpClient(httpClient: Transport) returns (c: Client)
      modifies this
      ensures c == this && transport == httpClient
      ensures signer == old(signer) && subject == old(subject)
    {
      transport := httpClient;
      c := this;
    }

    /**
     * `Send`. A nil `opts` stands for empty options; a zero TTL in the
     * caller's options is replaced by the default. Encryption comes first,
     * then the VAPID header, and a failure of either returns before any
     * request is made. Otherwise exactly one request is sent (`sent`) and
     * its answer decides the result.
     */
    method Send(env: Environment, sub: Subscription, payload: Bytes, opts: Options?)
      returns (r: Result<(), SendError>, sent: Option<Request>)
      modifies opts
      ensures opts != null ==> (opts.ttl == EffectiveTtl(old(opts.ttl))
                                && opts.urgency == old(opts.urgency) && opts.topic == old(opts.topic))
      ensures var encrypted := EncryptSpec(env.prims, sub, payload, env.serverKey, env.salt);
              var vapid := CreateVapidHeader(env.parseUrl, env.marshalClaims, env.sha256, signer, subject, env.now, sub.endpoint);
              var ttl := if opts == null then DefaultTtl else opts.ttl;
              var urgency := if opts == null then "" else opts.urgency;
              var topic := if opts == null then "" else opts.topic;
              (encrypted.Err? ==> r == Err(EncryptingPayload(encrypted.error)) && sent == None) &&
              (encrypted.Ok? && vapid.Err? ==> r == Err(CreatingVapidHeader(vapid.error)) && sent == None) &&
              (encrypted.Ok? && vapid.Ok? ==>
                 sent == Some(Request(sub.endpoint, encrypted.value, RequestHeaders(vapid.value, ttl, urgency, topic)))
                 && r == Outcome(transport, sent.value))
    {
      var ttl, urgency, topic := DefaultTtl, "", "";
      if opts != null {
        if opts.ttl == 0 {
          opts.ttl := DefaultTtl;
        }
        ttl, urgency, topic := opts.ttl, opts.urgency, opts.topic;
      }
      var encrypted := Encrypt(env.prims, sub, payload, env.serverKey, env.salt);
      if encrypted.Err? {
        return Err(EncryptingPayload(encrypted.error)), None;
      }
      var vapid := CreateVapidHeader(env.parseUrl, env.marshalClaims, env.sha256, signer, subject, env.now, sub.endpoint);
      if vapid.Err? {
        return Err(CreatingVapidHeader(vapid.error)), None;
      }
      var headers := SetHeaders(vapid.value, ttl, urgency, topic);
      var request := Request(sub.endpoint, encrypted.value, headers);
      sent := Some(request);
      var response := transport(request);
      if response.Err? {
        return Err(SendingRequest(response.error)), sent;
      }
      var (status, body) := response.value;
      if status < 200 || status >= 300 {
        return Err(PushServiceReturned(status, body)), sent;
      }
      r := Ok(());
    }
  }
}
