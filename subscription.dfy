/**
 * The Web Push subscription a browser hands to the application server, and
 * `ParseSubscription`, which validates one received as JSON.
 */
module Subscriptions {
  import opened Bytes
  import opened Wrappers
  import opened Text

  /** The client's encryption keys: its ECDH public key and its authentication secret, both base64url. */
  datatype Keys = Keys(p256dh: string, auth: string)

  /** `Subscription`: the push service endpoint URL and the client's keys. */
  datatype Subscription = Subscription(endpoint: string, keys: Keys)

  /** `json.Unmarshal` into a Subscription: the decoded fields, or the decoder's error. */
  type Unmarshal = Bytes -> Result<Subscription, string>

  datatype ParseError =
    | Unmarshaling(message: string)    // "unmarshaling subscription: ..."
    | EndpointRequired                 // "subscription endpoint is required"
    | P256dhRequired                   // "subscription p256dh key is required"
    | AuthRequired                     // "subscription auth key is required"
    | EndpointNotHttps                 // "subscription endpoint must use HTTPS"

  const HttpsPrefix: string := "https://"

  /** A subscription the application server accepts. */
  predicate Acceptable(sub: Subscription)
  {
    sub.endpoint != "" && sub.keys.p256dh != "" && sub.keys.auth != "" && HasPrefix(sub.endpoint, HttpsPrefix)
  }

  /**
   * `ParseSubscription`: the checks run in the order endpoint, p256dh, auth,
   * HTTPS scheme, and the first failing one names the error.
   */
  function ParseSubscription(data: Bytes, unmarshal: Unmarshal): (r: Result<Subscription, ParseError>)
    ensures r.Ok? <==> unmarshal(data).Ok? && Acceptable(unmarshal(data).value)
    ensures r.Ok? ==> r.value == unmarshal(data).value
    ensures unmarshal(data).Err? ==> r == Err(Unmarshaling(unmarshal(data).error))
    ensures unmarshal(data).Ok? ==>
      var sub := unmarshal(data).value;
      (sub.endpoint == "" ==> r == Err(EndpointRequired)) &&
      (sub.endpoint != "" && sub.keys.p256dh == "" ==> r == Err(P256dhRequired)) &&
      (sub.endpoint != "" && sub.keys.p256dh != "" && sub.keys.auth == "" ==> r == Err(AuthRequired)) &&
      ((sub.endpoint != "" && sub.keys.p256dh != "" && sub.keys.auth != "" && !HasPrefix(sub.endpoint, HttpsPrefix))
        ==> r == Err(EndpointNotHttps))
  {
    match unmarshal(data)
    case Err(e) => Err(Unmarshaling(e))
    case Ok(sub) =>
      if sub.endpoint == "" then Err(EndpointRequired)
      else if sub.keys.p256dh == "" then Err(P256dhRequired)
      else if sub.keys.auth == "" then Err(AuthRequired)
      else if !HasPrefix(sub.endpoint, HttpsPrefix) then Err(EndpointNotHttps)
      else Ok(sub)
  }

  /** An endpoint of another scheme is refused even when every field is present. */
  lemma RejectsPlainHttp(data: Bytes, unmarshal: Unmarshal)
    requires unmarshal(data) == Ok(Subscription("http://push.example.com/x", Keys("key", "auth")))
    ensures ParseSubscription(data, unmarshal) == Err(EndpointNotHttps)
  {
    assert "http://push.example.com/x"[..8] != HttpsPrefix by {
      assert "http://push.example.com/x"[4] != HttpsPrefix[4];
    }
  }
}
