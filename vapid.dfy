/** The application server key as handed to the browser's PushManager.subscribe(). */
module Vapid {
  import opened Bytes
  import opened Wrappers
  import opened Base64Url

  /** `ApplicationServerKey`: the public key in unpadded base64url. */
  function ApplicationServerKey(publicKey: Bytes): (key: string)
    ensures |key| == EncodedLength(|publicKey|)
    ensures forall i :: 0 <= i < |key| ==> IsAlphabet(key[i]) && key[i] != '='
    ensures Decode(key) == Ok(publicKey)
  {
    RoundTrip(publicKey);
    Encode(publicKey)
  }

  /** `DecodeApplicationServerKey`: the inverse, failing on characters outside the alphabet. */
  function DecodeApplicationServerKey(key: string): (r: Result<Bytes, DecodeError>)
    ensures forall i :: 0 <= i < |key| && !IsAlphabet(key[i]) && key[i] != '\r' && key[i] != '\n' ==> r.Err?
    ensures forall b: Bytes :: key == Encode(b) ==> r == Ok(b)
  {
    forall i | 0 <= i < |key| && !IsAlphabet(key[i]) && key[i] != '\r' && key[i] != '\n' {
      DecodeRejects(key, i);
    }
    forall b: Bytes | key == Encode(b) {
      RoundTrip(b);
    }
    Decode(key)
  }

  /** The test input "not-valid-base64!!!" is rejected: '!' is not in the alphabet. */
  lemma RejectsExclamation()
    ensures DecodeApplicationServerKey("not-valid-base64!!!").Err?
  {
    var s := "not-valid-base64!!!";
    assert s[16] == '!' && !IsAlphabet('!');
    DecodeRejects(s, 16);
  }
}
