/**
 * `RotatingKMSSigner`: the rotating signer whose keys are Cloud KMS key
 * versions. Each key is known by its version name (the handle of its
 * KeyMaterial) and the public key fetched for it; signing sends the name to
 * KMS.
 */
module RotatingKms {
  import opened Bytes
  import opened Wrappers
  import opened Base64Url
  import opened KeyRing
  import opened Cleanup
  import opened Kms

  /**
   * `fetchKMSKeyVersion`: the uncompressed P-256 public key of a key version,
   * or the error of GetPublicKey, PEM or PKIX parsing, or the curve check.
   */
  type KeyFetch = string -> Result<Bytes, string>

  class RotatingKMSSigner {
    var current: KeyMaterial
    var previous: seq<KeyMaterial>

    /** `KeyCount`'s value: the current key and every previous key. */
    function Count(): nat
      reads this
    {
      1 + |previous|
    }

    /** The public keys of all keys, current first: `AllKeys`'s value. */
    function AllPublicKeys(): (pks: seq<Bytes>)
      reads this
      ensures |pks| == Count() && pks[0] == current.publicKey
      ensures forall i :: 0 <= i < |previous| ==> pks[i + 1] == previous[i].publicKey
    {
      [current.publicKey] + PublicKeys(previous)
    }

    constructor (initial: KeyMaterial)
      ensures current == initial && previous == []
    {
      current := initial;
      previous := [];
    }

    /** `NewRotatingKMSSigner`: the fetched key version becomes the only key; a fetch error creates nothing. */
    static method New(fetch: KeyFetch, keyName: string) returns (r: Result<RotatingKMSSigner, KeyError>)
      ensures fetch(keyName).Err? ==> r == Err(Remote(fetch(keyName).error))
      ensures fetch(keyName).Ok? ==> (r.Ok? && fresh(r.value)
                && r.value.current == KeyMaterial(fetch(keyName).value, keyName)
                && r.value.previous == [])
    {
      var fetched := fetch(keyName);
      if fetched.Err? {
        return Err(Remote(fetched.error));
      }
      var signer := new RotatingKMSSigner(KeyMaterial(fetched.value, keyName));
      r := Ok(signer);
    }

    /** `Sign`: signs with the current key version's name and no other. */
    method Sign(sign: AsymmetricSign, parse: DerParser, data: Bytes) returns (r: Result<Bytes, KeyError>)
      ensures SignedBy(sign, parse, current.handle, data, r)
    {
      r := SignWithKeyName(sign, parse, current.handle, data);
    }

    /** `PublicKey`: the current key's public key. */
    method PublicKey() returns (pk: Bytes)
      ensures pk == current.publicKey
    {
      pk := current.publicKey;
    }

    /** `PublicKeyBase64`: the current public key in unpadded base64url. */
    method PublicKeyBase64() returns (s: string)
      ensures Decode(s) == Ok(current.publicKey)
      ensures forall i :: 0 <= i < |s| ==> IsAlphabet(s[i])
    {
      s := Encode(current.publicKey);
      RoundTrip(current.publicKey);
    }

    /**
     * `Rotate`: fetches the new version first, so a fetch error changes
     * nothing; otherwise the old current key becomes the newest previous key.
     */
    method Rotate(fetch: KeyFetch, newKeyName: string) returns (r: Result<(), KeyError>)
      modifies this
      ensures fetch(newKeyName).Err? ==>
                r == Err(Remote(fetch(newKeyName).error)) && current == old(current) && previous == old(previous)
      ensures fetch(newKeyName).Ok? ==>
                r == Ok(()) && current == KeyMaterial(fetch(newKeyName).value, newKeyName)
                && previous == [old(current)] + old(previous)
    {
      var fetched := fetch(newKeyName);
      if fetched.Err? {
        return Err(Remote(fetched.error));
      }
      previous := [current] + previous;
      current := KeyMaterial(fetched.value, newKeyName);
      r := Ok(());
    }

    /** `AddPreviousKey`: appends the fetched version as the oldest previous key; a fetch error changes nothing. */
    method AddPreviousKey(fetch: KeyFetch, keyName: string) returns (r: Result<(), KeyError>)
      modifies this
      ensures current == old(current)
      ensures fetch(keyName).Err? ==> r == Err(Remote(fetch(keyName).error)) && previous == old(previous)
      ensures fetch(keyName).Ok? ==>
                r == Ok(()) && previous == old(previous) + [KeyMaterial(fetch(keyName).value, keyName)]
    {
      var fetched := fetch(keyName);
      if fetched.Err? {
        return Err(Remote(fetched.error));
      }
      previous := previous + [KeyMaterial(fetched.value, keyName)];
      r := Ok(());
    }

    /** `PreviousKeys`: the previous public keys, most recent first. */
    method PreviousKeys() returns (keys: seq<Bytes>)
      ensures keys == PublicKeys(previous)
    {
      keys := [];
      var i := 0;
      while i < |previous|
        invariant 0 <= i <= |previous|
        invariant keys == PublicKeys(previous[..i])
      {
        keys := keys + [previous[i].publicKey];
        i := i + 1;
      }
      assert previous[..i] == previous;
    }

    /** `PreviousKeysBase64`: each previous public key in unpadded base64url, in order. */
    method PreviousKeysBase64() returns (keys: seq<string>)
      ensures |keys| == |previous|
      ensures forall i :: 0 <= i < |previous| ==> Decode(keys[i]) == Ok(previous[i].publicKey)
    {
      var raw := PreviousKeys();
      keys := [];
      var i := 0;
      while i < |raw|
        invariant 0 <= i <= |raw|
        invariant |keys| == i
        invariant forall j :: 0 <= j < i ==> Decode(keys[j]) == Ok(raw[j])
      {
        RoundTrip(raw[i]);
        keys := keys + [Encode(raw[i])];
        i := i + 1;
      }
    }

    /** `AllKeys`: the current public key followed by the previous ones. */
    method AllKeys() returns (keys: seq<Bytes>)
      ensures keys == AllPublicKeys()
    {
      keys := [current.publicKey];
      var i := 0;
      while i < |previous|
        invariant 0 <= i <= |previous|
        invariant keys == [current.publicKey] + PublicKeys(previous[..i])
      {
        keys := keys + [previous[i].publicKey];
        i := i + 1;
      }
      assert previous[..i] == previous;
    }

    /** `AllKeysBase64`: every public key in unpadded base64url, current first. */
    method AllKeysBase64() returns (keys: seq<string>)
      ensures |keys| == Count()
      ensures forall i :: 0 <= i < |keys| ==> Decode(keys[i]) == Ok(AllPublicKeys()[i])
    {
      var raw := AllKeys();
      keys := [];
      var i := 0;
      while i < |raw|
        invariant 0 <= i <= |raw|
        invariant |keys| == i
        invariant forall j :: 0 <= j < i ==> Decode(keys[j]) == Ok(raw[j])
      {
        RoundTrip(raw[i]);
        keys := keys + [Encode(raw[i])];
        i := i + 1;
      }
    }

    /** `RemoveOldestKey`: drops the last previous key; an error and no change when there is none. */
    method RemoveOldestKey() returns (r: Result<(), KeyError>)
      modifies this
      ensures current == old(current)
      ensures old(previous) == [] ==> r == Err(NoPreviousKeys) && previous == []
      ensures old(previous) != [] ==> r == Ok(()) && previous == old(previous)[..|old(previous)| - 1]
    {
      if |previous| == 0 {
        return Err(NoPreviousKeys);
      }
      previous := previous[..|previous| - 1];
      r := Ok(());
    }

    /** `ClearPreviousKeys`: forgets every previous key, keeps the current one. */
    method ClearPreviousKeys()
      modifies this
      ensures current == old(current) && previous == [] && Count() == 1
    {
      previous := [];
    }

    /**
     * `RemoveKey`: refuses the current key, otherwise removes the first
     * previous key with that public key; fails without change when none has it.
     */
    method RemoveKey(publicKey: Bytes) returns (r: Result<(), KeyError>)
      modifies this
      ensures current == old(current)
      ensures publicKey == current.publicKey ==> r == Err(CannotRemoveCurrentKey) && previous == old(previous)
      ensures publicKey != current.publicKey ==>
        match FirstMatch(old(previous), publicKey)
        case None => r == Err(KeyNotFound) && previous == old(previous)
        case Some(i) => r == Ok(()) && previous == RemoveAt(old(previous), i)
    {
      if current.publicKey == publicKey {
        return Err(CannotRemoveCurrentKey);
      }
      var i := 0;
      while i < |previous|
        invariant 0 <= i <= |previous|
        invariant forall j :: 0 <= j < i ==> previous[j].publicKey != publicKey
      {
        if previous[i].publicKey == publicKey {
          previous := RemoveAt(previous, i);
          return Ok(());
        }
        i := i + 1;
      }
      r := Err(KeyNotFound);
    }

    /** `RemoveKeyBase64`: RemoveKey of the decoded key; a decoding error changes nothing. */
    method RemoveKeyBase64(publicKeyB64: string) returns (r: Result<(), KeyError>)
      modifies this
      ensures current == old(current)
      ensures Decode(publicKeyB64).Err? ==> r == Err(DecodingPublicKey) && previous == old(previous)
      ensures Decode(publicKeyB64).Ok? ==>
        var pk := Decode(publicKeyB64).value;
        if pk == current.publicKey then r == Err(CannotRemoveCurrentKey) && previous == old(previous)
        else match FirstMatch(old(previous), pk)
          case None => r == Err(KeyNotFound) && previous == old(previous)
          case Some(i) => r == Ok(()) && previous == RemoveAt(old(previous), i)
    {
      var decoded := Decode(publicKeyB64);
      if decoded.Err? {
        return Err(DecodingPublicKey);
      }
      r := RemoveKey(decoded.value);
    }

    /** `KeyCount`: the current key plus the previous keys. */
    method KeyCount() returns (n: int)
      ensures n == 1 + |previous| && n == Count()
    {
      n := 1 + |previous|;
    }

    /** `IsCurrentKey`: byte equality with the current public key. */
    method IsCurrentKey(publicKey: Bytes) returns (b: bool)
      ensures b <==> publicKey == current.publicKey
    {
      b := current.publicKey == publicKey;
    }

    /** `IsCurrentKeyBase64`: false on undecodable input, else IsCurrentKey of the decoded bytes. */
    method IsCurrentKeyBase64(publicKeyB64: string) returns (b: bool)
      ensures b <==> Decode(publicKeyB64) == Ok(current.publicKey)
    {
      var decoded := Decode(publicKeyB64);
      if decoded.Err? {
        return false;
      }
      b := IsCurrentKey(decoded.value);
    }

    /** `IsKnownKey`: the key is the current one or one of the previous ones. */
    method IsKnownKey(publicKey: Bytes) returns (b: bool)
      ensures b <==> publicKey == current.publicKey || exists j :: 0 <= j < |previous| && previous[j].publicKey == publicKey
    {
      if current.publicKey == publicKey {
        return true;
      }
      var i := 0;
      while i < |previous|
        invariant 0 <= i <= |previous|
        invariant forall j :: 0 <= j < i ==> previous[j].publicKey != publicKey
      {
        if previous[i].publicKey == publicKey {
          return true;
        }
        i := i + 1;
      }
      b := false;
    }

    /** `IsKnownKeyBase64`: false on undecodable input, else IsKnownKey of the decoded bytes. */
    method IsKnownKeyBase64(publicKeyB64: string) returns (b: bool)
      ensures Decode(publicKeyB64).Err? ==> !b
      ensures Decode(publicKeyB64).Ok? ==> (b <==> Known(current, previous, Decode(publicKeyB64).value))
    {
      var decoded := Decode(publicKeyB64);
      if decoded.Err? {
        return false;
      }
      b := IsKnownKey(decoded.value);
      assert Known(current, previous, decoded.value) <==>
             decoded.value == current.publicKey || decoded.value in PublicKeys(previous);
    }

    /**
     * `SignWithKey`: looks up the version name of the matching key (current
     * first) and signs with it; a missing key or an empty name is "key not
     * found" and no request is sent. `request` is the name sent to KMS.
     */
    method SignWithKey(sign: AsymmetricSign, parse: DerParser, publicKey: Bytes, data: Bytes)
      returns (r: Result<Bytes, KeyError>, request: Option<string>)
      ensures var k := Resolve(current, previous, publicKey);
              if k.None? || k.value.handle == "" then r == Err(KeyNotFound) && request == None
              else request == Some(k.value.handle) && SignedBy(sign, parse, k.value.handle, data, r)
    {
      var keyName := "";
      if current.publicKey == publicKey {
        keyName := current.handle;
      } else {
        var i := 0;
        while i < |previous|
          invariant 0 <= i <= |previous|
          invariant forall j :: 0 <= j < i ==> previous[j].publicKey != publicKey
        {
          if previous[i].publicKey == publicKey {
            keyName := previous[i].handle;
            break;
          }
          i := i + 1;
        }
      }
      if keyName == "" {
        return Err(KeyNotFound), None;
      }
      r := SignWithKeyName(sign, parse, keyName, data);
      request := Some(keyName);
    }

    /** `SignWithKeyBase64`: a decoding error, else SignWithKey of the decoded bytes. */
    method SignWithKeyBase64(sign: AsymmetricSign, parse: DerParser, publicKeyB64: string, data: Bytes)
      returns (r: Result<Bytes, KeyError>, request: Option<string>)
      ensures Decode(publicKeyB64).Err? ==> r == Err(DecodingPublicKey) && request == None
      ensures Decode(publicKeyB64).Ok? ==>
                var k := Resolve(current, previous, Decode(publicKeyB64).value);
                if k.None? || k.value.handle == "" then r == Err(KeyNotFound) && request == None
                else request == Some(k.value.handle) && SignedBy(sign, parse, k.value.handle, data, r)
    {
      var decoded := Decode(publicKeyB64);
      if decoded.Err? {
        return Err(DecodingPublicKey), None;
      }
      r, request := SignWithKey(sign, parse, decoded.value, data);
    }

    /**
     * `GetSignerForKey`: a signer for the current version if it matches, else
     * for the first matching previous version, else nil.
     */
    method GetSignerForKey(publicKey: Bytes) returns (r: Option<KeyMaterial>)
      ensures r == Resolve(current, previous, publicKey)
    {
      if current.publicKey == publicKey {
        return Some(current);
      }
      var i := 0;
      while i < |previous|
        invariant 0 <= i <= |previous|
        invariant forall j :: 0 <= j < i ==> previous[j].publicKey != publicKey
      {
        if previous[i].publicKey == publicKey {
          return Some(previous[i]);
        }
        i := i + 1;
      }
      r := None;
    }

    /** `GetSignerForKeyBase64`: nil on undecodable input, else GetSignerForKey of the decoded bytes. */
    method GetSignerForKeyBase64(publicKeyB64: string) returns (r: Option<KeyMaterial>)
      ensures Decode(publicKeyB64).Err? ==> r == None
      ensures Decode(publicKeyB64).Ok? ==> r == Resolve(current, previous, Decode(publicKeyB64).value)
    {
      var decoded := Decode(publicKeyB64);
      if decoded.Err? {
        return None;
      }
      r := GetSignerForKey(decoded.value);
    }

    /**
     * `RemoveUnusedKeys`: asks the counter about each previous key in order
     * and keeps those with a positive count. The new list is assigned only
     * after the loop, so a counter error leaves the keys as they were. The
     * current key is never queried.
     */
    method RemoveUnusedKeys(counter: Counter) returns (r: Result<RemoveUnusedKeysResult, KeyError>)
      modifies this
      ensures current == old(current)
      ensures r.Err? <==> SweepKeys(old(previous), counter).Err?
      ensures r.Err? ==> r.error == Remote(SweepKeys(old(previous), counter).error) && previous == old(previous)
      ensures r.Ok? ==> (previous == SweepKeys(old(previous), counter).value.retained &&
                         r.value == SweepKeys(old(previous), counter).value.result)
      ensures r.Ok? ==> Count() == 1 + |r.value.retainedKeys|
      ensures old(previous) == [] ==> r == Ok(RemoveUnusedKeysResult([], [])) && Count() == 1
    {
      var keys := previous;
      var acc := EmptySweep;
      var i := 0;
      while i < |keys|
        invariant 0 <= i <= |keys|
        invariant SweepKeys(keys[..i], counter) == Ok(acc)
        invariant current == old(current) && previous == old(previous) == keys
      {
        var keyB64 := Encode(keys[i].publicKey);
        var count := counter(keyB64);
        SweepExtend(keys, i, counter);
        if count.Err? {
          SweepErrSticks(keys, i + 1, counter);
          return Err(Remote(count.error));
        }
        if count.value > 0 {
          acc := Sweep(acc.retained + [keys[i]], acc.result.(retainedKeys := acc.result.retainedKeys + [keyB64]));
        } else {
          acc := Sweep(acc.retained, acc.result.(removedKeys := acc.result.removedKeys + [keyB64]));
        }
        i := i + 1;
      }
      assert keys[..i] == keys;
      SweepMeaning(keys, counter);
      previous := acc.retained;
      r := Ok(acc.result);
    }
  }
}
