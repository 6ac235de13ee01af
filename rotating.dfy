/**
 * `RotatingSigner`: one current signer used for all new signatures and the
 * previous signers, most recently retired first, kept so that subscriptions
 * made under an older key can still be served and counted.
 */
module Rotating {
  import opened Bytes
  import opened Wrappers
  import opened Base64Url
  import opened KeyRing
  import opened Cleanup

  /** A signer's `Sign`: a signature over data, or the signer's error. */
  type SignFunction = (KeyMaterial, Bytes) -> Result<Bytes, string>

  class RotatingSigner {
    var current: KeyMaterial
    var previous: seq<KeyMaterial>

    /** `KeyCount`'s value: the current key and every previous key. */
    function Count(): nat
      reads this
    {
      1 + |previous|
    }

    /** The public keys of all keys, current first: `AllKeys`'s value. */
    function AllPublicKeys(): (pks: seq<Bytes>)
      reads this
      ensures |pks| == Count() && pks[0] == current.publicKey
      ensures forall i :: 0 <= i < |previous| ==> pks[i + 1] == previous[i].publicKey
    {
      [current.publicKey] + PublicKeys(previous)
    }

    /** `NewRotatingSigner`: a single current key and no previous keys. */
    constructor (initial: KeyMaterial)
      ensures current == initial && previous == []
      ensures Count() == 1 && Known(current, previous, initial.publicKey)
    {
      current := initial;
      previous := [];
    }

    /** `Sign`: delegates to the current signer and to no other. */
    method Sign(sign: SignFunction, data: Bytes) returns (r: Result<Bytes, string>)
      ensures r == sign(current, data)
    {
      r := sign(current, data);
    }

    /** `PublicKey`: the current key's public key. */
    method PublicKey() returns (pk: Bytes)
      ensures pk == current.publicKey
    {
      pk := current.publicKey;
    }

    /** `PublicKeyBase64`: the current public key in unpadded base64url. */
    method PublicKeyBase64() returns (s: string)
      ensures Decode(s) == Ok(current.publicKey)
      ensures forall i :: 0 <= i < |s| ==> IsAlphabet(s[i])
    {
      s := Encode(current.publicKey);
      RoundTrip(current.publicKey);
    }

    /** `Rotate`: the old current key becomes the newest previous key. */
    method Rotate(newKey: KeyMaterial)
      modifies this
      ensures current == newKey && previous == [old(current)] + old(previous)
      ensures Count() == old(Count()) + 1
      ensures old(Distinct(current, previous)) && !old(Known(current, previous, newKey.publicKey)) ==>
                Distinct(current, previous)
    {
      if Distinct(current, previous) && !Known(current, previous, newKey.publicKey) {
        RotateKeepsDistinct(current, previous, newKey);
      }
      previous := [current] + previous;
      current := newKey;
    }

    /** `PreviousKeys`: the previous public keys, most recent first. */
    method PreviousKeys() returns (keys: seq<Bytes>)
      ensures keys == PublicKeys(previous)
    {
      keys := [];
      var i := 0;
      while i < |previous|
        invariant 0 <= i <= |previous|
        invariant keys == PublicKeys(previous[..i])
      {
        keys := keys + [previous[i].publicKey];
        i := i + 1;
      }
      assert previous[..i] == previous;
    }

    /** `PreviousKeysBase64`: each previous public key in unpadded base64url, in order. */
    method PreviousKeysBase64() returns (keys: seq<string>)
      ensures |keys| == |previous|
      ensures forall i :: 0 <= i < |previous| ==> Decode(keys[i]) == Ok(previous[i].publicKey)
    {
      var raw := PreviousKeys();
      keys := [];
      var i := 0;
      while i < |raw|
        invariant 0 <= i <= |raw|
        invariant |keys| == i
        invariant forall j :: 0 <= j < i ==> Decode(keys[j]) == Ok(raw[j])
      {
        RoundTrip(raw[i]);
        keys := keys + [Encode(raw[i])];
        i := i + 1;
      }
    }

    /** `AllKeys`: the current public key followed by the previous ones. */
    method AllKeys() returns (keys: seq<Bytes>)
      ensures keys == AllPublicKeys()
    {
      keys := [current.publicKey];
      var i := 0;
      while i < |previous|
        invariant 0 <= i <= |previous|
        invariant keys == [current.publicKey] + PublicKeys(previous[..i])
      {
        keys := keys + [previous[i].publicKey];
        i := i + 1;
      }
      assert previous[..i] == previous;
    }

    /** `AllKeysBase64`: every public key in unpadded base64url, current first. */
    method AllKeysBase64() returns (keys: seq<string>)
      ensures |keys| == Count()
      ensures forall i :: 0 <= i < |keys| ==> Decode(keys[i]) == Ok(AllPublicKeys()[i])
    {
      var raw := AllKeys();
      keys := [];
      var i := 0;
      while i < |raw|
        invariant 0 <= i <= |raw|
        invariant |keys| == i
        invariant forall j :: 0 <= j < i ==> Decode(keys[j]) == Ok(raw[j])
      {
        RoundTrip(raw[i]);
        keys := keys + [Encode(raw[i])];
        i := i + 1;
      }
    }

    /** `RemoveOldestKey`: drops the last previous key; an error and no change when there is none. */
    method RemoveOldestKey() returns (r: Result<(), KeyError>)
      modifies this
      ensures current == old(current)
      ensures old(previous) == [] ==> r == Err(NoPreviousKeys) && previous == []
      ensures old(previous) != [] ==> r == Ok(()) && previous == old(previous)[..|old(previous)| - 1]
    {
      if |previous| == 0 {
        return Err(NoPreviousKeys);
      }
      previous := previous[..|previous| - 1];
      r := Ok(());
    }

    /** `ClearPreviousKeys`: forgets every previous key, keeps the current one. */
    method ClearPreviousKeys()
      modifies this
      ensures current == old(current) && previous == [] && Count() == 1
    {
      previous := [];
    }

    /**
     * `RemoveKey`: refuses the current key, otherwise removes the first
     * previous key with that public key; fails without change when none has it.
     */
    method RemoveKey(publicKey: Bytes) returns (r: Result<(), KeyError>)
      modifies this
      ensures current == old(current)
      ensures publicKey == current.publicKey ==> r == Err(CannotRemoveCurrentKey) && previous == old(previous)
      ensures publicKey != current.publicKey ==>
        match FirstMatch(old(previous), publicKey)
        case None => r == Err(KeyNotFound) && previous == old(previous)
        case Some(i) => r == Ok(()) && previous == RemoveAt(old(previous), i)
    {
      if current.publicKey == publicKey {
        return Err(CannotRemoveCurrentKey);
      }
      var i := 0;
      while i < |previous|
        invariant 0 <= i <= |previous|
        invariant forall j :: 0 <= j < i ==> previous[j].publicKey != publicKey
      {
        if previous[i].publicKey == publicKey {
          previous := RemoveAt(previous, i);
          return Ok(());
        }
        i := i + 1;
      }
      r := Err(KeyNotFound);
    }

    /** `RemoveKeyBase64`: RemoveKey of the decoded key; a decoding error changes nothing. */
    method RemoveKeyBase64(publicKeyB64: string) returns (r: Result<(), KeyError>)
      modifies this
      ensures current == old(current)
      ensures Decode(publicKeyB64).Err? ==> r == Err(DecodingPublicKey) && previous == old(previous)
      ensures Decode(publicKeyB64).Ok? ==>
        var pk := Decode(publicKeyB64).value;
        if pk == current.publicKey then r == Err(CannotRemoveCurrentKey) && previous == old(previous)
        else match FirstMatch(old(previous), pk)
          case None => r == Err(KeyNotFound) && previous == old(previous)
          case Some(i) => r == Ok(()) && previous == RemoveAt(old(previous), i)
    {
      var decoded := Decode(publicKeyB64);
      if decoded.Err? {
        return Err(DecodingPublicKey);
      }
      r := RemoveKey(decoded.value);
    }

    /** `KeyCount`: the current key plus the previous keys. */
    method KeyCount() returns (n: int)
      ensures n == 1 + |previous| && n == Count()
    {
      n := 1 + |previous|;
    }

    /** `IsCurrentKey`: byte equality with the current public key. */
    method IsCurrentKey(publicKey: Bytes) returns (b: bool)
      ensures b <==> publicKey == current.publicKey
    {
      b := current.publicKey == publicKey;
    }

    /** `IsCurrentKeyBase64`: false on undecodable input, else IsCurrentKey of the decoded bytes. */
    method IsCurrentKeyBase64(publicKeyB64: string) returns (b: bool)
      ensures b <==> Decode(publicKeyB64) == Ok(current.publicKey)
    {
      var decoded := Decode(publicKeyB64);
      if decoded.Err? {
        return false;
      }
      b := IsCurrentKey(decoded.value);
    }

    /** `IsKnownKey`: the key is the current one or one of the previous ones. */
    method IsKnownKey(publicKey: Bytes) returns (b: bool)
      ensures b <==> publicKey == current.publicKey || exists j :: 0 <= j < |previous| && previous[j].publicKey == publicKey
    {
      if current.publicKey == publicKey {
        return true;
      }
      var i := 0;
      while i < |previous|
        invariant 0 <= i <= |previous|
        invariant forall j :: 0 <= j < i ==> previous[j].publicKey != publicKey
      {
        if previous[i].publicKey == publicKey {
          return true;
        }
        i := i + 1;
      }
      b := false;
    }

    /** `IsKnownKeyBase64`: false on undecodable input, else IsKnownKey of the decoded bytes. */
    method IsKnownKeyBase64(publicKeyB64: string) returns (b: bool)
      ensures Decode(publicKeyB64).Err? ==> !b
      ensures Decode(publicKeyB64).Ok? ==> (b <==> Known(current, previous, Decode(publicKeyB64).value))
    {
      var decoded := Decode(publicKeyB64);
      if decoded.Err? {
        return false;
      }
      b := IsKnownKey(decoded.value);
      assert Known(current, previous, decoded.value) <==>
             decoded.value == current.publicKey || decoded.value in PublicKeys(previous);
    }

    /** `GetSignerForKey`: the current signer if it matches, else the first matching previous one, else nil. */
    method GetSignerForKey(publicKey: Bytes) returns (r: Option<KeyMaterial>)
      ensures r == Resolve(current, previous, publicKey)
    {
      if current.publicKey == publicKey {
        return Some(current);
      }
      var i := 0;
      while i < |previous|
        invariant 0 <= i <= |previous|
        invariant forall j :: 0 <= j < i ==> previous[j].publicKey != publicKey
      {
        if previous[i].publicKey == publicKey {
          return Some(previous[i]);
        }
        i := i + 1;
      }
      r := None;
    }

    /** `GetSignerForKeyBase64`: nil on undecodable input, else GetSignerForKey of the decoded bytes. */
    method GetSignerForKeyBase64(publicKeyB64: string) returns (r: Option<KeyMaterial>)
      ensures Decode(publicKeyB64).Err? ==> r == None
      ensures Decode(publicKeyB64).Ok? ==> r == Resolve(current, previous, Decode(publicKeyB64).value)
    {
      var decoded := Decode(publicKeyB64);
      if decoded.Err? {
        return None;
      }
      r := GetSignerForKey(decoded.value);
    }

    /**
     * `RemoveUnusedKeys`: asks the counter about each previous key in order
     * and keeps those with a positive count. The new list is assigned only
     * after the loop, so a counter error leaves the keys as they were. The
     * current key is never queried.
     */
    method RemoveUnusedKeys(counter: Counter) returns (r: Result<RemoveUnusedKeysResult, KeyError>)
      modifies this
      ensures current == old(current)
      ensures r.Err? <==> SweepKeys(old(previous), counter).Err?
      ensures r.Err? ==> r.error == Remote(SweepKeys(old(previous), counter).error) && previous == old(previous)
      ensures r.Ok? ==> (previous == SweepKeys(old(previous), counter).value.retained &&
                         r.value == SweepKeys(old(previous), counter).value.result)
      ensures r.Ok? ==> Count() == 1 + |r.value.retainedKeys|
      ensures old(previous) == [] ==> r == Ok(RemoveUnusedKeysResult([], [])) && Count() == 1
    {
      var keys := previous;
      var acc := EmptySweep;
      var i := 0;
      while i < |keys|
        invariant 0 <= i <= |keys|
        invariant SweepKeys(keys[..i], counter) == Ok(acc)
        invariant current == old(current) && previous == old(previous) == keys
      {
        var keyB64 := Encode(keys[i].publicKey);
        var count := counter(keyB64);
        SweepExtend(keys, i, counter);
        if count.Err? {
          SweepErrSticks(keys, i + 1, counter);
          return Err(Remote(count.error));
        }
        if count.value > 0 {
          acc := Sweep(acc.retained + [keys[i]], acc.result.(retainedKeys := acc.result.retainedKeys + [keyB64]));
        } else {
          acc := Sweep(acc.retained, acc.result.(removedKeys := acc.result.removedKeys + [keyB64]));
        }
        i := i + 1;
      }
      assert keys[..i] == keys;
      SweepMeaning(keys, counter);
      previous := acc.retained;
      r := Ok(acc.result);
    }
  }

  /**
   * Two rotations from key1 through key2 to key3 leave key3 current and
   * the previous keys newest first; removing the oldest then drops key1.
   */
  method RotationOrder(key1: KeyMaterial, key2: KeyMaterial, key3: KeyMaterial)
    returns (count: int, previous: seq<Bytes>, afterRemoval: seq<Bytes>)
    ensures count == 3
    ensures previous == [key2.publicKey, key1.publicKey]
    ensures afterRemoval == [key3.publicKey, key2.publicKey]
  {
    var rotating := new RotatingSigner(key1);
    rotating.Rotate(key2);
    rotating.Rotate(key3);
    count := rotating.KeyCount();
    previous := rotating.PreviousKeys();
    var _ := rotating.RemoveOldestKey();
    afterRemoval := rotating.AllKeys();
  }
}
