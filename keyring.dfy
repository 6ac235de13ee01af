/**
 * The values held by both rotating signers and the pure functions that
 * specify their list operations. A key is identified by its public key
 * bytes; `handle` is the signing capability behind it (the KMS key-version
 * name for the KMS signer, an opaque name for a local signer).
 */
module KeyRing {
  import opened Bytes
  import opened Wrappers

  datatype KeyMaterial = KeyMaterial(publicKey: Bytes, handle: string)

  /** Errors of the key operations, one per message of the source. */
  datatype KeyError =
    | NoPreviousKeys                 // "no previous keys to remove"
    | CannotRemoveCurrentKey         // "cannot remove the current key"
    | KeyNotFound                    // "key not found"
    | DecodingPublicKey              // "decoding public key: ..."
    | ParsingDerSignature            // "parsing DER signature: ..."
    | SliceOutOfRange                // the slice panic of the packing copies: r over 32 bytes, or s over 64 bytes
    | Remote(message: string)        // an error of KMS or of the subscription counter, passed through

  /** The public keys of a list of keys, in the same order. */
  function PublicKeys(ks: seq<KeyMaterial>): (pks: seq<Bytes>)
    ensures |pks| == |ks|
    ensures forall i :: 0 <= i < |ks| ==> pks[i] == ks[i].publicKey
  {
    seq(|ks|, i requires 0 <= i < |ks| => ks[i].publicKey)
  }

  /** The position of the first key whose public key equals pk, if any. */
  function FirstMatch(ks: seq<KeyMaterial>, pk: Bytes): (r: Option<nat>)
    ensures r.Some? ==> r.value < |ks| && ks[r.value].publicKey == pk
    ensures r.Some? ==> forall j :: 0 <= j < r.value ==> ks[j].publicKey != pk
    ensures r.None? <==> forall j :: 0 <= j < |ks| ==> ks[j].publicKey != pk
  {
    if ks == [] then None
    else if ks[0].publicKey == pk then Some(0)
    else match FirstMatch(ks[1..], pk)
      case None => None
      case Some(i) => Some(i + 1)
  }

  /** The list without its i-th entry: `append(s[:i], s[i+1:]...)`. */
  function RemoveAt(ks: seq<KeyMaterial>, i: nat): (r: seq<KeyMaterial>)
    requires i < |ks|
    ensures |r| == |ks| - 1
    ensures forall j :: 0 <= j < i ==> r[j] == ks[j]
    ensures forall j :: i <= j < |r| ==> r[j] == ks[j + 1]
    ensures multiset(r) == multiset(ks) - multiset{ks[i]}
  {
    assert ks == ks[..i] + [ks[i]] + ks[i + 1..];
    ks[..i] + ks[i + 1..]
  }

  /** Key resolution used by every lookup: the current key first, then the first matching previous key. */
  function Resolve(current: KeyMaterial, previous: seq<KeyMaterial>, pk: Bytes): (r: Option<KeyMaterial>)
    ensures r.Some? ==> r.value.publicKey == pk
    ensures r.Some? <==> pk == current.publicKey || exists j :: 0 <= j < |previous| && previous[j].publicKey == pk
    ensures pk == current.publicKey ==> r == Some(current)
    ensures pk != current.publicKey && r.Some? ==>
              FirstMatch(previous, pk).Some? && r.value == previous[FirstMatch(previous, pk).value]
  {
    if current.publicKey == pk then Some(current)
    else match FirstMatch(previous, pk)
      case None => None
      case Some(i) => Some(previous[i])
  }

  /** A key is known when it is the current key or one of the previous keys. */
  predicate Known(current: KeyMaterial, previous: seq<KeyMaterial>, pk: Bytes)
  {
    pk == current.publicKey || pk in PublicKeys(previous)
  }

  /**
   * The invariant the design intends but the code does not enforce: no two
   * keys, current or previous, share a public key.
   */
  predicate Distinct(current: KeyMaterial, previous: seq<KeyMaterial>)
  {
    && (forall j :: 0 <= j < |previous| ==> previous[j].publicKey != current.publicKey)
    && (forall j, k :: 0 <= j < k < |previous| ==> previous[j].publicKey != previous[k].publicKey)
  }

  /** Rotating to a key that is not yet known keeps the keys distinct. */
  lemma RotateKeepsDistinct(current: KeyMaterial, previous: seq<KeyMaterial>, newKey: KeyMaterial)
    requires Distinct(current, previous)
    requires !Known(current, previous, newKey.publicKey)
    ensures Distinct(newKey, [current] + previous)
  {
    var p := [current] + previous;
    forall j | 0 <= j < |p| ensures p[j].publicKey != newKey.publicKey {
      if j > 0 {
        assert p[j].publicKey == PublicKeys(previous)[j - 1];
      }
    }
  }

  /** Rotating to a key that is already current breaks the intended invariant. */
  lemma RotateToCurrentBreaksDistinct(current: KeyMaterial, previous: seq<KeyMaterial>)
    ensures !Distinct(current, [current] + previous)
  {
    assert ([current] + previous)[0] == current;
  }

  /** Keeping a subsequence of the previous keys keeps them distinct. */
  lemma {:induction false} SubsequenceKeepsDistinct(current: KeyMaterial, previous: seq<KeyMaterial>, kept: seq<KeyMaterial>, idx: seq<nat>)
    requires Distinct(current, previous)
    requires |idx| == |kept|
    requires forall a :: 0 <= a < |idx| ==> idx[a] < |previous| && kept[a] == previous[idx[a]]
    requires forall a, b :: 0 <= a < b < |idx| ==> idx[a] < idx[b]
    ensures Distinct(current, kept)
  {
    forall j, k | 0 <= j < k < |kept| ensures kept[j].publicKey != kept[k].publicKey {
      assert idx[j] < idx[k];
    }
  }

  /** Removing one previous key keeps the keys distinct. */
  lemma RemoveAtKeepsDistinct(current: KeyMaterial, previous: seq<KeyMaterial>, i: nat)
    requires i < |previous| && Distinct(current, previous)
    ensures Distinct(current, RemoveAt(previous, i))
  {
    var r := RemoveAt(previous, i);
    var idx := seq(|r|, a requires 0 <= a < |r| => if a < i then a else a + 1);
    SubsequenceKeepsDistinct(current, previous, r, idx);
  }

  /** Under the intended invariant, removing a key by public key removes every trace of it. */
  lemma RemoveAtForgets(current: KeyMaterial, previous: seq<KeyMaterial>, i: nat)
    requires i < |previous| && Distinct(current, previous)
    ensures !Known(current, RemoveAt(previous, i), previous[i].publicKey)
  {
    var r := RemoveAt(previous, i);
    forall j | 0 <= j < |r| ensures r[j].publicKey != previous[i].publicKey {
      if j >= i {
        assert r[j] == previous[j + 1];
      }
    }
  }
}
