/**
 * `RemoveUnusedKeys`: the previous keys are split, in order, by the number
 * of subscriptions an external counter reports for each key's base64url
 * form; the split is committed only when every query succeeded.
 */
module Cleanup {
  import opened Bytes
  import opened Wrappers
  import opened Base64Url
  import opened KeyRing

  /** `RemoveUnusedKeysResult`: base64url keys removed and retained, in list order. */
  datatype RemoveUnusedKeysResult = RemoveUnusedKeysResult(removedKeys: seq<string>, retainedKeys: seq<string>)

  /** `SubscriptionCounter.CountByVAPIDKey`: a count, or the counter's error. */
  type Counter = string -> Result<int, string>

  /** The state of the loop: the keys kept so far and the two lists built so far. */
  datatype Sweep = Sweep(retained: seq<KeyMaterial>, result: RemoveUnusedKeysResult)

  /** The string under which a key is counted. */
  function KeyB64(k: KeyMaterial): string
  {
    Encode(k.publicKey)
  }

  /** The base64url forms of a list of keys. */
  function KeysB64(ks: seq<KeyMaterial>): (r: seq<string>)
    ensures |r| == |ks|
    ensures forall i :: 0 <= i < |ks| ==> r[i] == KeyB64(ks[i])
  {
    seq(|ks|, i requires 0 <= i < |ks| => KeyB64(ks[i]))
  }

  /** The counter reports at least one subscription for this key. */
  predicate InUse(counter: Counter, b64: string)
  {
    counter(b64).Ok? && counter(b64).value > 0
  }

  const EmptySweep := Sweep([], RemoveUnusedKeysResult([], []))

  /** One iteration of the loop: query the counter for k and file k by its count. */
  function Step(acc: Sweep, k: KeyMaterial, counter: Counter): Result<Sweep, string>
  {
    var b := KeyB64(k);
    match counter(b)
    case Err(e) => Err(e)
    case Ok(n) =>
      if n > 0 then Ok(Sweep(acc.retained + [k], acc.result.(retainedKeys := acc.result.retainedKeys + [b])))
      else Ok(Sweep(acc.retained, acc.result.(removedKeys := acc.result.removedKeys + [b])))
  }

  /** The loop over a list of keys, front to back, stopping at the first counter error. */
  function SweepKeys(ks: seq<KeyMaterial>, counter: Counter): Result<Sweep, string>
    decreases |ks|
  {
    if ks == [] then Ok(EmptySweep)
    else match SweepKeys(ks[..|ks| - 1], counter)
      case Err(e) => Err(e)
      case Ok(acc) => Step(acc, ks[|ks| - 1], counter)
  }

  /** Reference definition: the keys of ks whose in-use status is `used`, in their original order. */
  function Keep(ks: seq<KeyMaterial>, counter: Counter, used: bool): seq<KeyMaterial>
  {
    if ks == [] then []
    else Keep(ks[..|ks| - 1], counter, used)
         + (if InUse(counter, KeyB64(ks[|ks| - 1])) == used then [ks[|ks| - 1]] else [])
  }

  /** The counter answered every key. */
  predicate AllCounted(ks: seq<KeyMaterial>, counter: Counter)
  {
    forall i :: 0 <= i < |ks| ==> counter(KeyB64(ks[i])).Ok?
  }

  /** One more iteration from a prefix's state gives the state of the longer prefix. */
  lemma SweepExtend(ks: seq<KeyMaterial>, i: nat, counter: Counter)
    requires i < |ks|
    ensures SweepKeys(ks[..i + 1], counter) ==
            match SweepKeys(ks[..i], counter)
            case Err(e) => Err(e)
            case Ok(acc) => Step(acc, ks[i], counter)
  {
    assert ks[..i + 1][..i] == ks[..i];
  }

  /** Once a prefix fails, the whole list fails with the same error. */
  lemma {:induction false} SweepErrSticks(ks: seq<KeyMaterial>, i: nat, counter: Counter)
    requires i <= |ks| && SweepKeys(ks[..i], counter).Err?
    ensures SweepKeys(ks, counter) == SweepKeys(ks[..i], counter)
    decreases |ks| - i
  {
    if i < |ks| {
      SweepExtend(ks, i, counter);
      SweepErrSticks(ks, i + 1, counter);
    } else {
      assert ks[..i] == ks;
    }
  }

  /**
   * The sweep succeeds exactly when the counter answers every key, and then
   * its outcome is the reference split: the in-use keys are retained, the
   * others removed, each list in the original order.
   */
  lemma {:induction false} SweepMeaning(ks: seq<KeyMaterial>, counter: Counter)
    ensures SweepKeys(ks, counter).Ok? <==> AllCounted(ks, counter)
    ensures SweepKeys(ks, counter).Ok? ==>
      && SweepKeys(ks, counter).value.retained == Keep(ks, counter, true)
      && SweepKeys(ks, counter).value.result.retainedKeys == KeysB64(Keep(ks, counter, true))
      && SweepKeys(ks, counter).value.result.removedKeys == KeysB64(Keep(ks, counter, false))
    decreases |ks|
  {
    if ks != [] {
      var front := ks[..|ks| - 1];
      var last := ks[|ks| - 1];
      SweepMeaning(front, counter);
      if AllCounted(front, counter) && counter(KeyB64(last)).Ok? {
        assert AllCounted(ks, counter) by {
          forall i | 0 <= i < |ks| ensures counter(KeyB64(ks[i])).Ok? {
            if i < |ks| - 1 { assert ks[i] == front[i]; }
          }
        }
      }
      if AllCounted(ks, counter) {
        forall i | 0 <= i < |front| ensures counter(KeyB64(front[i])).Ok? {
          assert front[i] == ks[i];
        }
      }
    }
  }

  /** When a query fails, the error returned is the one for the first key whose query fails. */
  lemma {:induction false} SweepFirstError(ks: seq<KeyMaterial>, counter: Counter, i: nat)
    requires i < |ks| && counter(KeyB64(ks[i])).Err?
    requires forall j :: 0 <= j < i ==> counter(KeyB64(ks[j])).Ok?
    ensures SweepKeys(ks, counter) == Err(counter(KeyB64(ks[i])).error)
  {
    SweepMeaning(ks[..i], counter);
    assert AllCounted(ks[..i], counter) by {
      forall j | 0 <= j < i ensures counter(KeyB64(ks[..i][j])).Ok? {
        assert ks[..i][j] == ks[j];
      }
    }
    SweepExtend(ks, i, counter);
    SweepErrSticks(ks, i + 1, counter);
  }

  lemma KeysB64Append(a: seq<KeyMaterial>, b: seq<KeyMaterial>)
    ensures KeysB64(a + b) == KeysB64(a) + KeysB64(b)
  {
  }

  /** Splitting off the last key of ks, for either status. */
  lemma KeepLast(ks: seq<KeyMaterial>, counter: Counter)
    requires ks != []
    ensures var front, last := ks[..|ks| - 1], ks[|ks| - 1];
      if InUse(counter, KeyB64(last)) then
        Keep(ks, counter, true) == Keep(front, counter, true) + [last] && Keep(ks, counter, false) == Keep(front, counter, false)
      else
        Keep(ks, counter, false) == Keep(front, counter, false) + [last] && Keep(ks, counter, true) == Keep(front, counter, true)
  {
  }

  /** The two reference lists together hold every key exactly as often as ks does. */
  lemma {:induction false} KeepPartition(ks: seq<KeyMaterial>, counter: Counter)
    ensures multiset(Keep(ks, counter, true)) + multiset(Keep(ks, counter, false)) == multiset(ks)
    decreases |ks|
  {
    if ks != [] {
      var front, last := ks[..|ks| - 1], ks[|ks| - 1];
      KeepPartition(front, counter);
      var yes, no := Keep(front, counter, true), Keep(front, counter, false);
      var used := InUse(counter, KeyB64(last));
      assert Keep(ks, counter, true) == yes + (if used then [last] else []);
      assert Keep(ks, counter, false) == no + (if used then [] else [last]);
      assert ks == front + [last];
    }
  }

  /** The same partition, for the base64url lists that RemoveUnusedKeys returns. */
  lemma {:induction false} KeepPartitionB64(ks: seq<KeyMaterial>, counter: Counter)
    ensures multiset(KeysB64(Keep(ks, counter, true))) + multiset(KeysB64(Keep(ks, counter, false))) == multiset(KeysB64(ks))
    decreases |ks|
  {
    if ks != [] {
      var front, last := ks[..|ks| - 1], ks[|ks| - 1];
      KeepPartitionB64(front, counter);
      KeepLast(ks, counter);
      assert ks == front + [last];
      KeysB64Append(front, [last]);
      KeysB64Append(Keep(front, counter, true), [last]);
      KeysB64Append(Keep(front, counter, false), [last]);
    }
  }

  /** Every key kept with status `used` really has that status, and every key of that status is kept. */
  lemma {:induction false} KeepMembers(ks: seq<KeyMaterial>, counter: Counter, used: bool)
    ensures forall k :: k in Keep(ks, counter, used) <==> k in ks && InUse(counter, KeyB64(k)) == used
    decreases |ks|
  {
    if ks != [] {
      var front := ks[..|ks| - 1];
      KeepMembers(front, counter, used);
      assert ks == front + [ks[|ks| - 1]];
    }
  }

  /**
   * No key string is both removed and retained: whether a key is in use
   * depends only on its base64url form, so duplicates fall on the same side.
   */
  lemma NoOverlap(ks: seq<KeyMaterial>, counter: Counter)
    ensures forall b :: b in KeysB64(Keep(ks, counter, true)) ==> b !in KeysB64(Keep(ks, counter, false))
  {
    KeepMembers(ks, counter, true);
    KeepMembers(ks, counter, false);
    var yes, no := Keep(ks, counter, true), Keep(ks, counter, false);
    forall b | b in KeysB64(yes) ensures b !in KeysB64(no) {
      var i :| 0 <= i < |yes| && KeysB64(yes)[i] == b;
      assert yes[i] in yes;
    }
  }

  /** When every key is in use nothing is removed; when none is, nothing is retained. */
  lemma {:induction false} KeepExtremes(ks: seq<KeyMaterial>, counter: Counter)
    ensures (forall i :: 0 <= i < |ks| ==> InUse(counter, KeyB64(ks[i]))) ==>
              Keep(ks, counter, true) == ks && Keep(ks, counter, false) == []
    ensures (forall i :: 0 <= i < |ks| ==> !InUse(counter, KeyB64(ks[i]))) ==>
              Keep(ks, counter, true) == [] && Keep(ks, counter, false) == ks
    decreases |ks|
  {
    if ks != [] {
      var front := ks[..|ks| - 1];
      assert forall i :: 0 <= i < |front| ==> front[i] == ks[i];
      KeepExtremes(front, counter);
      assert ks == front + [ks[|ks| - 1]];
    }
  }
}
