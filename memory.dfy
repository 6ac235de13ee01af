/**
 * `Memory` of storage/memory.go: subscription records kept in a map from
 * record ID to a private copy of the record. The store never hands out its
 * own copies, so records are values here; the caller's record passed to
 * `Save` is an object, since `Save` stamps its times in place.
 */
module MemoryStore {
  import opened Wrappers
  import opened Subscriptions
  import opened KeyRing
  import opened Cleanup

  /** `time.Time`, with the zero time distinguished: only it counts as unset. */
  datatype Time = ZeroTime | Instant(unixNano: int)

  /** A stored `Record`: the copy the store keeps and the copies it returns. */
  datatype Entry = Entry(id: string, userId: string, subscription: Subscription,
                         createdAt: Time, updatedAt: Time, vapidKey: string)

  datatype StoreError =
    | NotFound        // ErrNotFound, "record not found"
    | IndexPanic      // the run-time panic of List for a negative limit, or a negative offset with a positive limit

  /** The caller's `*Record`. */
  class Record {
    var id: string
    var userId: string
    var subscription: Subscription
    var createdAt: Time
    var updatedAt: Time
    var vapidKey: string

    constructor (id: string, userId: string, subscription: Subscription, vapidKey: string)
      ensures this.id == id && this.userId == userId && this.subscription == subscription
      ensures this.vapidKey == vapidKey && createdAt == ZeroTime && updatedAt == ZeroTime
    {
      this.id := id;
      this.userId := userId;
      this.subscription := subscription;
      this.vapidKey := vapidKey;
      createdAt := ZeroTime;
      updatedAt := ZeroTime;
    }

    /** The field-by-field copy Save stores. */
    function Snapshot(): (e: Entry)
      reads this
    {
      Entry(id, userId, subscription, createdAt, updatedAt, vapidKey)
    }
  }

  /** The IDs of the stored records with the given VAPID key. */
  function WithVapidKey(records: map<string, Entry>, vapidKey: string): set<string>
  {
    set id | id in records && records[id].vapidKey == vapidKey
  }

  /** The IDs of the stored records of the given user. */
  function WithUserId(records: map<string, Entry>, userId: string): set<string>
  {
    set id | id in records && records[id].userId == userId
  }

  /** The IDs of the records in a result list. */
  function IdsOf(s: seq<Entry>): set<string>
  {
    set i | 0 <= i < |s| :: s[i].id
  }

  lemma IdsOfAppend(s: seq<Entry>, e: Entry)
    ensures IdsOf(s + [e]) == IdsOf(s) + {e.id}
  {
    var t := s + [e];
    assert t[|s|] == e;
    forall x | x in IdsOf(s) ensures x in IdsOf(t) {
      var i :| 0 <= i < |s| && s[i].id == x;
      assert t[i] == s[i];
    }
  }

  /** A result list drawn from the store: each entry is the stored record of its ID, no ID twice. */
  predicate FromStore(records: map<string, Entry>, s: seq<Entry>)
  {
    |IdsOf(s)| == |s| && forall i :: 0 <= i < |s| ==> s[i].id in records && records[s[i].id] == s[i]
  }

  /** Appending the stored record of an ID not yet in the list keeps the list drawn from the store. */
  lemma FromStoreAppend(records: map<string, Entry>, s: seq<Entry>, id: string)
    requires FromStore(records, s) && id in records && records[id].id == id && id !in IdsOf(s)
    ensures FromStore(records, s + [records[id]]) && IdsOf(s + [records[id]]) == IdsOf(s) + {id}
  {
    IdsOfAppend(s, records[id]);
  }

  /** CountByVAPIDKey, as the subscription counter that RemoveUnusedKeys consults. */
  function StoreCounter(records: map<string, Entry>): Counter
  {
    (vapidKey: string) => Ok(|WithVapidKey(records, vapidKey)| as int)
  }

  /** Against the store's counter, exactly the keys with no stored subscription are removed. */
  lemma {:induction false} RemovedKeysHaveNoSubscriptions(records: map<string, Entry>, previous: seq<KeyMaterial>)
    ensures SweepKeys(previous, StoreCounter(records)).Ok?
    ensures forall k :: k in Keep(previous, StoreCounter(records), false) <==>
                          k in previous && WithVapidKey(records, KeyB64(k)) == {}
    ensures forall k :: k in Keep(previous, StoreCounter(records), true) <==>
                          k in previous && WithVapidKey(records, KeyB64(k)) != {}
  {
    var counter := StoreCounter(records);
    SweepMeaning(previous, counter);
    KeepMembers(previous, counter, false);
    KeepMembers(previous, counter, true);
    forall k ensures InUse(counter, KeyB64(k)) <==> WithVapidKey(records, KeyB64(k)) != {} {
      assert counter(KeyB64(k)) == Ok(|WithVapidKey(records, KeyB64(k))| as int);
    }
  }

  class Memory {
    var records: map<string, Entry>

    /** Every record is stored under its own ID. */
    predicate Valid()
      reads this
    {
      forall id :: id in records ==> records[id].id == id
    }

    /** `NewMemory`: an empty store. */
    constructor ()
      ensures records == map[] && Valid()
    {
      records := map[];
    }

    /**
     * `Save`: stamps the caller's record (CreatedAt only when unset,
     * UpdatedAt always) and stores a copy under its ID, replacing any record
     * with that ID.
     */
    method Save(record: Record, now: int)
      requires Valid()
      modifies this, record
      ensures Valid()
      ensures record.createdAt == (if old(record.createdAt) == ZeroTime then Instant(now) else old(record.createdAt))
      ensures record.updatedAt == Instant(now)
      ensures record.id == old(record.id) && record.userId == old(record.userId)
      ensures record.subscription == old(record.subscription) && record.vapidKey == old(record.vapidKey)
      ensures records == old(records)[record.id := record.Snapshot()]
    {
      if record.createdAt == ZeroTime {
        record.createdAt := Instant(now);
      }
      record.updatedAt := Instant(now);
      var stored := Entry(record.id, record.userId, record.subscription, record.createdAt, record.updatedAt, record.vapidKey);
      records := records[record.id := stored];
    }

    /** `Get`: a copy of the record with that ID, or ErrNotFound. */
    method Get(id: string) returns (r: Result<Entry, StoreError>)
      ensures id in records ==> r == Ok(records[id])
      ensures id !in records ==> r == Err(NotFound)
    {
      if id !in records {
        return Err(NotFound);
      }
      r := Ok(records[id]);
    }

    /** `GetByEndpoint`: some record with that endpoint (which one follows map order), or ErrNotFound. */
    method GetByEndpoint(endpoint: string) returns (r: Result<Entry, StoreError>)
      ensures r.Ok? ==> r.value.id in records && records[r.value.id] == r.value && r.value.subscription.endpoint == endpoint
      ensures r.Err? <==> forall id :: id in records ==> records[id].subscription.endpoint != endpoint
      ensures r.Err? ==> r.error == NotFound
      requires Valid()
    {
      var ids := records.Keys;
      while ids != {}
        invariant ids <= records.Keys
        invariant forall id :: id in records && id !in ids ==> records[id].subscription.endpoint != endpoint
        decreases |ids|
      {
        var id :| id in ids;
        if records[id].subscription.endpoint == endpoint {
          return Ok(records[id]);
        }
        ids := ids - {id};
      }
      r := Err(NotFound);
    }

    /** `GetByUserID`: every record of the user, each once, in map order. */
    method GetByUserID(userId: string) returns (results: seq<Entry>)
      requires Valid()
      ensures FromStore(records, results)
      ensures IdsOf(results) == WithUserId(records, userId)
      ensures |results| == |WithUserId(records, userId)|
    {
      results := [];
      var ids := records.Keys;
      while ids != {}
        invariant ids <= records.Keys
        invariant FromStore(records, results)
        invariant IdsOf(results) == WithUserId(records, userId) - ids
        decreases |ids|
      {
        var id :| id in ids;
        if records[id].userId == userId {
          FromStoreAppend(records, results, id);
          assert WithUserId(records, userId) - (ids - {id}) == IdsOf(results) + {id};
          results := results + [records[id]];
        } else {
          assert WithUserId(records, userId) - (ids - {id}) == IdsOf(results);
        }
        ids := ids - {id};
      }
    }

    /** `GetByVAPIDKey`: every record made under that VAPID key, each once, in map order. */
    method GetByVAPIDKey(vapidKey: string) returns (results: seq<Entry>)
      requires Valid()
      ensures FromStore(records, results)
      ensures IdsOf(results) == WithVapidKey(records, vapidKey)
      ensures |results| == |WithVapidKey(records, vapidKey)|
    {
      results := [];
      var ids := records.Keys;
      while ids != {}
        invariant ids <= records.Keys
        invariant FromStore(records, results)
        invariant IdsOf(results) == WithVapidKey(records, vapidKey) - ids
        decreases |ids|
      {
        var id :| id in ids;
        if records[id].vapidKey == vapidKey {
          FromStoreAppend(records, results, id);
          assert WithVapidKey(records, vapidKey) - (ids - {id}) == IdsOf(results) + {id};
          results := results + [records[id]];
        } else {
          assert WithVapidKey(records, vapidKey) - (ids - {id}) == IdsOf(results);
        }
        ids := ids - {id};
      }
    }

    /** `CountByVAPIDKey`: the number of records made under that VAPID key, the length of GetByVAPIDKey's list. */
    method CountByVAPIDKey(vapidKey: string) returns (r: Result<int, string>)
      ensures r == StoreCounter(records)(vapidKey)
      ensures r == Ok(|WithVapidKey(records, vapidKey)|)
    {
      var count := 0;
      var ids := records.Keys;
      while ids != {}
        invariant ids <= records.Keys
        invariant count == |WithVapidKey(records, vapidKey) - ids|
        decreases |ids|
      {
        var id :| id in ids;
        if records[id].vapidKey == vapidKey {
          assert WithVapidKey(records, vapidKey) - (ids - {id}) == (WithVapidKey(records, vapidKey) - ids) + {id};
          count := count + 1;
        } else {
          assert WithVapidKey(records, vapidKey) - (ids - {id}) == WithVapidKey(records, vapidKey) - ids;
        }
        ids := ids - {id};
      }
      r := Ok(count);
    }

    /** `Delete`: removes the record with that ID, or fails with ErrNotFound and changes nothing. */
    method Delete(id: string) returns (r: Result<(), StoreError>)
      requires Valid()
      modifies this
      ensures Valid()
      ensures id !in old(records) ==> r == Err(NotFound) && records == old(records)
      ensures id in old(records) ==> r == Ok(()) && records == old(records) - {id}
    {
      if id !in records {
        return Err(NotFound);
      }
      records := records - {id};
      r := Ok(());
    }

    /** `DeleteByEndpoint`: removes one record with that endpoint, or fails with ErrNotFound and changes nothing. */
    method DeleteByEndpoint(endpoint: string) returns (r: Result<(), StoreError>)
      requires Valid()
      modifies this
      ensures Valid()
      ensures r.Err? <==> forall id :: id in old(records) ==> old(records)[id].subscription.endpoint != endpoint
      ensures r.Err? ==> r.error == NotFound && records == old(records)
      ensures r.Ok? ==> exists id :: id in old(records) && old(records)[id].subscription.endpoint == endpoint
                                     && records == old(records) - {id}
    {
      var ids := records.Keys;
      while ids != {}
        invariant ids <= records.Keys && records == old(records)
        invariant forall id :: id in records && id !in ids ==> records[id].subscription.endpoint != endpoint
        decreases |ids|
      {
        var id :| id in ids;
        if records[id].subscription.endpoint == endpoint {
          records := records - {id};
          return Ok(());
        }
        ids := ids - {id};
      }
      r := Err(NotFound);
    }

    /** Every stored record once, in map order: the `all` slice List collects first. */
    method Collect() returns (all: seq<Entry>)
      requires Valid()
      ensures FromStore(records, all) && IdsOf(all) == records.Keys && |all| == |records|
    {
      all := [];
      var ids := records.Keys;
      while ids != {}
        invariant ids <= records.Keys
        invariant FromStore(records, all)
        invariant IdsOf(all) == records.Keys - ids
        decreases |ids|
      {
        var id :| id in ids;
        FromStoreAppend(records, all, id);
        assert records.Keys - (ids - {id}) == IdsOf(all) + {id};
        all := all + [records[id]];
        ids := ids - {id};
      }
    }

    /**
     * `List`: the records from position offset, at most limit of them, in
     * map order; empty when offset is past the end, and empty when offset is
     * negative and limit is zero (`make` gets capacity 0 and the loop never
     * runs). A negative limit panics in `make`, and a negative offset with a
     * positive limit panics on the index `all[offset]`.
     */
    method List(limit: int, offset: int) returns (r: Result<seq<Entry>, StoreError>)
      requires Valid()
      ensures r.Err? <==> offset < |records| && (limit < 0 || (offset < 0 && limit > 0))
      ensures r.Err? ==> r.error == IndexPanic
      ensures r.Ok? ==> FromStore(records, r.value)
      ensures r.Ok? && offset >= |records| ==> r.value == []
      ensures r.Ok? && offset < 0 ==> r.value == []
      ensures r.Ok? && 0 <= offset < |records| ==>
                |r.value| == (if limit < |records| - offset then limit else |records| - offset)
    {
      var all := Collect();
      if offset >= |all| {
        return Ok([]);
      }
      var end := offset + limit;
      if end > |all| {
        end := |all|;
      }
      if end - offset < 0 {
        return Err(IndexPanic);
      }
      if offset < 0 && offset < end {
        return Err(IndexPanic);
      }
      if offset < 0 {
        return Ok([]);
      }
      var results := [];
      var i := offset;
      while i < end
        invariant offset <= i <= end
        invariant results == all[offset..i]
      {
        results := results + [all[i]];
        i := i + 1;
      }
      SliceFromStore(records, all, offset, end);
      r := Ok(results);
    }
  }

  /** A slice of a list drawn from the store is drawn from the store. */
  lemma SliceFromStore(records: map<string, Entry>, all: seq<Entry>, lo: int, hi: int)
    requires 0 <= lo <= hi <= |all| && FromStore(records, all)
    ensures FromStore(records, all[lo..hi])
  {
    var s := all[lo..hi];
    DistinctIds(all);
    assert forall i, j :: 0 <= i < j < |s| ==> s[i].id != s[j].id by {
      forall i, j | 0 <= i < j < |s| ensures s[i].id != s[j].id {
        assert s[i] == all[lo + i] && s[j] == all[lo + j];
      }
    }
    DistinctIdsCount(s);
  }

  /** A list whose IDs are as many as its entries has no ID twice. */
  lemma {:induction false} DistinctIds(s: seq<Entry>)
    requires |IdsOf(s)| == |s|
    ensures forall i, j :: 0 <= i < j < |s| ==> s[i].id != s[j].id
  {
    if s != [] {
      var front := s[..|s| - 1];
      var last := s[|s| - 1];
      assert s == front + [last];
      IdsOfAppend(front, last);
      IdsBound(front);
      assert last.id !in IdsOf(front);
      assert |IdsOf(front)| == |front|;
      DistinctIds(front);
      forall i | 0 <= i < |front| ensures front[i].id != last.id {
        assert front[i].id in IdsOf(front);
      }
    }
  }

  lemma {:induction false} IdsBound(s: seq<Entry>)
    ensures |IdsOf(s)| <= |s|
  {
    if s != [] {
      var front := s[..|s| - 1];
      assert s == front + [s[|s| - 1]];
      IdsOfAppend(front, s[|s| - 1]);
      IdsBound(front);
    }
  }

  /** A list with no ID twice has as many IDs as entries. */
  lemma {:induction false} DistinctIdsCount(s: seq<Entry>)
    requires forall i, j :: 0 <= i < j < |s| ==> s[i].id != s[j].id
    ensures |IdsOf(s)| == |s|
  {
    if s != [] {
      var front := s[..|s| - 1];
      var last := s[|s| - 1];
      assert s == front + [last];
      IdsOfAppend(front, last);
      DistinctIdsCount(front);
      assert last.id !in IdsOf(front);
    }
  }
}
