/** The write-ahead store of pending events, one call at a time: a bolt bucket
    keyed by event id and the `closed` flag. Whether a bolt transaction commits
    is left to chance. The interleavings of its callers are in
    PersistenceProtocol. */
module Persistence {
  import opened Events

  function IdsOf(ids: seq<int>): set<int> {
    set id | id in ids
  }

  /** Walks the bucket in whatever order its keys come. */
  method ListAll(bucket: map<int, PendingEvent>) returns (list: seq<PendingEvent>)
    requires forall id :: id in bucket ==> bucket[id].eventID == id
    ensures forall e :: e in list <==> e.eventID in bucket && bucket[e.eventID] == e
    ensures forall i, j :: 0 <= i < j < |list| ==> list[i].eventID != list[j].eventID
    ensures |list| == |bucket|
  {
    list := [];
    var left := bucket.Keys;
    while left != {}
      invariant left <= bucket.Keys
      invariant |list| + |left| == |bucket.Keys|
      invariant forall e :: e in list <==> e.eventID in bucket.Keys - left && bucket[e.eventID] == e
      invariant forall i, j :: 0 <= i < j < |list| ==> list[i].eventID != list[j].eventID
      decreases |left|
    {
      var id := PickKey(left);
      forall k | 0 <= k < |list| ensures list[k].eventID != id {
        assert list[k] in list;
      }
      list := list + [bucket[id]];
      left := left - {id};
    }
  }

  method PickKey<T>(keys: set<T>) returns (id: T)
    requires keys != {}
    ensures id in keys
  {
    id :| id in keys;
  }

  /** A bolt transaction that was attempted. */
  datatype Attempt = Put(event: PendingEvent) | Delete(ids: seq<int>)

  class PendingStore {
    var bucket: map<int, PendingEvent>
    var closed: bool
    /** Whether the database file can be read, and which of its entries cannot be
        decoded; the environment decides. */
    var readable: bool
    var corrupt: set<int>
    /** Every transaction attempted, committed or not. */
    ghost var attempts: seq<Attempt>

    /** Every entry is filed under its own id. */
    predicate Valid()
      reads this
    {
      forall id :: id in bucket ==> bucket[id].eventID == id
    }

    /** The entries that can be decoded. */
    function Pending(): map<int, PendingEvent>
      reads this
    {
      bucket - corrupt
    }

    constructor (readable: bool)
      ensures Valid() && bucket == map[] && !closed && attempts == []
      ensures this.readable == readable && corrupt == {}
    {
      corrupt := {};
      bucket := map[];
      closed := false;
      this.readable := readable;
      attempts := [];
    }

    /** One request of the write loop. */
    method Write(event: PendingEvent) returns (ok: bool)
      requires Valid()
      modifies this`bucket, this`attempts
      ensures Valid()
      ensures closed ==> !ok
      ensures bucket == if ok then old(bucket)[event.eventID := event] else old(bucket)
      ensures attempts == if closed then old(attempts) else old(attempts) + [Put(event)]
    {
      if closed {
        return false;
      }
      attempts := attempts + [Put(event)];
      ok := *;
      if ok {
        bucket := bucket[event.eventID := event];
      }
    }

    /** Deletes the given ids in one transaction. A key that cannot be deleted is
        passed over. */
    method Remove(ids: seq<int>) returns (ok: bool, ghost deleted: set<int>)
      requires Valid()
      modifies this`bucket, this`attempts
      ensures Valid()
      ensures closed ==> !ok
      ensures deleted <= IdsOf(ids) && (!ok ==> deleted == {})
      ensures bucket == old(bucket) - deleted
      ensures attempts == if closed || ids == [] then old(attempts) else old(attempts) + [Delete(ids)]
    {
      deleted := {};
      assert bucket - {} == bucket;
      if closed {
        return false, deleted;
      }
      if |ids| == 0 {
        return true, deleted;
      }
      attempts := attempts + [Delete(ids)];
      var work := bucket;
      ghost var gone: set<int> := {};
      for i := 0 to |ids|
        invariant work == bucket - gone && gone <= IdsOf(ids)
      {
        var fails: bool := *;
        if !fails {
          work := work - {ids[i]};
          gone := gone + {ids[i]};
        }
      }
      ok := *;
      if ok {
        bucket := work;
        deleted := gone;
      }
    }

    /** All pending events that can be decoded, each once, in the bucket's own order. */
    method Recover() returns (events: Option<seq<PendingEvent>>)
      requires Valid()
      ensures events.None? <==> closed || !readable
      ensures events.Some? ==>
                && (forall e :: e in events.value <==> e.eventID in Pending() && Pending()[e.eventID] == e)
                && (forall i, j :: 0 <= i < j < |events.value| ==> events.value[i].eventID != events.value[j].eventID)
                && |events.value| == |Pending()|
    {
      if closed {
        return None;
      }
      if !readable {
        return None;
      }
      var list := ListAll(Pending());
      events := Some(list);
    }

    method Close()
      modifies this`closed
      ensures closed
    {
      closed := true;
    }
  }
}
