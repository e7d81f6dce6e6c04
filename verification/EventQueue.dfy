/** The event queue, one call at a time: each method runs to completion before
    the next one starts. What other goroutines may do in between is in
    Pipeline. */
module EventQueues {
  import opened Events
  import opened Sums
  import opened DeadLetter
  import opened Persistence
  import opened FlushRemoval
  import Retrying = BatchRetrying

  datatype Config = Config(maxSize: int, batchSize: int, flushInterval: int, maxAttempts: int, deadLetterQueueSize: nat)

  datatype ConfigError = MaxSizeNotPositive | BatchSizeNotPositive | BatchLargerThanMax | IntervalNotPositive

  /** The checks made when a queue is created, in order. */
  function Validate(c: Config): (r: Option<ConfigError>)
    ensures r.None? <==> 0 < c.batchSize <= c.maxSize && 0 < c.flushInterval
    ensures r == Some(MaxSizeNotPositive) <==> c.maxSize <= 0
    ensures r == Some(BatchSizeNotPositive) ==> c.batchSize <= 0 < c.maxSize
    ensures r == Some(BatchLargerThanMax) ==> 0 < c.maxSize < c.batchSize
    ensures r == Some(IntervalNotPositive) ==> 0 < c.batchSize <= c.maxSize && c.flushInterval <= 0
  {
    if c.maxSize <= 0 then Some(MaxSizeNotPositive)
    else if c.batchSize <= 0 then Some(BatchSizeNotPositive)
    else if c.batchSize > c.maxSize then Some(BatchLargerThanMax)
    else if c.flushInterval <= 0 then Some(IntervalNotPositive)
    else None
  }

  datatype EnqueueResult = Queued(depth: int) | Stopped | Full | ChannelFull

  class EventQueue {
    const config: Config
    const dlq: DeadLetterQueue<Event>
    const persistence: PendingStore?

    var channel: seq<PendingEvent>
    var batch: seq<PendingEvent>
    var started: bool
    var stopped: bool
    var currentDepth: int
    var maxDepth: int
    var totalEnqueued: int
    var totalFlushed: int
    var totalFailed: int

    /** Every event that entered the channel, in order. */
    ghost var sent: seq<PendingEvent>
    /** The batches flushed so far. */
    ghost var flushed: seq<seq<PendingEvent>>
    /** Every event stored through the queue. */
    ghost var stored: seq<Event>
    ghost var recovered: nat

    ghost predicate Parts()
      reads this
    {
      && Validate(config).None?
      && dlq.maxSize == config.deadLetterQueueSize
      && |channel| <= config.maxSize
    }

    /** Events leave in the order they came: flushed batches, then the batch in
        hand, then the channel. */
    ghost predicate Fifo()
      reads this
    {
      InOrderOf(sent, Flat(flushed))(batch, channel)
    }

    /** The counters, even after the dead-letter queue has evicted entries. */
    ghost predicate Accounts()
      reads this, dlq
    {
      && totalEnqueued == |sent|
      && totalEnqueued == totalFlushed + |dlq.events| + |batch| + |channel|
      && totalFlushed == |stored| + (|dlq.history| - |dlq.events|)
      && currentDepth == |channel| - recovered
      && currentDepth <= Max(maxDepth, 0) <= config.maxSize
    }

    ghost predicate Valid()
      reads this, dlq, persistence
    {
      && Parts() && dlq.Valid() && Fifo() && Accounts() && ConservedOf(Flat(flushed))(stored, dlq.history)
      && (persistence != null ==> persistence.Valid())
    }

    constructor (config: Config, persistence: PendingStore?)
      requires Validate(config).None?
      requires persistence != null ==> persistence.Valid()
      ensures Valid() && fresh(dlq)
      ensures this.config == config && this.persistence == persistence
      ensures channel == [] && batch == [] && sent == [] && !started && !stopped
    {
      this.config := config;
      this.persistence := persistence;
      this.dlq := new DeadLetterQueue<Event>(config.deadLetterQueueSize);
      channel, batch, started, stopped := [], [], false, false;
      currentDepth, maxDepth, totalEnqueued, totalFlushed, totalFailed := 0, 0, 0, 0, 0;
      sent, flushed, stored, recovered := [], [], [], 0;
      NothingFlushed();
      NothingSent();
    }

    /** The first call puts the pending events of an earlier process back into the
        channel; those that find no room stay in the write-ahead store only. A
        second call is refused. */
    method Start() returns (ok: bool, requeued: nat)
      requires Valid()
      modifies this
      ensures Valid()
      ensures started && stopped == old(stopped) && maxDepth == old(maxDepth)
      ensures ok <==> !old(started) && (persistence == null || (!persistence.closed && persistence.readable))
      ensures !ok || persistence == null ==> channel == old(channel) && sent == old(sent)
      ensures batch == old(batch) && flushed == old(flushed) && stored == old(stored)
      ensures recovered == old(recovered) + requeued
      ensures |channel| == |old(channel)| + requeued
      ensures old(channel) <= channel
      ensures persistence != null ==> forall e :: e in channel[|old(channel)|..] ==>
                e.eventID in persistence.Pending() && persistence.Pending()[e.eventID] == e
      ensures forall i, j :: |old(channel)| <= i < j < |channel| ==> channel[i].eventID != channel[j].eventID
      ensures ok && persistence != null && requeued < |persistence.Pending()| ==> |channel| == config.maxSize
    {
      requeued := 0;
      ok := true;
      if started {
        return false, 0;
      }
      started := true;
      if persistence == null {
        return;
      }
      var pending := persistence.Recover();
      if pending.None? {
        return false, 0;
      }
      var events := pending.value;
      requeued := Requeue(events);
      assert channel[|old(channel)|..] == events[..requeued];
      PrefixElements(events, requeued);
    }

    /** Sends the events in order as long as there is room. */
    method Requeue(events: seq<PendingEvent>) returns (requeued: nat)
      requires Valid()
      modifies this`channel, this`sent, this`totalEnqueued, this`recovered
      ensures Valid()
      ensures requeued <= |events| && (requeued < |events| ==> |channel| == config.maxSize)
      ensures channel == old(channel) + events[..requeued]
      ensures recovered == old(recovered) + requeued
    {
      requeued := 0;
      for i := 0 to |events|
        invariant Valid()
        invariant requeued <= i && (requeued < i ==> |channel| == config.maxSize)
        invariant channel == old(channel) + events[..requeued]
        invariant recovered == old(recovered) + requeued
      {
        if |channel| < config.maxSize {
          assert events[..requeued + 1] == events[..requeued] + [events[requeued]];
          SendKeepsOrder(sent, Flat(flushed), batch, channel, events[i]);
          channel := channel + [events[i]];
          sent := sent + [events[i]];
          totalEnqueued := totalEnqueued + 1;
          requeued := requeued + 1;
          recovered := recovered + 1;
        }
      }
    }

    method Enqueue(event: PendingEvent) returns (r: EnqueueResult)
      requires Valid()
      modifies this, persistence
      ensures Valid()
      ensures r.Stopped? <==> old(stopped)
      ensures r.Queued? <==> !old(stopped) && old(currentDepth) < config.maxSize && |old(channel)| < config.maxSize
      ensures r.Full? <==> !old(stopped) && old(currentDepth) >= config.maxSize
      ensures r.Queued? ==> r.depth == old(currentDepth) + 1
      ensures channel == if r.Queued? then old(channel) + [event] else old(channel)
      ensures sent == if r.Queued? then old(sent) + [event] else old(sent)
      ensures maxDepth == if r.Queued? then Max(old(maxDepth), r.depth) else old(maxDepth)
      ensures batch == old(batch) && flushed == old(flushed) && stored == old(stored)
      ensures started == old(started) && stopped == old(stopped) && recovered == old(recovered)
      ensures persistence != null && !persistence.closed && !r.Stopped? && !r.Full? ==>
                persistence.attempts == old(persistence.attempts) + [Put(event)]
    {
      if stopped {
        return Stopped;
      }
      if currentDepth >= config.maxSize {
        return Full;
      }
      Persist(event);
      if |channel| >= config.maxSize {
        return ChannelFull;
      }
      var depth := Send(event);
      r := Queued(depth);
    }

    /** Hands the event to the write-ahead store, if there is one. */
    method Persist(event: PendingEvent)
      requires persistence != null ==> persistence.Valid()
      modifies persistence
      ensures persistence != null ==> persistence.Valid() && persistence.closed == old(persistence.closed)
      ensures persistence != null && !persistence.closed ==>
                persistence.attempts == old(persistence.attempts) + [Put(event)]
    {
      if persistence != null {
        var ok := persistence.Write(event);
      }
    }

    /** Sends to a channel with room and counts. */
    method Send(event: PendingEvent) returns (depth: int)
      requires Valid() && |channel| < config.maxSize
      modifies this`channel, this`sent, this`totalEnqueued, this`currentDepth, this`maxDepth
      ensures Valid() && channel == old(channel) + [event] && sent == old(sent) + [event]
      ensures depth == old(currentDepth) + 1 && maxDepth == Max(old(maxDepth), depth)
    {
      SendKeepsOrder(sent, Flat(flushed), batch, channel, event);
      channel := channel + [event];
      sent := sent + [event];
      totalEnqueued := totalEnqueued + 1;
      currentDepth := currentDepth + 1;
      if currentDepth > maxDepth {
        maxDepth := currentDepth;
      }
      depth := currentDepth;
    }

    /** The loop's receive case: one event moves to the batch, which is flushed
        when it has reached its size. */
    method Receive()
      requires Valid() && |channel| > 0 && |batch| < config.batchSize
      modifies this, dlq, persistence
      ensures Valid() && |batch| < config.batchSize
      ensures started == old(started) && stopped == old(stopped) && maxDepth == old(maxDepth) && recovered == old(recovered)
      ensures sent == old(sent) && channel == old(channel)[1..]
      ensures |old(batch)| + 1 < config.batchSize ==>
                batch == old(batch) + [old(channel)[0]] && flushed == old(flushed)
      ensures |old(batch)| + 1 == config.batchSize ==>
                batch == [] && flushed == old(flushed) + [old(batch) + [old(channel)[0]]]
    {
      Take();
      if |batch| >= config.batchSize {
        FlushBatch();
      }
    }

    /** One event moves from the channel to the batch. */
    method Take()
      requires Valid() && |channel| > 0
      modifies this`channel, this`batch, this`currentDepth
      ensures Valid() && channel == old(channel)[1..] && batch == old(batch) + [old(channel)[0]]
    {
      TakeKeepsOrder(sent, Flat(flushed), batch, channel);
      batch := batch + [channel[0]];
      channel := channel[1..];
      currentDepth := currentDepth - 1;
    }

    method Tick()
      requires Valid()
      modifies this, dlq, persistence
      ensures Valid() && batch == []
      ensures started == old(started) && stopped == old(stopped) && maxDepth == old(maxDepth) && recovered == old(recovered)
      ensures sent == old(sent) && channel == old(channel)
      ensures flushed == if old(batch) == [] then old(flushed) else old(flushed) + [old(batch)]
    {
      if |batch| > 0 {
        FlushBatch();
      }
    }

    /** Shutdown's drain: empties the channel into the batch, whatever its size,
        and flushes once. Everything sent has then been stored or dead-lettered. */
    method Drain()
      requires Valid()
      modifies this, dlq, persistence
      ensures Valid() && channel == [] && batch == [] && sent == old(sent)
      ensures started == old(started) && stopped == old(stopped) && maxDepth == old(maxDepth) && recovered == old(recovered)
      ensures sent == Flat(flushed)
      ensures multiset(Models(sent)) == multiset(stored) + multiset(EventsOf(dlq.history))
    {
      while |channel| > 0
        modifies this`channel, this`batch, this`currentDepth
        invariant Valid()
        decreases |channel|
      {
        Take();
      }
      if |batch| > 0 {
        FlushBatch();
      }
      OrderFacts(sent, Flat(flushed), [], []);
      assert Flat(flushed) + [] + [] == Flat(flushed);
      ConservedFacts(sent, stored, dlq.history);
    }

    /** `flushBatch(batch)` followed by emptying the batch. */
    method FlushBatch()
      requires Valid() && |batch| > 0
      modifies this`batch, this`flushed, this`stored, this`totalFlushed, this`totalFailed, dlq, persistence
      ensures Valid() && batch == [] && flushed == old(flushed) + [old(batch)]
    {
      FlatSnoc(flushed, batch);
      FlushKeepsOrder(sent, Flat(flushed), batch, channel);
      ghost var storedBefore, historyBefore := stored, dlq.history;
      ghost var inserted, added, deleted := Flush(batch);
      SizesAdd(inserted, added, batch);
      FlushConserves(Flat(flushed), batch, storedBefore, inserted, historyBefore, added);
      flushed := flushed + [batch];
      batch := [];
    }

    /** Retries the batch into the store and then removes from the write-ahead
        store what it takes to have succeeded. */
    method Flush(events: seq<PendingEvent>)
        returns (ghost inserted: seq<Event>, ghost added: seq<Entry>, ghost deleted: set<int>)
      requires Parts() && dlq.Valid() && |events| > 0
      requires persistence != null ==> persistence.Valid()
      modifies this`stored, this`totalFlushed, this`totalFailed, dlq, persistence
      ensures dlq.Valid() && (persistence != null ==> persistence.Valid())
      ensures dlq.history == old(dlq.history) + added
      ensures stored == old(stored) + inserted
      ensures multiset(inserted) + multiset(EventsOf(added)) == multiset(Models(events))
      ensures totalFlushed == old(totalFlushed) + |events| - (|dlq.events| - |old(dlq.events)|)
      ensures totalFailed == |dlq.events|
      ensures persistence != null && !persistence.closed ==>
                var ids := Removed(Models(events), old(dlq.history), added, dlq.maxSize);
                persistence.attempts == old(persistence.attempts) + if ids == [] then [] else [Delete(ids)]
      ensures persistence != null ==>
                && deleted <= IdsOf(Removed(Models(events), old(dlq.history), added, dlq.maxSize))
                && persistence.bucket == old(persistence.bucket) - deleted
      ensures Fits(old(dlq.history), |added|, dlq.maxSize) ==>
                Exact(Models(events), added, Removed(Models(events), old(dlq.history), added, dlq.maxSize))
    {
      var modelEvents, ids := Convert(events);
      var idsToRemove, grown;
      idsToRemove, grown, inserted, added := RetryAndInfer(modelEvents, ids);
      ExactIfRoom(modelEvents, inserted, old(dlq.history), added, dlq.maxSize);
      deleted := RemoveDone(idsToRemove);
      stored := stored + inserted;
      totalFlushed := totalFlushed + (|ids| - grown);
      totalFailed := |dlq.events|;
    }

    /** Retries the batch and infers from the queue's growth what has succeeded. */
    method RetryAndInfer(modelEvents: seq<Event>, ids: seq<int>)
        returns (idsToRemove: seq<int>, grown: int, ghost inserted: seq<Event>, ghost added: seq<Entry>)
      requires dlq.Valid() && |modelEvents| > 0 && ids == Ids(modelEvents)
      modifies dlq
      ensures dlq.Valid() && dlq.history == old(dlq.history) + added
      ensures multiset(inserted) + multiset(EventsOf(added)) == multiset(modelEvents)
      ensures grown == |dlq.events| - |old(dlq.events)|
      ensures idsToRemove == Removed(modelEvents, old(dlq.history), added, dlq.maxSize)
    {
      var before := dlq.Len();
      var s;
      s, added, inserted := Retry(modelEvents);
      var entries := dlq.GetAll();
      grown := |entries| - before;
      idsToRemove := ComputeRemoval(ids, entries, grown);
    }

    /** Removes the ids from the write-ahead store, if there is one. */
    method RemoveDone(ids: seq<int>) returns (ghost deleted: set<int>)
      requires persistence != null ==> persistence.Valid()
      modifies persistence
      ensures persistence != null ==> persistence.Valid() && persistence.closed == old(persistence.closed)
      ensures persistence != null && !persistence.closed ==>
                persistence.attempts == old(persistence.attempts) + if ids == [] then [] else [Delete(ids)]
      ensures persistence != null ==> deleted <= IdsOf(ids) && persistence.bucket == old(persistence.bucket) - deleted
    {
      deleted := {};
      if persistence != null && |ids| > 0 {
        var ok;
        ok, deleted := persistence.Remove(ids);
      }
    }

    method Retry(items: seq<Event>) returns (s: Retrying.State, ghost added: seq<Entry>, ghost inserted: seq<Event>)
      requires dlq.Valid() && |items| > 0
      modifies dlq
      ensures dlq.Valid() && dlq.history == old(dlq.history) + added
      ensures multiset(inserted) + multiset(EventsOf(added)) == multiset(items)
    {
      ghost var k;
      s, k := Retrying.BatchRetry(config.maxAttempts, items, dlq);
      Retrying.ItemsConserved(config.maxAttempts, items, k, s);
      added := Retrying.Entries(config.maxAttempts, items, s);
      inserted := Pick(items, s.inserted);
      assert EventsOf(added) == Pick(items, s.dead);
    }
  }

  /** Sent events are the flushed ones, then the batch, then the channel. */
  ghost predicate InOrder(sent: seq<PendingEvent>, flat: seq<PendingEvent>, batch: seq<PendingEvent>, channel: seq<PendingEvent>) {
    sent == flat + batch + channel
  }

  ghost function InOrderOf(sent: seq<PendingEvent>, flat: seq<PendingEvent>): (seq<PendingEvent>, seq<PendingEvent>) -> bool {
    (batch, channel) => InOrder(sent, flat, batch, channel)
  }

  lemma NothingSent()
    ensures InOrderOf([], [])([], [])
  {
  }

  lemma SendKeepsOrder(sent: seq<PendingEvent>, flat: seq<PendingEvent>, batch: seq<PendingEvent>, channel: seq<PendingEvent>, e: PendingEvent)
    requires InOrderOf(sent, flat)(batch, channel)
    ensures InOrderOf(sent + [e], flat)(batch, channel + [e])
  {
    assert sent + [e] == flat + batch + (channel + [e]);
  }

  lemma TakeKeepsOrder(sent: seq<PendingEvent>, flat: seq<PendingEvent>, batch: seq<PendingEvent>, channel: seq<PendingEvent>)
    requires InOrderOf(sent, flat)(batch, channel) && |channel| > 0
    ensures InOrderOf(sent, flat)(batch + [channel[0]], channel[1..])
  {
    assert channel == [channel[0]] + channel[1..];
    assert flat + batch + channel == flat + (batch + [channel[0]]) + channel[1..];
  }

  lemma FlushKeepsOrder(sent: seq<PendingEvent>, flat: seq<PendingEvent>, batch: seq<PendingEvent>, channel: seq<PendingEvent>)
    requires InOrderOf(sent, flat)(batch, channel)
    ensures InOrderOf(sent, flat + batch)([], channel)
  {
    assert flat + batch + [] + channel == flat + batch + channel;
  }

  lemma OrderFacts(sent: seq<PendingEvent>, flat: seq<PendingEvent>, batch: seq<PendingEvent>, channel: seq<PendingEvent>)
    requires InOrderOf(sent, flat)(batch, channel)
    ensures sent == flat + batch + channel && |sent| == |flat| + |batch| + |channel|
  {
  }

  /** Everything flushed was stored or dead-lettered, each event as often. */
  ghost predicate Conserved(flushed: seq<PendingEvent>, stored: seq<Event>, history: seq<Entry>) {
    multiset(Models(flushed)) == multiset(stored) + multiset(EventsOf(history))
  }

  ghost function ConservedOf(flushed: seq<PendingEvent>): (seq<Event>, seq<Entry>) -> bool {
    (stored, history) => Conserved(flushed, stored, history)
  }

  lemma ConservedFacts(flushed: seq<PendingEvent>, stored: seq<Event>, history: seq<Entry>)
    requires ConservedOf(flushed)(stored, history)
    ensures multiset(Models(flushed)) == multiset(stored) + multiset(EventsOf(history))
  {
  }

  lemma NothingFlushed()
    ensures ConservedOf([])([], [])
  {
    assert Models([]) == [] && EventsOf([]) == [];
  }

  lemma FlushConserves(
      flushed: seq<PendingEvent>, batch: seq<PendingEvent>,
      stored: seq<Event>, inserted: seq<Event>, history: seq<Entry>, added: seq<Entry>)
    requires ConservedOf(flushed)(stored, history)
    requires multiset(inserted) + multiset(EventsOf(added)) == multiset(Models(batch))
    ensures ConservedOf(flushed + batch)(stored + inserted, history + added)
  {
    assert Models(flushed + batch) == Models(flushed) + Models(batch);
    assert EventsOf(history + added) == EventsOf(history) + EventsOf(added);
  }

  lemma ExactIfRoom(batch: seq<Event>, inserted: seq<Event>, history: seq<Entry>, added: seq<Entry>, maxSize: nat)
    requires multiset(inserted) + multiset(EventsOf(added)) == multiset(batch)
    ensures Fits(history, |added|, maxSize) ==> Exact(batch, added, Removed(batch, history, added, maxSize))
  {
    assert FailuresOf(added, batch);
    if Fits(history, |added|, maxSize) {
      ExactWhenFits(batch, history, added, maxSize);
    }
  }

  lemma SizesAdd(inserted: seq<Event>, added: seq<Entry>, events: seq<PendingEvent>)
    requires multiset(inserted) + multiset(EventsOf(added)) == multiset(Models(events))
    ensures |inserted| + |added| == |events|
  {
    assert |multiset(inserted) + multiset(EventsOf(added))| == |multiset(inserted)| + |multiset(EventsOf(added))|;
  }

  lemma PrefixElements<T>(s: seq<T>, n: nat)
    requires n <= |s|
    ensures forall x :: x in s[..n] ==> x in s
  {
  }

  /** Builds the model events and the id list of a batch. */
  method Convert(events: seq<PendingEvent>) returns (modelEvents: seq<Event>, ids: seq<int>)
    ensures modelEvents == Models(events) && ids == Ids(Models(events))
    ensures |modelEvents| == |ids| == |events|
    ensures forall i :: 0 <= i < |events| ==>
              && modelEvents[i].id == events[i].eventID && modelEvents[i].userID == events[i].userID
              && modelEvents[i].typeName == events[i].eventType && modelEvents[i].metadata == events[i].metadata
              && ids[i] == events[i].eventID
  {
    modelEvents, ids := [], [];
    for i := 0 to |events|
      invariant modelEvents == Models(events[..i]) && ids == Ids(Models(events[..i]))
    {
      assert Models(events[..i + 1]) == Models(events[..i]) + [ToModel(events[i])];
      modelEvents := modelEvents + [ToModel(events[i])];
      ids := ids + [events[i].eventID];
    }
    assert events[..|events|] == events;
  }

  /** The removal list: all ids when the queue did not grow, none when it grew
      by the whole batch, otherwise those not named by its last `grown` entries. */
  method ComputeRemoval(ids: seq<int>, entries: seq<Entry>, grown: int) returns (removal: seq<int>)
    requires grown >= 0
    ensures removal == IdsToRemove(ids, entries, grown)
  {
    removal := [];
    if grown == 0 {
      return ids;
    } else if grown < |ids| {
      var failed: set<int> := {};
      var start := if |entries| < grown then 0 else |entries| - grown;
      for i := start to |entries|
        invariant failed == set e | e in entries[start..i] :: e.event.id
      {
        assert entries[start..i + 1] == entries[start..i] + [entries[i]];
        failed := failed + {entries[i].event.id};
      }
      assert entries[start..|entries|] == LastN(entries, grown);
      for i := 0 to |ids|
        invariant removal == Survivors(ids[..i], failed)
      {
        assert ids[..i + 1][..i] == ids[..i];
        if ids[i] !in failed {
          removal := removal + [ids[i]];
        }
      }
      assert ids[..|ids|] == ids;
    }
  }
}
