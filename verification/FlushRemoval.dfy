/** Which ids a flush removes from the write-ahead store. The flush does not ask
    the retry layer what failed: it infers it from how much the dead-letter
    queue grew. These lemmas say exactly when the inference is right. */
module FlushRemoval {
  import opened Events
  import opened DeadLetter

  type Entry = DeadLetterEvent<Event>

  function EventsOf(entries: seq<Entry>): (r: seq<Event>)
    ensures |r| == |entries|
    ensures forall i :: 0 <= i < |r| ==> r[i] == entries[i].event
  {
    seq(|entries|, i requires 0 <= i < |entries| => entries[i].event)
  }

  function Ids(es: seq<Event>): (r: seq<int>)
    ensures |r| == |es|
    ensures forall i :: 0 <= i < |r| ==> r[i] == es[i].id
  {
    seq(|es|, i requires 0 <= i < |es| => es[i].id)
  }

  /** The ids in the last `count` entries of the queue. */
  function TailIds(entries: seq<Entry>, count: nat): set<int> {
    set e | e in LastN(entries, count) :: e.event.id
  }

  function Survivors(ids: seq<int>, failed: set<int>): (r: seq<int>)
    ensures forall id :: id in r <==> id in ids && id !in failed
  {
    if |ids| == 0 then []
    else
      var rest := Survivors(ids[..|ids| - 1], failed);
      assert ids == ids[..|ids| - 1] + [ids[|ids| - 1]];
      if ids[|ids| - 1] in failed then rest else rest + [ids[|ids| - 1]]
  }

  /** The removal list, from the batch's ids, the queue after the retries and
      the growth of its length. */
  function IdsToRemove(ids: seq<int>, entries: seq<Entry>, grown: int): seq<int> {
    if grown == 0 then ids
    else if 0 < grown < |ids| then Survivors(ids, TailIds(entries, grown))
    else []
  }

  /** What the flush does, for a queue with the given history that receives the
      entries `added` during it. */
  function Removed(batch: seq<Event>, history: seq<Entry>, added: seq<Entry>, maxSize: nat): seq<int> {
    var after := LastN(history + added, maxSize);
    IdsToRemove(Ids(batch), after, |after| - |LastN(history, maxSize)|)
  }

  /** The events of a batch that failed, in the order they were dead-lettered. */
  ghost predicate FailuresOf(added: seq<Entry>, batch: seq<Event>) {
    multiset(EventsOf(added)) <= multiset(batch)
  }

  /** The removal list holds the batch ids that have no failed copy, and no other. */
  ghost predicate Exact(batch: seq<Event>, added: seq<Entry>, removed: seq<int>) {
    forall id :: id in removed <==> id in Ids(batch) && id !in Ids(EventsOf(added))
  }

  predicate Fits(history: seq<Entry>, count: nat, maxSize: nat) {
    |LastN(history, maxSize)| + count <= maxSize
  }

  lemma FailuresAtMostBatch(added: seq<Entry>, batch: seq<Event>)
    requires FailuresOf(added, batch)
    ensures |added| <= |batch|
    ensures |added| == |batch| ==> forall id :: id in Ids(batch) ==> id in Ids(EventsOf(added))
  {
    var f, b := EventsOf(added), batch;
    assert multiset(b) == multiset(f) + (multiset(b) - multiset(f));
    assert |multiset(b)| == |multiset(f)| + |multiset(b) - multiset(f)|;
    if |added| == |batch| {
      assert multiset(b) - multiset(f) == multiset{};
      forall id | id in Ids(batch) ensures id in Ids(f) {
        var i :| 0 <= i < |b| && Ids(b)[i] == id;
        assert b[i] in multiset(f);
        var j :| 0 <= j < |f| && f[j] == b[i];
        assert Ids(f)[j] == id;
      }
    }
  }

  lemma TailIdsAre(entries: seq<Entry>, added: seq<Entry>)
    requires |added| <= |entries| && entries[|entries| - |added|..] == added
    ensures forall id :: id in TailIds(entries, |added|) <==> id in Ids(EventsOf(added))
  {
    assert LastN(entries, |added|) == added;
    forall id ensures id in TailIds(entries, |added|) <==> id in Ids(EventsOf(added)) {
      if id in Ids(EventsOf(added)) {
        var k :| 0 <= k < |added| && Ids(EventsOf(added))[k] == id;
        assert added[k] in added;
      }
      if id in TailIds(entries, |added|) {
        var e :| e in added && e.event.id == id;
        var k :| 0 <= k < |added| && added[k] == e;
        assert Ids(EventsOf(added))[k] == id;
      }
    }
  }

  /** If the failures fit in the free room, then for every failure pattern and
      every order of arrival the removal is exact. */
  lemma ExactWhenFits(batch: seq<Event>, history: seq<Entry>, added: seq<Entry>, maxSize: nat)
    requires FailuresOf(added, batch)
    requires Fits(history, |added|, maxSize)
    ensures Exact(batch, added, Removed(batch, history, added, maxSize))
  {
    TailIsWhatWasAdded(history, added, maxSize);
    var after := LastN(history + added, maxSize);
    FailuresAtMostBatch(added, batch);
    TailIdsAre(after, added);
  }

  /** Two entries of the batch that failed have different ids when the batch's
      ids are distinct. */
  lemma FailedIdsDistinct(added: seq<Entry>, batch: seq<Event>)
    requires FailuresOf(added, batch) && DistinctIds(batch)
    ensures DistinctIds(EventsOf(added))
  {
    var f := EventsOf(added);
    forall i, j | 0 <= i < j < |f| ensures f[i].id != f[j].id {
      if f[i].id == f[j].id {
        assert f[i] in multiset(f) && f[j] in multiset(f);
        assert f[i] in multiset(batch) && f[j] in multiset(batch);
        var a :| 0 <= a < |batch| && batch[a] == f[i];
        var b :| 0 <= b < |batch| && batch[b] == f[j];
        assert a == b;
        TwiceAtLeast(f, i, j);
        OnceAtMost(batch, a);
        assert false;
      }
    }
  }

  lemma TwiceAtLeast<T>(s: seq<T>, i: nat, j: nat)
    requires i < j < |s| && s[i] == s[j]
    ensures multiset(s)[s[i]] >= 2
  {
    assert s == s[..i] + [s[i]] + s[i + 1..j] + [s[j]] + s[j + 1..];
  }

  lemma OnceAtMost(batch: seq<Event>, a: nat)
    requires a < |batch| && DistinctIds(batch)
    ensures multiset(batch)[batch[a]] == 1
  {
    assert batch == batch[..a] + [batch[a]] + batch[a + 1..];
    assert batch[a] !in batch[..a] && batch[a] !in batch[a + 1..];
  }

  /** When the failures overflow the queue, the oldest failure of the batch is
      taken for a success. */
  lemma OverflowRemovesFirstFailure(batch: seq<Event>, history: seq<Entry>, added: seq<Entry>, maxSize: nat)
    requires FailuresOf(added, batch) && DistinctIds(batch)
    requires !Fits(history, |added|, maxSize)
    ensures |added| > 0 && added[0].event.id in Removed(batch, history, added, maxSize)
  {
    var after := LastN(history + added, maxSize);
    var grown := |after| - |LastN(history, maxSize)|;
    assert |added| > 0 && grown == maxSize - |LastN(history, maxSize)| < |added|;
    FailuresAtMostBatch(added, batch);
    FailedIdsDistinct(added, batch);
    var f := EventsOf(added);
    assert f[0] in multiset(f);
    assert f[0] in multiset(batch);
    var a :| 0 <= a < |batch| && batch[a] == f[0];
    assert Ids(batch)[a] == f[0].id;
    if grown > 0 {
      TailOfTail(history, added, maxSize, grown);
      forall e | e in LastN(after, grown) ensures e.event.id != f[0].id {
        var k :| 0 <= k < grown && added[|added| - grown..][k] == e;
        assert f[|added| - grown + k] == e.event;
      }
      assert f[0].id !in TailIds(after, grown);
    }
  }

  lemma TailOfTail(history: seq<Entry>, added: seq<Entry>, maxSize: nat, grown: nat)
    requires grown <= |added| && grown <= |LastN(history + added, maxSize)|
    ensures LastN(LastN(history + added, maxSize), grown) == added[|added| - grown..]
  {
    var all := history + added;
    assert LastN(LastN(all, maxSize), grown) == all[|all| - grown..];
  }

  /** For a batch of distinct ids, the removal is exact if and only if the
      failures fit in the queue's free room. */
  lemma ExactIffFits(batch: seq<Event>, history: seq<Entry>, added: seq<Entry>, maxSize: nat)
    requires FailuresOf(added, batch) && DistinctIds(batch)
    ensures Exact(batch, added, Removed(batch, history, added, maxSize)) <==> Fits(history, |added|, maxSize)
  {
    if Fits(history, |added|, maxSize) {
      ExactWhenFits(batch, history, added, maxSize);
    } else {
      OverflowRemovesFirstFailure(batch, history, added, maxSize);
      assert Ids(EventsOf(added))[0] == added[0].event.id;
    }
  }

  function Wrap(batch: seq<Event>): (r: seq<Entry>)
    ensures |r| == |batch| && EventsOf(r) == batch
  {
    var r := seq(|batch|, i requires 0 <= i < |batch| => DeadLetterEvent(batch[i], 0));
    assert EventsOf(r) == batch;
    r
  }

  /** Before the flush: every failure pattern will be handled exactly if and
      only if the whole batch would fit in the queue's free room. */
  lemma SafeForEveryPatternIff(batch: seq<Event>, history: seq<Entry>, maxSize: nat)
    requires DistinctIds(batch)
    ensures (forall added :: FailuresOf(added, batch) ==> Exact(batch, added, Removed(batch, history, added, maxSize)))
       <==> Fits(history, |batch|, maxSize)
  {
    if Fits(history, |batch|, maxSize) {
      forall added | FailuresOf(added, batch)
        ensures Exact(batch, added, Removed(batch, history, added, maxSize))
      {
        FailuresAtMostBatch(added, batch);
        ExactWhenFits(batch, history, added, maxSize);
      }
    } else {
      var added := Wrap(batch);
      assert FailuresOf(added, batch);
      ExactIffFits(batch, history, added, maxSize);
    }
  }
}
