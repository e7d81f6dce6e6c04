/** Values shared by the whole ingest pipeline, and the sequence vocabulary
    the other modules state their results in. */
module Events {

  datatype Option<+T> = None | Some(value: T)

  /** An event as the queue and the write-ahead store hold it. */
  datatype PendingEvent = PendingEvent(
    eventID: int,
    userID: int,
    eventType: string,
    metadata: string,
    enqueuedAt: int)

  /** An event as the database layer receives it from a flush. */
  datatype Event = Event(id: int, userID: int, typeName: string, metadata: string)

  function ToModel(p: PendingEvent): Event {
    Event(p.eventID, p.userID, p.eventType, p.metadata)
  }

  function Models(ps: seq<PendingEvent>): seq<Event> {
    seq(|ps|, i requires 0 <= i < |ps| => ToModel(ps[i]))
  }

  /** The ids of a batch, as a set. */
  function IdSet(es: seq<Event>): set<int> {
    set e | e in es :: e.id
  }

  predicate DistinctIds(es: seq<Event>) {
    forall i, j :: 0 <= i < j < |es| ==> es[i].id != es[j].id
  }

  /** The last `n` elements of `s`, or all of it when it is shorter. */
  function LastN<T>(s: seq<T>, n: nat): (r: seq<T>)
    ensures |r| == if |s| <= n then |s| else n
  {
    if |s| <= n then s else s[|s| - n..]
  }

  /** Trimming to the last `n` at every step is trimming once at the end. */
  lemma LastNAppend<T>(s: seq<T>, t: seq<T>, n: nat)
    ensures LastN(LastN(s, n) + t, n) == LastN(s + t, n)
  {
    var a, b := LastN(LastN(s, n) + t, n), LastN(s + t, n);
    assert |a| == |b|;
    forall i | 0 <= i < |a| ensures a[i] == b[i] {
      assert b[i] == (s + t)[|s| + |t| - |b| + i];
      assert a[i] == (LastN(s, n) + t)[|LastN(s, n)| + |t| - |a| + i];
    }
  }

  /** All batches of a log, end to end. */
  function Flat<T>(ss: seq<seq<T>>): seq<T> {
    if |ss| == 0 then [] else Flat(ss[..|ss| - 1]) + ss[|ss| - 1]
  }

  lemma FlatSnoc<T>(ss: seq<seq<T>>, s: seq<T>)
    ensures Flat(ss + [s]) == Flat(ss) + s
  {
    assert (ss + [s])[..|ss|] == ss;
  }

  function Max(a: int, b: int): int {
    if a < b then b else a
  }

  function Min(a: int, b: int): int {
    if a < b then a else b
  }
}
