/** The bounded dead-letter queue of the retry package. */
module DeadLetter {
  import opened Events

  datatype DeadLetterEvent<+T> = DeadLetterEvent(event: T, attempts: int)

  class DeadLetterQueue<T> {
    var events: seq<DeadLetterEvent<T>>
    const maxSize: nat
    /** Every entry ever added, evicted ones included. */
    ghost var history: seq<DeadLetterEvent<T>>

    /** The queue holds the last `maxSize` entries ever added, in order. */
    ghost predicate Valid()
      reads this
    {
      events == LastN(history, maxSize)
    }

    constructor (maxSize: nat)
      ensures Valid() && this.maxSize == maxSize
      ensures history == [] && events == []
    {
      this.maxSize := maxSize;
      events := [];
      history := [];
    }

    /** Appends, then on overflow shifts everything down by one and cuts the
        last slot off. */
    method Add(entry: DeadLetterEvent<T>)
      requires Valid()
      modifies this
      ensures Valid()
      ensures history == old(history) + [entry]
      ensures |old(events)| < maxSize ==> events == old(events) + [entry]
      ensures |events| == Min(|old(events)| + 1, maxSize)
    {
      LastNAppend(history, [entry], maxSize);
      events := events + [entry];
      if |events| > maxSize {
        events := events[1..] + [events[|events| - 1]];
        events := events[..maxSize];
      }
      history := history + [entry];
    }

    method Len() returns (n: nat)
      ensures n == |events|
    {
      n := |events|;
    }

    method GetAll() returns (result: seq<DeadLetterEvent<T>>)
      ensures result == events
    {
      result := events;
    }
  }

  /** Growth of the queue's length is the number of additions exactly while
      the additions fit; afterwards the length stays at the capacity. */
  lemma LengthGrowth<T>(history: seq<DeadLetterEvent<T>>, added: seq<DeadLetterEvent<T>>, maxSize: nat)
    ensures |LastN(history + added, maxSize)| - |LastN(history, maxSize)|
         == Min(|added|, maxSize - |LastN(history, maxSize)|)
  {
  }

  /** While the additions fit, they are the queue's tail, behind everything
      that was there before. */
  lemma TailIsWhatWasAdded<T>(history: seq<DeadLetterEvent<T>>, added: seq<DeadLetterEvent<T>>, maxSize: nat)
    requires |LastN(history, maxSize)| + |added| <= maxSize
    ensures LastN(history + added, maxSize) == LastN(history, maxSize) + added
  {
    LastNAppend(history, added, maxSize);
  }
}
