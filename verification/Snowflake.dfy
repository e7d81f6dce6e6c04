/** The id generator: packing, parsing, and one call of Generate.
    Timestamps, epochs and ids are signed 64-bit words. */
module Snowflake {
  import opened Words

  const MAX_NODE := 1023
  const MAX_SEQUENCE := 4095
  const MAX_TIMESTAMP := 0x1FF_FFFF_FFFF
  const DEFAULT_EPOCH := 1704067200000
  const TWO41 := 0x200_0000_0000
  const TWO22 := 0x40_0000

  predicate ValidNode(n: int) { 0 <= n <= MAX_NODE }
  predicate ValidSequence(n: int) { 0 <= n <= MAX_SEQUENCE }

  // ---------------------------------------------------------------- packing

  /** (t << 22) | (node << 12) | seq */
  function Pack(t: int, node: int, seqNo: int): int {
    Or(Or(Shl(t, 22), Shl(node, 12)), seqNo)
  }

  /** The timestamp part of an id, whatever t is: t * 2^22 modulo 2^64. */
  function High(t: int): int {
    Wrap(t * TWO22)
  }

  lemma HighAligned(t: int)
    ensures High(t) % TWO22 == 0
    ensures -TWO63 <= High(t) <= TWO63 - TWO22
  {
    var x := t * TWO22 + TWO63;
    var q := x / TWO64;
    assert x == q * TWO64 + x % TWO64;
    assert High(t) == TWO22 * (t - q * 0x400_0000_0000);
  }

  lemma OrThree(h: int, m: int, l: int)
    requires IsWord(h) && h % TWO22 == 0 && 0 <= m < TWO22 && m % 4096 == 0 && 0 <= l < 4096
    ensures Or(Or(h, m), l) == h + m + l
  {
    Aligned(h, m);
    OrLow22(h, m);
    OrLow12(h + m, l);
  }

  lemma Aligned(h: int, m: int)
    requires IsWord(h) && h % TWO22 == 0 && 0 <= m < TWO22 && m % 4096 == 0
    ensures IsWord(h + m) && (h + m) % 4096 == 0
  {
    assert h == TWO22 * (h / TWO22) && m == 4096 * (m / 4096);
    assert h + m == 4096 * (1024 * (h / TWO22) + m / 4096);
  }

  lemma Shifts(t: int, node: int)
    requires ValidNode(node)
    ensures Shl(t, 22) == High(t) && Shl(node, 12) == node * 4096
  {
    Powers();
  }

  /** The packing is a sum of three disjoint bit fields, for every timestamp. */
  lemma PackSum(t: int, node: int, seqNo: int)
    requires ValidNode(node) && ValidSequence(seqNo)
    ensures Pack(t, node, seqNo) == High(t) + node * 4096 + seqNo
  {
    Shifts(t, node);
    HighAligned(t);
    OrThree(High(t), node * 4096, seqNo);
  }

  /** An id is a word whatever the timestamp, and the plain number
      t * 2^22 + node * 2^12 + seq for every timestamp of 41 bits and a sign. */
  lemma PackIsSum(t: int, node: int, seqNo: int)
    requires ValidNode(node) && ValidSequence(seqNo)
    ensures IsWord(Pack(t, node, seqNo))
    ensures -TWO41 <= t <= MAX_TIMESTAMP ==> Pack(t, node, seqNo) == t * TWO22 + node * 4096 + seqNo
    ensures 0 <= t <= MAX_TIMESTAMP ==> 0 <= Pack(t, node, seqNo) < TWO63
  {
    PackSum(t, node, seqNo);
    HighAligned(t);
  }

  datatype Parts = Parts(timestamp: int, nodeID: int, sequence: int)

  function ParseWithEpoch(id: int, epoch: int): Parts {
    Parts(Wrap(Sar(id, 22) + epoch), And(Sar(id, 12), MAX_NODE), And(id, MAX_SEQUENCE))
  }

  function Parse(id: int): Parts {
    ParseWithEpoch(id, DEFAULT_EPOCH)
  }

  lemma ParseFields(id: int, epoch: int)
    ensures var p := ParseWithEpoch(id, epoch);
      && p.timestamp == Wrap(id / TWO22 + epoch)
      && p.nodeID == id / 4096 % 1024
      && p.sequence == id % 4096
  {
    Powers();
    AndLow10(id / 4096);
    AndLow12(id);
  }

  lemma Digits(h: int, node: int, seqNo: int)
    requires ValidNode(node) && ValidSequence(seqNo) && h % TWO22 == 0
    ensures var id := h + node * 4096 + seqNo;
      id / TWO22 == h / TWO22 && id / 4096 % 1024 == node && id % 4096 == seqNo
  {
    var id, q := h + node * 4096 + seqNo, h / TWO22;
    assert id == TWO22 * q + (node * 4096 + seqNo);
    assert id == 4096 * (1024 * q + node) + seqNo;
    assert id / 4096 == 1024 * q + node;
  }

  /** Parsing an id gives back the clock reading, node and sequence it was
      made from. */
  lemma ParseUndoesPack(now: int, epoch: int, node: int, seqNo: int)
    requires ValidNode(node) && ValidSequence(seqNo) && IsWord(now)
    requires -TWO41 <= now - epoch <= MAX_TIMESTAMP
    ensures ParseWithEpoch(Pack(now - epoch, node, seqNo), epoch) == Parts(now, node, seqNo)
  {
    var t := now - epoch;
    PackIsSum(t, node, seqNo);
    ParseFields(Pack(t, node, seqNo), epoch);
    HighAligned(t);
    Digits(t * TWO22, node, seqNo);
  }

  lemma WrapCancel(x: int, epoch: int)
    requires IsWord(x)
    ensures Wrap(Wrap(x + epoch) - epoch) == x
  {
    var q := (x + epoch + TWO63) / TWO64;
    assert Wrap(x + epoch) == x + epoch - q * TWO64;
    assert (x + TWO63 - q * TWO64) % TWO64 == x + TWO63 by {
      DivModUnique(x + TWO63 - q * TWO64, -q, TWO64, x + TWO63);
    }
  }

  lemma Regroup(id: int)
    requires IsWord(id)
    ensures High(id / TWO22) + id / 4096 % 1024 * 4096 + id % 4096 == id
  {
    assert id / TWO22 == id / 4096 / 1024;
  }

  /** Packing what was parsed gives back the id: every word, every epoch. */
  lemma PackUndoesParse(id: int, epoch: int)
    requires IsWord(id)
    ensures var p := ParseWithEpoch(id, epoch);
      && ValidNode(p.nodeID) && ValidSequence(p.sequence)
      && Pack(Wrap(p.timestamp - epoch), p.nodeID, p.sequence) == id
  {
    ParseFields(id, epoch);
    WrapCancel(id / TWO22, epoch);
    PackSum(id / TWO22, id / 4096 % 1024, id % 4096);
    Regroup(id);
  }

  /** The two parsers agree on ids of the default epoch. */
  lemma DefaultRoundTrip(now: int, node: int, seqNo: int)
    requires ValidNode(node) && ValidSequence(seqNo)
    requires 0 <= now - DEFAULT_EPOCH <= MAX_TIMESTAMP
    ensures Parse(Pack(now - DEFAULT_EPOCH, node, seqNo)) == Parts(now, node, seqNo)
  {
    ParseUndoesPack(now, DEFAULT_EPOCH, node, seqNo);
  }

  // ---------------------------------------------------------- one generation

  datatype Gen = Gen(lastTime: int, nodeID: int, sequence: int, epoch: int)
  datatype Reply = Id(id: int) | BackwardsTime | TimestampOverflow

  predicate ValidGen(g: Gen) {
    0 <= g.lastTime < TWO63 && ValidNode(g.nodeID) && ValidSequence(g.sequence) && IsWord(g.epoch)
  }

  /** A call whose first reading is `first` has used up the millisecond's
      sequence numbers and must wait for the next one. */
  predicate Spins(g: Gen, first: int) {
    first == g.lastTime && g.sequence == MAX_SEQUENCE
  }

  /** The last reading a call takes, given its first one. */
  predicate EndsAt(g: Gen, first: int, last: int) {
    if Spins(g, first) then last > g.lastTime else last == first
  }

  /** The generator and the reply after a call that read `first`, ..., `last`. */
  function Called(g: Gen, first: int, last: int): (Gen, Reply) {
    if first < g.lastTime then (g, BackwardsTime)
    else Stamped(g.nodeID, g.epoch, last, if first == g.lastTime && g.sequence < MAX_SEQUENCE then g.sequence + 1 else 0)
  }

  /** The millisecond and sequence number settled, the id is made. */
  function Stamped(nodeID: int, epoch: int, now: int, n: int): (Gen, Reply) {
    var t := Wrap(now - epoch);
    (Gen(now, nodeID, n, epoch),
     if t > MAX_TIMESTAMP then TimestampOverflow else Id(Pack(t, nodeID, n)))
  }

  /** A call starting at clock position `pos` returns after n readings. */
  ghost predicate Returns(g: Gen, clock: nat -> int, pos: nat, n: nat) {
    && n >= 1
    && EndsAt(g, clock(pos), clock(pos + n - 1))
    && (if Spins(g, clock(pos))
        then n >= 2 && forall k :: pos < k < pos + n - 1 ==> clock(k) <= g.lastTime
        else n == 1)
  }

  /** The clock shows a time after the generator's last one, at a position
      after `pos`. */
  ghost predicate ClockPasses(g: Gen, clock: nat -> int, pos: nat) {
    exists k: nat :: k > pos && clock(k) > g.lastTime
  }

  /** The wait ends exactly when the clock eventually passes lastTime. */
  lemma ReturnsIff(g: Gen, clock: nat -> int, pos: nat)
    ensures (exists n :: Returns(g, clock, pos, n)) <==> (Spins(g, clock(pos)) ==> ClockPasses(g, clock, pos))
  {
    if !Spins(g, clock(pos)) {
      assert Returns(g, clock, pos, 1);
    } else if ClockPasses(g, clock, pos) {
      var k: nat :| k > pos && clock(k) > g.lastTime;
      var m := FirstPast(g, clock, pos, k);
      assert Returns(g, clock, pos, m - pos + 1);
    }
  }

  /** The first position after `pos` whose reading is past lastTime. */
  lemma {:induction false} FirstPast(g: Gen, clock: nat -> int, pos: nat, k: nat) returns (m: nat)
    requires k > pos && clock(k) > g.lastTime
    ensures pos < m <= k && clock(m) > g.lastTime
    ensures forall j :: pos < j < m ==> clock(j) <= g.lastTime
    decreases k
  {
    if j: nat :| pos < j < k && clock(j) > g.lastTime {
      m := FirstPast(g, clock, pos, j);
    } else {
      m := k;
    }
  }

  datatype NewResult = Created(g: Gen) | InvalidNodeID

  /** NewWithEpoch: a generator exists for exactly the 1024 node ids. */
  function NewWithEpoch(nodeID: int, epoch: int): (r: NewResult)
    requires IsWord(nodeID) && IsWord(epoch)
    ensures r.Created? <==> ValidNode(nodeID)
    ensures r.Created? ==> ValidGen(r.g) && r.g.nodeID == nodeID && r.g.epoch == epoch
    ensures r.Created? ==> r.g.lastTime == 0 && r.g.sequence == 0
  {
    if nodeID < 0 || nodeID > MAX_NODE then InvalidNodeID else Created(Gen(0, nodeID, 0, epoch))
  }

  class Generator {
    var lastTime: int
    var sequence: int
    const nodeID: int
    const epoch: int

    ghost function State(): Gen reads this { Gen(lastTime, nodeID, sequence, epoch) }
    ghost predicate Valid() reads this { ValidGen(State()) }

    constructor (nodeID: int, epoch: int)
      requires ValidNode(nodeID) && IsWord(epoch)
      ensures Valid() && State() == NewWithEpoch(nodeID, epoch).g
    {
      this.nodeID, this.epoch := nodeID, epoch;
      lastTime, sequence := 0, 0;
    }

    /** Reads the clock from position `pos` on. A call that must wait for the
        next millisecond needs a clock that eventually gets there. */
    method Generate(clock: nat -> int, pos: nat) returns (reply: Reply, n: nat)
      requires Valid()
      requires forall k: nat :: IsWord(clock(k))
      requires Spins(State(), clock(pos)) ==> ClockPasses(State(), clock, pos)
      modifies this
      ensures Valid()
      ensures Returns(old(State()), clock, pos, n)
      ensures (State(), reply) == Called(old(State()), clock(pos), clock(pos + n - 1))
    {
      ghost var g := State();
      var now := clock(pos);
      n := 1;
      if now < lastTime {
        return BackwardsTime, n;
      }
      if now == lastTime {
        sequence := NextSequence(sequence);
        if sequence == 0 {
          now, n := AwaitNext(clock, pos, g);
        }
      } else {
        sequence := 0;
      }
      reply := Stamp(now);
    }

    method Stamp(now: int) returns (reply: Reply)
      modifies this`lastTime
      ensures (State(), reply) == Stamped(nodeID, epoch, now, sequence)
    {
      lastTime := now;
      var timeSinceEpoch := Wrap(now - epoch);
      if timeSinceEpoch > MAX_TIMESTAMP {
        return TimestampOverflow;
      }
      reply := Id(Pack(timeSinceEpoch, nodeID, sequence));
    }

    /** Reads the clock until it shows a later millisecond. */
    method AwaitNext(clock: nat -> int, pos: nat, ghost g: Gen) returns (now: int, n: nat)
      requires g.lastTime == lastTime && Spins(g, clock(pos)) && ClockPasses(g, clock, pos)
      ensures Returns(g, clock, pos, n)
      ensures now == clock(pos + n - 1)
    {
      ghost var k: nat :| k > pos && clock(k) > g.lastTime;
      now, n := clock(pos), 1;
      while now <= lastTime
        invariant n >= 1 && now == clock(pos + n - 1)
        invariant pos + n - 1 <= k
        invariant forall j :: pos < j < pos + n - 1 ==> clock(j) <= g.lastTime
        invariant n == 1 ==> now == lastTime
        decreases k + 1 - pos - n
      {
        now := clock(pos + n);
        n := n + 1;
      }
    }
  }

  /** The next sequence number, back to 0 after the last one. */
  method NextSequence(n: int) returns (r: int)
    requires ValidSequence(n)
    ensures r == if n < MAX_SEQUENCE then n + 1 else 0
  {
    AndLow12(n + 1);
    r := And(n + 1, MAX_SEQUENCE);
    NextMod(n, r);
  }

  lemma NextMod(n: int, r: int)
    requires ValidSequence(n) && r == (n + 1) % 4096
    ensures r == if n < MAX_SEQUENCE then n + 1 else 0
  {
  }
}
