/** Which sequence number an id carries, which calls return one, and how many a
    millisecond can give. */
module SnowflakeNumbers {
  import opened Words
  import opened Snowflake
  import opened SnowflakeFleet
  import Machines

  // ------------------------------------------------------------------- one call

  /** The bit widths behind the constants; the default epoch is the start of 2024,
      19723 days after that of 1970. */
  lemma Widths()
    ensures DEFAULT_EPOCH == 19723 * 24 * 60 * 60 * 1000
    ensures MAX_NODE == Pow2(10) - 1 && MAX_SEQUENCE == Pow2(12) - 1 && MAX_TIMESTAMP == Pow2(41) - 1
  {
    Powers();
    PowAdd(22, 12);
    PowAdd(34, 7);
    assert Pow2(7) == 128;
  }

  /** What a call answers: an error exactly when its first reading is behind the
      last id's, or when its last one is too far from the epoch. Only a call that
      is not behind moves the generator, to its last reading. */
  lemma ReplyIs(g: Gen, first: int, last: int)
    requires ValidGen(g) && EndsAt(g, first, last)
    ensures var (h, reply) := Called(g, first, last);
      && (reply.BackwardsTime? <==> first < g.lastTime)
      && (reply.TimestampOverflow? <==> first >= g.lastTime && Wrap(last - g.epoch) >= Pow2(41))
      && (reply.Id? <==> first >= g.lastTime && Wrap(last - g.epoch) < Pow2(41))
      && h.nodeID == g.nodeID && h.epoch == g.epoch
      && h.lastTime == (if first < g.lastTime then g.lastTime else last)
  {
    Widths();
  }

  // -------------------------------------------------------------------- numbering

  /** How many ids of the log generator i issued in a millisecond. */
  function CountAt(log: seq<Issue>, i: nat, now: int): nat {
    if |log| == 0 then 0
    else
      var last := log[|log| - 1];
      CountAt(log[..|log| - 1], i, now) + (if last.gen == i && last.now == now then 1 else 0)
  }

  lemma CountSnoc(log: seq<Issue>, e: Issue, i: nat, now: int)
    ensures CountAt(log + [e], i, now) == CountAt(log, i, now) + (if e.gen == i && e.now == now then 1 else 0)
  {
    assert (log + [e])[..|log|] == log;
  }

  lemma {:induction false} CountNone(log: seq<Issue>, i: nat, now: int)
    requires forall k :: 0 <= k < |log| && log[k].gen == i ==> log[k].now != now
    ensures CountAt(log, i, now) == 0
  {
    if |log| > 0 {
      CountNone(log[..|log| - 1], i, now);
    }
  }

  /** The first number of a millisecond. A generator starts as if the millisecond 0
      had seen one id already. */
  function FirstNumber(now: int): int {
    if now == 0 then 1 else 0
  }

  /** The number an id carries is its rank among its generator's ids of the same
      millisecond. */
  predicate Ranked(log: seq<Issue>, j: nat)
    requires j < |log|
  {
    log[j].seqNo == CountAt(log[..j], log[j].gen, log[j].now) + FirstNumber(log[j].now)
  }

  /** The generator's number is that of the last id of its millisecond, if there
      can be ids in it. */
  predicate InStep(g: Gen, log: seq<Issue>, i: nat) {
    Wrap(g.lastTime - g.epoch) <= MAX_TIMESTAMP ==> CountAt(log, i, g.lastTime) + FirstNumber(g.lastTime) == g.sequence + 1
  }

  ghost predicate Numbered(s: Fleet) {
    && (forall j :: 0 <= j < |s.log| ==> Ranked(s.log, j))
    && (forall i :: 0 <= i < |s.gens| ==> InStep(s.gens[i], s.log, i))
  }

  ghost function NumberedOf(gens: seq<Gen>): Fleet -> bool {
    s => Numbered(s) && SnowflakeFleet.Inv(gens, s)
  }

  /** Nothing was issued after the generator's last millisecond. */
  lemma NothingLater(gens: seq<Gen>, s: Fleet, i: nat, now: int)
    requires SnowflakeFleet.Inv(gens, s) && i < |s.gens| && now > s.gens[i].lastTime
    ensures CountAt(s.log, i, now) == 0
  {
    CountNone(s.log, i, now);
  }

  lemma RankedSnoc(log: seq<Issue>, e: Issue)
    requires forall j :: 0 <= j < |log| ==> Ranked(log, j)
    requires e.seqNo == CountAt(log, e.gen, e.now) + FirstNumber(e.now)
    ensures forall j :: 0 <= j < |log| + 1 ==> Ranked(log + [e], j)
  {
    var l := log + [e];
    forall j | 0 <= j < |l| ensures Ranked(l, j) {
      if j < |log| {
        assert Ranked(log, j);
        assert l[..j] == log[..j];
      } else {
        assert l[..j] == log;
      }
    }
  }

  /** The number a call settles on. */
  lemma CalledNumber(g: Gen, log: seq<Issue>, i: nat, first: int, last: int)
    requires ValidGen(g) && EndsAt(g, first, last) && InStep(g, log, i) && Called(g, first, last).1.Id?
    requires forall now :: now > g.lastTime ==> CountAt(log, i, now) == 0
    ensures var (h, reply) := Called(g, first, last);
      && h.lastTime == last && h.epoch == g.epoch
      && Wrap(last - g.epoch) <= MAX_TIMESTAMP
      && h.sequence == CountAt(log, i, last) + FirstNumber(last)
  {
  }

  lemma CallIssues(gens: seq<Gen>, s: Fleet, s': Fleet, i: nat, first: int, last: int)
    requires Numbered(s) && SnowflakeFleet.Inv(gens, s) && Calls(s, s', i, first, last)
    requires Called(s.gens[i], first, last).1.Id?
    ensures Numbered(s')
  {
    var g := s.gens[i];
    forall now | now > g.lastTime ensures CountAt(s.log, i, now) == 0 {
      NothingLater(gens, s, i, now);
    }
    CalledNumber(g, s.log, i, first, last);
    var e := s'.log[|s.log|];
    assert s'.log == s.log + [e];
    RankedSnoc(s.log, e);
    forall k | 0 <= k < |s'.gens| ensures InStep(s'.gens[k], s'.log, k) {
      CountSnoc(s.log, e, k, s'.gens[k].lastTime);
    }
  }

  /** A call that returns no id leaves the log, and the numbers of every generator
      whose millisecond can hold ids. */
  lemma CallFails(gens: seq<Gen>, s: Fleet, s': Fleet, i: nat, first: int, last: int)
    requires Numbered(s) && SnowflakeFleet.Inv(gens, s) && Calls(s, s', i, first, last)
    requires !Called(s.gens[i], first, last).1.Id?
    ensures Numbered(s')
  {
    assert s'.log == s.log;
    forall k | 0 <= k < |s'.gens| ensures InStep(s'.gens[k], s'.log, k) {
      assert k != i ==> s'.gens[k] == s.gens[k];
    }
  }

  lemma CallKeepsNumbered(gens: seq<Gen>, s: Fleet, s': Fleet, i: nat, first: int, last: int)
    requires Numbered(s) && SnowflakeFleet.Inv(gens, s) && Calls(s, s', i, first, last)
    ensures OnlyNumbered()(s')
  {
    if Called(s.gens[i], first, last).1.Id? {
      CallIssues(gens, s, s', i, first, last);
    } else {
      CallFails(gens, s, s', i, first, last);
    }
  }

  ghost function OnlyNumbered(): Fleet -> bool {
    s => Numbered(s)
  }

  lemma CallKeepsInv(gens: seq<Gen>, s: Fleet, s': Fleet, i: nat, first: int, last: int)
    requires SnowflakeFleet.Inv(gens, s) && Calls(s, s', i, first, last)
    ensures InvOf(gens)(s')
  {
    StepKeeps(gens, s, s', i, first, last);
  }

  lemma NextKeepsNumbered(gens: seq<Gen>, s: Fleet, s': Fleet)
    requires NumberedOf(gens)(s) && NextOf()(s, s')
    ensures NumberedOf(gens)(s')
  {
    var i, first, last :| Calls(s, s', i, first, last);
    CallKeepsInv(gens, s, s', i, first, last);
    CallKeepsNumbered(gens, s, s', i, first, last);
    BothHold(gens, s');
  }

  lemma BothHold(gens: seq<Gen>, s: Fleet)
    requires OnlyNumbered()(s) && InvOf(gens)(s)
    ensures NumberedOf(gens)(s)
  {
  }

  lemma NumberedHolds(gens: seq<Gen>, s: Fleet)
    requires Fresh(gens) && Reachable(gens, s)
    ensures NumberedOf(gens)(s)
  {
    forall p, q | NumberedOf(gens)(p) && NextOf()(p, q) ensures NumberedOf(gens)(q) {
      NextKeepsNumbered(gens, p, q);
    }
    var k :| Machines.Reaches(Fleet(gens, []), NextOf(), k, s);
    Machines.Invariance(Fleet(gens, []), NextOf(), NumberedOf(gens), k, s);
  }

  /** In every run the k-th id (from 0) of a generator in a millisecond carries the
      number k, and in the millisecond 0 the number k + 1. */
  lemma NumbersAreRanks(gens: seq<Gen>, s: Fleet, j: nat)
    requires Fresh(gens) && Reachable(gens, s) && j < |s.log|
    ensures var e := s.log[j];
      e.seqNo == CountAt(s.log[..j], e.gen, e.now) + (if e.now == 0 then 1 else 0)
  {
    NumberedHolds(gens, s);
    assert Ranked(s.log, j);
  }

  /** And it parses to the millisecond, the node and that number. */
  lemma IdsParse(gens: seq<Gen>, s: Fleet, j: nat)
    requires Fresh(gens) && Reachable(gens, s) && j < |s.log|
    ensures s.log[j].gen < |gens|
    ensures var e, g := s.log[j], gens[s.log[j].gen];
      var p := ParseWithEpoch(e.id, g.epoch);
      && p.nodeID == g.nodeID
      && p.sequence == CountAt(s.log[..j], e.gen, e.now) + (if e.now == 0 then 1 else 0)
      && (0 <= g.epoch <= TWO41 ==> p.timestamp == e.now)
  {
    InvHolds(gens, s);
    NumbersAreRanks(gens, s, j);
    FormedParses(s.gens[s.log[j].gen], s.log[j]);
  }

  lemma FormedParses(g: Gen, e: Issue)
    requires ValidGen(g) && Formed(g, e)
    ensures var p := ParseWithEpoch(e.id, g.epoch);
      && p.nodeID == g.nodeID && p.sequence == e.seqNo
      && (0 <= g.epoch <= TWO41 ==> p.timestamp == e.now)
  {
    var t := Wrap(e.now - g.epoch);
    HighAligned(t);
    Digits(High(t), g.nodeID, e.seqNo);
    ParseFields(e.id, g.epoch);
  }

  // ------------------------------------------------------------ a full millisecond

  /** A millisecond within reach of the epoch can give n ids, numbered 0 to n - 1,
      for every n up to 4096. */
  lemma {:induction false} MillisecondGives(node: int, epoch: int, now: int, n: nat) returns (s: Fleet)
    requires ValidNode(node) && IsWord(epoch) && 0 < now < TWO63 && Wrap(now - epoch) < Pow2(41) && n <= 4096
    ensures Reachable([Gen(0, node, 0, epoch)], s)
    ensures |s.log| == n && forall j :: 0 <= j < n ==> s.log[j].gen == 0 && s.log[j].now == now && s.log[j].seqNo == j
    ensures s.gens == [if n == 0 then Gen(0, node, 0, epoch) else Gen(now, node, n - 1, epoch)]
  {
    var gens := [Gen(0, node, 0, epoch)];
    Widths();
    if n == 0 {
      s := Fleet(gens, []);
      assert Machines.Reaches(Fleet(gens, []), NextOf(), 0, s);
    } else {
      var p := MillisecondGives(node, epoch, now, n - 1);
      AfterIsStep(gens, p, now);
      s := After(p, now);
    }
  }
}
