/** Any number of generators called in any interleaving, each with any clock. */
module SnowflakeFleet {
  import opened Words
  import opened Snowflake
  import Machines

  /** One id handed out: by which generator, in which millisecond. */
  datatype Issue = Issue(gen: nat, now: int, seqNo: int, id: int)
  datatype Fleet = Fleet(gens: seq<Gen>, log: seq<Issue>)

  /** Generators as NewWithEpoch creates them. */
  ghost predicate Fresh(gens: seq<Gen>) {
    forall i :: 0 <= i < |gens| ==> ValidGen(gens[i]) && gens[i].lastTime == 0 && gens[i].sequence == 0
  }

  /** Generator i is called once; the clock readings may be anything. */
  ghost predicate Calls(s: Fleet, s': Fleet, i: nat, first: int, last: int) {
    && i < |s.gens| && IsWord(first) && IsWord(last)
    && EndsAt(s.gens[i], first, last)
    && var (g, reply) := Called(s.gens[i], first, last);
       s' == Fleet(
         s.gens[i := g],
         if reply.Id? then s.log + [Issue(i, last, g.sequence, reply.id)] else s.log)
  }

  ghost predicate Next(s: Fleet, s': Fleet) {
    exists i, first, last :: Calls(s, s', i, first, last)
  }

  ghost function NextOf(): (Fleet, Fleet) -> bool {
    (s, s') => Next(s, s')
  }

  ghost predicate Reachable(gens: seq<Gen>, s: Fleet) {
    exists k :: Machines.Reaches(Fleet(gens, []), NextOf(), k, s)
  }

  // --------------------------------------------------------------- invariant

  /** The millisecond and sequence number come in increasing order. */
  predicate Earlier(a: Issue, b: Issue) {
    a.now < b.now || (a.now == b.now && a.seqNo < b.seqNo)
  }

  /** The entry is what its generator makes of its time and sequence number. */
  predicate Formed(g: Gen, e: Issue) {
    && 0 <= e.now < TWO63 && ValidSequence(e.seqNo)
    && Wrap(e.now - g.epoch) <= MAX_TIMESTAMP
    && e.id == High(Wrap(e.now - g.epoch)) + g.nodeID * 4096 + e.seqNo
  }

  /** The generator has moved on to or past this entry. */
  predicate Covers(g: Gen, e: Issue) {
    e.now < g.lastTime || (e.now == g.lastTime && e.seqNo <= g.sequence)
  }

  ghost predicate Logged(gens: seq<Gen>, log: seq<Issue>) {
    && (forall k :: 0 <= k < |log| ==> log[k].gen < |gens|)
    && (forall k :: 0 <= k < |log| ==> Formed(gens[log[k].gen], log[k]))
    && (forall k :: 0 <= k < |log| ==> Covers(gens[log[k].gen], log[k]))
    && (forall j, k :: 0 <= j < k < |log| && log[j].gen == log[k].gen ==> Earlier(log[j], log[k]))
  }

  ghost predicate SameMakers(a: seq<Gen>, b: seq<Gen>) {
    && |a| == |b|
    && forall i :: 0 <= i < |a| ==> a[i].nodeID == b[i].nodeID && a[i].epoch == b[i].epoch
  }

  ghost predicate Inv(gens: seq<Gen>, s: Fleet) {
    && (forall i :: 0 <= i < |s.gens| ==> ValidGen(s.gens[i]))
    && SameMakers(gens, s.gens)
    && Logged(s.gens, s.log)
  }

  ghost function InvOf(gens: seq<Gen>): Fleet -> bool {
    s => Inv(gens, s)
  }

  /** A call never moves its generator back. */
  lemma CallAdvances(g: Gen, first: int, last: int, e: Issue)
    requires ValidGen(g) && IsWord(first) && IsWord(last) && EndsAt(g, first, last)
    requires Covers(g, e)
    ensures var (h, reply) := Called(g, first, last);
      && ValidGen(h) && Covers(h, e)
      && (reply.Id? ==> Earlier(e, Issue(0, last, h.sequence, 0)))
  {
  }

  lemma CallForms(g: Gen, i: nat, first: int, last: int)
    requires ValidGen(g) && IsWord(first) && IsWord(last) && EndsAt(g, first, last)
    ensures var (h, reply) := Called(g, first, last);
      && ValidGen(h) && h.nodeID == g.nodeID && h.epoch == g.epoch
      && (reply.Id? ==>
            var e := Issue(i, last, h.sequence, reply.id);
            Formed(h, e) && Covers(h, e))
  {
    var (h, reply) := Called(g, first, last);
    PackSum(Wrap(last - g.epoch), g.nodeID, h.sequence);
  }

  lemma StepKeeps(gens: seq<Gen>, s: Fleet, s': Fleet, i: nat, first: int, last: int)
    requires Inv(gens, s) && Calls(s, s', i, first, last)
    ensures Inv(gens, s')
  {
    CallForms(s.gens[i], i, first, last);
    forall k | 0 <= k < |s.log| && s.log[k].gen == i
      ensures Covers(s'.gens[i], s.log[k])
      ensures |s'.log| > |s.log| ==> Earlier(s.log[k], s'.log[|s.log|])
    {
      CallAdvances(s.gens[i], first, last, s.log[k]);
    }
    LogGrows(s.gens, s'.gens, s.log, s'.log, i);
  }

  /** What the log needs of a call, apart from what the call computes. */
  lemma LogGrows(gens: seq<Gen>, gens': seq<Gen>, log: seq<Issue>, log': seq<Issue>, i: nat)
    requires Logged(gens, log) && SameMakers(gens, gens') && i < |gens|
    requires forall a :: 0 <= a < |gens| && a != i ==> gens'[a] == gens[a]
    requires forall k :: 0 <= k < |log| && log[k].gen == i ==> Covers(gens'[i], log[k])
    requires log' == log || (|log'| == |log| + 1 && log == log'[..|log|])
    requires |log'| > |log| ==>
      var e := log'[|log|];
      && e.gen == i && Formed(gens'[i], e) && Covers(gens'[i], e)
      && forall k :: 0 <= k < |log| && log[k].gen == i ==> Earlier(log[k], e)
    ensures Logged(gens', log')
  {
    forall k | 0 <= k < |log'|
      ensures log'[k].gen < |gens'| && Formed(gens'[log'[k].gen], log'[k]) && Covers(gens'[log'[k].gen], log'[k])
    {
      if k < |log| {
        assert log'[k] == log[k];
      }
    }
  }

  lemma InvHolds(gens: seq<Gen>, s: Fleet)
    requires Fresh(gens) && Reachable(gens, s)
    ensures Inv(gens, s)
  {
    var inv := InvOf(gens);
    forall p, q | inv(p) && NextOf()(p, q) ensures inv(q) {
      var i, first, last :| Calls(p, q, i, first, last);
      StepKeeps(gens, p, q, i, first, last);
    }
    var k :| Machines.Reaches(Fleet(gens, []), NextOf(), k, s);
    Machines.Invariance(Fleet(gens, []), NextOf(), inv, k, s);
  }

  // ------------------------------------------------------- strictly increasing

  /** The epochs for which no clock, however wrong, can make the timestamp
      part of an id wrap around. */
  predicate GoodEpoch(epoch: int) {
    0 <= epoch <= TWO41 || epoch == -TWO41
  }

  /** With a good epoch a later millisecond means a larger timestamp part. */
  lemma LaterIsHigher(epoch: int, now: int, later: int)
    requires GoodEpoch(epoch) && 0 <= now < later < TWO63
    requires Wrap(now - epoch) <= MAX_TIMESTAMP && Wrap(later - epoch) <= MAX_TIMESTAMP
    ensures High(Wrap(now - epoch)) + TWO22 <= High(Wrap(later - epoch))
  {
    if epoch >= 0 {
      assert Wrap(now - epoch) == now - epoch && Wrap(later - epoch) == later - epoch;
    } else {
      HighFarPast(now);
      HighFarPast(later);
    }
  }

  /** With epoch -2^41 the subtraction itself wraps, evenly. */
  lemma HighFarPast(now: int)
    requires 0 <= now < TWO63 && Wrap(now + TWO41) <= MAX_TIMESTAMP
    ensures now >= TWO63 - TWO41
    ensures High(Wrap(now + TWO41)) == (now + TWO41 - TWO63) * TWO22
  {
    var t := now + TWO41 - TWO64;
    assert Wrap(now + TWO41) == t;
    assert t * TWO22 + TWO63 == (now + TWO41 - TWO63) * TWO22 + TWO63 + (-0x20_0000) * TWO64;
    DivModUnique(t * TWO22 + TWO63, -0x20_0000, TWO64, (now + TWO41 - TWO63) * TWO22 + TWO63);
  }

  lemma EarlierIsSmaller(g: Gen, h: Gen, a: Issue, b: Issue)
    requires ValidGen(g) && ValidGen(h) && Formed(g, a) && Formed(h, b)
    requires GoodEpoch(g.epoch) && g.epoch == h.epoch
    requires a.now < b.now || (a.now == b.now && g.nodeID == h.nodeID && a.seqNo < b.seqNo)
    ensures a.id < b.id
  {
    if a.now < b.now {
      LaterIsHigher(g.epoch, a.now, b.now);
    }
  }

  ghost predicate Increasing(log: seq<Issue>, i: nat) {
    forall j, k :: 0 <= j < k < |log| && log[j].gen == i && log[k].gen == i ==> log[j].id < log[k].id
  }

  /** The ids of one generator are strictly increasing in every run: any
      clocks, backward jumps, sequence wraps and overflow errors included. */
  lemma StrictlyIncreasing(gens: seq<Gen>, s: Fleet, i: nat)
    requires Fresh(gens) && Reachable(gens, s)
    requires i < |gens| && GoodEpoch(gens[i].epoch)
    ensures Increasing(s.log, i)
  {
    InvHolds(gens, s);
    forall j, k | 0 <= j < k < |s.log| && s.log[j].gen == i && s.log[k].gen == i
      ensures s.log[j].id < s.log[k].id
    {
      EarlierIsSmaller(s.gens[i], s.gens[i], s.log[j], s.log[k]);
    }
  }

  /** With distinct node ids no two generators ever return the same id,
      whatever their epochs and clocks. */
  lemma NeverCollide(gens: seq<Gen>, s: Fleet, j: nat, k: nat)
    requires Fresh(gens) && Reachable(gens, s)
    requires forall a, b :: 0 <= a < b < |gens| ==> gens[a].nodeID != gens[b].nodeID
    requires j < |s.log| && k < |s.log| && s.log[j].gen != s.log[k].gen
    ensures s.log[j].id != s.log[k].id
  {
    InvHolds(gens, s);
    var a, b := s.log[j], s.log[k];
    NodeInId(s.gens[a.gen], a);
    NodeInId(s.gens[b.gen], b);
    assert gens[a.gen].nodeID != gens[b.gen].nodeID;
  }

  lemma NodeInId(g: Gen, e: Issue)
    requires ValidGen(g) && Formed(g, e)
    ensures e.id / 4096 % 1024 == g.nodeID
  {
    HighAligned(Wrap(e.now - g.epoch));
    Digits(High(Wrap(e.now - g.epoch)), g.nodeID, e.seqNo);
  }

  /** All ids of a fleet are different. */
  lemma AllUnique(gens: seq<Gen>, s: Fleet, j: nat, k: nat)
    requires Fresh(gens) && Reachable(gens, s)
    requires forall a, b :: 0 <= a < b < |gens| ==> gens[a].nodeID != gens[b].nodeID
    requires forall a :: 0 <= a < |gens| ==> GoodEpoch(gens[a].epoch)
    requires j < k < |s.log|
    ensures s.log[j].id != s.log[k].id
  {
    if s.log[j].gen == s.log[k].gen {
      InvHolds(gens, s);
      StrictlyIncreasing(gens, s, s.log[j].gen);
    } else {
      NeverCollide(gens, s, j, k);
    }
  }

  /** With a shared epoch an id from an earlier millisecond is below any id
      from a later one, whichever generators made them and in whatever order. */
  lemma TimeOrdered(gens: seq<Gen>, s: Fleet, j: nat, k: nat)
    requires Fresh(gens) && Reachable(gens, s)
    requires j < |s.log| && k < |s.log| && s.log[j].now < s.log[k].now
    requires forall a :: 0 <= a < |gens| ==> gens[a].epoch == gens[0].epoch && GoodEpoch(gens[a].epoch)
    ensures s.log[j].id < s.log[k].id
  {
    InvHolds(gens, s);
    EarlierIsSmaller(s.gens[s.log[j].gen], s.gens[s.log[k].gen], s.log[j], s.log[k]);
  }

  // ------------------------------------------------------ ids per millisecond

  /** Where generator i's ids of one millisecond stand in the log. */
  ghost function PositionsAt(log: seq<Issue>, i: nat, now: int): set<int> {
    set k | 0 <= k < |log| && log[k].gen == i && log[k].now == now
  }

  /** At most 4096 ids per generator and millisecond. */
  lemma AtMost4096PerMillisecond(gens: seq<Gen>, s: Fleet, i: nat, now: int)
    requires Fresh(gens) && Reachable(gens, s)
    ensures |PositionsAt(s.log, i, now)| <= 4096
  {
    InvHolds(gens, s);
    var f := (k: int) => if 0 <= k < |s.log| then s.log[k].seqNo else 0;
    Pigeonhole(PositionsAt(s.log, i, now), f, 4096);
  }

  lemma {:induction false} Pigeonhole<T(!new)>(xs: set<T>, f: T -> int, n: nat)
    requires forall x :: x in xs ==> 0 <= f(x) < n
    requires forall x, y :: x in xs && y in xs && f(x) == f(y) ==> x == y
    ensures |xs| <= n
  {
    var top := set x | x in xs && f(x) == n - 1;
    var rest := set x | x in xs && f(x) < n - 1;
    assert xs == top + rest;
    if n == 0 {
      assert forall x :: x in xs ==> f(x) >= 0;
      assert xs == {};
    } else {
      Pigeonhole(rest, f, n - 1);
      AtMostOne(top);
    }
  }

  lemma AtMostOne<T>(xs: set<T>)
    requires forall x, y :: x in xs && y in xs ==> x == y
    ensures |xs| <= 1
  {
    if |xs| > 0 {
      var x :| x in xs;
      assert xs == {x};
    }
  }

  // -------------------------------------------------- the epochs that go wrong

  /** Two clock readings after which the second id is the smaller one. */
  function Misleading(epoch: int): (int, int) {
    if epoch > TWO41 then (epoch - TWO41 - 1, epoch - TWO41)
    else if epoch > -TWO41 then (0, TWO63 + epoch)
    else (TWO63 + epoch + MAX_TIMESTAMP, TWO63 + epoch + TWO41)
  }

  lemma MisleadingHighs(epoch: int)
    requires IsWord(epoch) && !GoodEpoch(epoch)
    ensures var (a, b) := Misleading(epoch);
      && 0 <= a < b < TWO63
      && Wrap(a - epoch) <= MAX_TIMESTAMP && Wrap(b - epoch) <= MAX_TIMESTAMP
      && High(Wrap(b - epoch)) + TWO22 <= High(Wrap(a - epoch))
  {
    if epoch > TWO41 {
      assert High(-TWO41) == -TWO63;
      assert High(-TWO41 - 1) == TWO63 - TWO22;
    } else if epoch > -TWO41 {
      assert Wrap(TWO63) == -TWO63;
      assert High(-TWO63) == 0;
      assert High(-epoch) == -epoch * TWO22;
    } else {
      assert Wrap(TWO63 + MAX_TIMESTAMP) == -TWO63 + MAX_TIMESTAMP;
      assert Wrap(TWO63 + TWO41) == -TWO63 + TWO41;
      assert High(-TWO63 + MAX_TIMESTAMP) == TWO63 - TWO22;
      assert High(-TWO63 + TWO41) == -TWO63;
    }
  }

  function After(s: Fleet, now: int): Fleet
    requires |s.gens| == 1
  {
    var (g, reply) := Called(s.gens[0], now, now);
    Fleet([g], if reply.Id? then s.log + [Issue(0, now, g.sequence, reply.id)] else s.log)
  }

  lemma AfterIsStep(gens: seq<Gen>, s: Fleet, now: int)
    requires Reachable(gens, s) && |s.gens| == 1 && IsWord(now) && !Spins(s.gens[0], now)
    ensures Reachable(gens, After(s, now))
  {
    var s' := After(s, now);
    assert s.gens[0 := s'.gens[0]] == s'.gens;
    assert Calls(s, s', 0, now, now);
    var k :| Machines.Reaches(Fleet(gens, []), NextOf(), k, s);
    Machines.Extend(Fleet(gens, []), NextOf(), k, s, s');
  }

  /** Every other epoch has a run, of two calls, whose second id is smaller. */
  lemma BadEpochRun(node: int, epoch: int) returns (s: Fleet)
    requires ValidNode(node) && IsWord(epoch) && !GoodEpoch(epoch)
    ensures Reachable([Gen(0, node, 0, epoch)], s)
    ensures !Increasing(s.log, 0)
  {
    var gens := [Gen(0, node, 0, epoch)];
    var (a, b) := Misleading(epoch);
    MisleadingHighs(epoch);
    assert Machines.Reaches(Fleet(gens, []), NextOf(), 0, Fleet(gens, []));
    AfterIsStep(gens, Fleet(gens, []), a);
    var m := After(Fleet(gens, []), a);
    AfterIsStep(gens, m, b);
    s := After(m, b);
    PackSum(Wrap(a - epoch), node, m.log[0].seqNo);
    PackSum(Wrap(b - epoch), node, 0);
    assert s.log[0].id > s.log[1].id;
  }

  /** One generator's ids are strictly increasing in every run if and only if
      its epoch is a good one. */
  lemma IncreasingIffGoodEpoch(node: int, epoch: int)
    requires ValidNode(node) && IsWord(epoch)
    ensures GoodEpoch(epoch) <==>
      forall s :: Reachable([Gen(0, node, 0, epoch)], s) ==> Increasing(s.log, 0)
    ensures GoodEpoch(DEFAULT_EPOCH)
  {
    var gens := [Gen(0, node, 0, epoch)];
    if GoodEpoch(epoch) {
      forall s | Reachable(gens, s) ensures Increasing(s.log, 0) {
        StrictlyIncreasing(gens, s, 0);
      }
    } else {
      var s := BadEpochRun(node, epoch);
    }
  }
}
