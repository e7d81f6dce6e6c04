/** The locking and closing protocol of the write-ahead store, over all
    interleavings of any number of `EnqueueAsync`, `Remove`, reading (`Recover`,
    `Count`) and `Close` calls with the write loop. A send on a closed channel
    or a second close of one would panic; a bolt operation after the database is
    closed would be an error. The state records both. */
module PersistenceProtocol {
  import opened Events
  import opened Machines

  const WRITE_BUFFER := 1000

  datatype Pc =
    // EnqueueAsync
    | AsyncStart
    | AsyncLocked                 // holds the read lock
    | AsyncOpen                   // read closed == false
    | AsyncRefused                // about to reply with an error itself
    | AsyncReplied                // has replied, reply channel still open
    | AsyncUnlock(handed: bool)   // request handed to the write loop, or refused
    | AsyncDone(handed: bool)
    // Remove
    | RemoveStart
    | RemoveLocked                // holds the write lock
    | RemoveOpen                  // read closed == false
    | RemoveUnlock
    | RemoveDone
    // Recover and Count
    | ReadStart
    | ReadLocked                  // holds the read lock
    | ReadOpen                    // read closed == false
    | ReadLeaving
    | ReadDone
    // Close
    | CloseStart
    | CloseLocked                 // holds the write lock
    | CloseMarked                 // set closed, released the lock
    | ChannelClosed
    | LoopJoined
    | DbClosed
    | CloseNoop                   // found it closed already

  datatype LoopPc = Idle | Got(r: nat) | Putting(r: nat) | Answering(r: nat) | Answered(r: nat) | Gone

  /** A request is named by its `EnqueueAsync` call. `replies` and `replyCloses`
      count the sends on, and the closes of, each call's reply channel; `puts`
      counts the puts of each request and `decided` says of each request the loop
      has looked at whether it found the store open; `worked` holds the calls that
      have done their own bolt operation. */
  datatype State = State(
    pcs: map<nat, Pc>,
    readers: set<nat>,
    writer: Option<nat>,
    closed: bool,
    closer: Option<nat>,
    chanClosed: bool,
    dbClosed: bool,
    writeCh: seq<nat>,
    loop: LoopPc,
    replies: multiset<nat>,
    replyCloses: multiset<nat>,
    puts: multiset<nat>,
    decided: map<nat, bool>,
    worked: set<nat>,
    panicked: bool,
    badOp: bool)

  function Init(): State {
    State(map[], {}, None, false, None, false, false, [], Idle, multiset{}, multiset{}, multiset{}, map[], {}, false, false)
  }

  datatype Kind = Async | Removal | Reading | Closing

  function First(k: Kind): Pc {
    match k
    case Async => AsyncStart
    case Removal => RemoveStart
    case Reading => ReadStart
    case Closing => CloseStart
  }

  datatype Step = New(p: nat, k: Kind) | Act(p: nat) | Loop

  /** What a call can see of the shared state at a step. */
  datatype View = View(writerFree: bool, noReaders: bool, closed: bool, chanClosed: bool, dbClosed: bool, full: bool, gone: bool)

  function ViewOf(s: State): View {
    View(s.writer.None?, s.readers == {}, s.closed, s.chanClosed, s.dbClosed, |s.writeCh| >= WRITE_BUFFER, s.loop.Gone?)
  }

  datatype LockOp = Keep | ReadLock | ReadUnlock | WriteLock | WriteUnlock

  datatype Deed = Nothing | Hand | Reply | CloseReply | Mark | CloseChannel | CloseDb | BoltOp | Panic

  /** A step of a call: where it goes, what it does to the lock, what else. */
  datatype Effect = Effect(pc: Pc, op: LockOp, deed: Deed)

  function React(v: View, pc: Pc): Option<Effect> {
    match pc
    case AsyncStart => if v.writerFree then Some(Effect(AsyncLocked, ReadLock, Nothing)) else None
    case AsyncLocked => Some(Effect(if v.closed then AsyncRefused else AsyncOpen, Keep, Nothing))
    case AsyncOpen =>
      if v.chanClosed then Some(Effect(pc, Keep, Panic))
      else if v.full then Some(Effect(AsyncRefused, Keep, Nothing))
      else Some(Effect(AsyncUnlock(true), Keep, Hand))
    case AsyncRefused => Some(Effect(AsyncReplied, Keep, Reply))
    case AsyncReplied => Some(Effect(AsyncUnlock(false), Keep, CloseReply))
    case AsyncUnlock(handed) => Some(Effect(AsyncDone(handed), ReadUnlock, Nothing))
    case AsyncDone(_) => None
    case RemoveStart => if v.writerFree && v.noReaders then Some(Effect(RemoveLocked, WriteLock, Nothing)) else None
    case RemoveLocked => Some(Effect(if v.closed then RemoveUnlock else RemoveOpen, Keep, Nothing))
    case RemoveOpen => Some(Effect(RemoveUnlock, Keep, BoltOp))
    case RemoveUnlock => Some(Effect(RemoveDone, WriteUnlock, Nothing))
    case RemoveDone => None
    case ReadStart => if v.writerFree then Some(Effect(ReadLocked, ReadLock, Nothing)) else None
    case ReadLocked => Some(Effect(if v.closed then ReadLeaving else ReadOpen, Keep, Nothing))
    case ReadOpen => Some(Effect(ReadLeaving, Keep, BoltOp))
    case ReadLeaving => Some(Effect(ReadDone, ReadUnlock, Nothing))
    case ReadDone => None
    case CloseStart => if v.writerFree && v.noReaders then Some(Effect(CloseLocked, WriteLock, Nothing)) else None
    case CloseLocked =>
      Some(if v.closed then Effect(CloseNoop, WriteUnlock, Nothing) else Effect(CloseMarked, WriteUnlock, Mark))
    case CloseMarked => Some(Effect(ChannelClosed, Keep, if v.chanClosed then Panic else CloseChannel))
    case ChannelClosed => if v.gone then Some(Effect(LoopJoined, Keep, Nothing)) else None
    case LoopJoined => Some(Effect(DbClosed, Keep, CloseDb))
    case DbClosed => None
    case CloseNoop => None
  }

  function Readers(s: State, p: nat, op: LockOp): set<nat> {
    match op
    case ReadLock => s.readers + {p}
    case ReadUnlock => s.readers - {p}
    case _ => s.readers
  }

  function Writer(s: State, p: nat, op: LockOp): Option<nat> {
    match op
    case WriteLock => Some(p)
    case WriteUnlock => None
    case _ => s.writer
  }

  function Perform(s: State, p: nat, e: Effect): State {
    s.(pcs := s.pcs[p := e.pc],
       readers := Readers(s, p, e.op),
       writer := Writer(s, p, e.op),
       closed := s.closed || e.deed.Mark?,
       closer := if e.deed.Mark? then Some(p) else s.closer,
       chanClosed := s.chanClosed || e.deed.CloseChannel?,
       dbClosed := s.dbClosed || e.deed.CloseDb?,
       writeCh := if e.deed.Hand? then s.writeCh + [p] else s.writeCh,
       replies := if e.deed.Reply? then s.replies + multiset{p} else s.replies,
       replyCloses := if e.deed.CloseReply? then s.replyCloses + multiset{p} else s.replyCloses,
       worked := if e.deed.BoltOp? then s.worked + {p} else s.worked,
       panicked := s.panicked || e.deed.Panic?,
       badOp := s.badOp || (e.deed.BoltOp? && s.dbClosed))
  }

  function ActLoop(s: State): Option<State> {
    match s.loop
    case Idle =>
      if s.writeCh != [] then Some(s.(loop := Got(s.writeCh[0]), writeCh := s.writeCh[1..]))
      else if s.chanClosed then Some(s.(loop := Gone))
      else None
    case Got(r) =>
      if s.writer.Some? then None
      else Some(s.(loop := if s.closed then Answering(r) else Putting(r), decided := s.decided[r := !s.closed]))
    case Putting(r) =>
      Some(s.(loop := Answering(r), puts := s.puts + multiset{r}, badOp := s.badOp || s.dbClosed))
    case Answering(r) => Some(s.(loop := Answered(r), replies := s.replies + multiset{r}))
    case Answered(r) => Some(s.(loop := Idle, replyCloses := s.replyCloses + multiset{r}))
    case Gone => None
  }

  function Apply(s: State, step: Step): Option<State> {
    match step
    case New(p, k) => if p in s.pcs then None else Some(s.(pcs := s.pcs[p := First(k)]))
    case Act(p) =>
      if p !in s.pcs then None
      else
        var e := React(ViewOf(s), s.pcs[p]);
        if e.None? then None else Some(Perform(s, p, e.value))
    case Loop => ActLoop(s)
  }

  ghost predicate Next(s: State, s': State) {
    exists step :: Apply(s, step) == Some(s')
  }

  ghost function NextOf(): (State, State) -> bool {
    (s, s') => Next(s, s')
  }

  // ---- The locks -----------------------------------------------------------------

  predicate HoldsRead(pc: Pc) {
    pc.AsyncLocked? || pc.AsyncOpen? || pc.AsyncRefused? || pc.AsyncReplied? || pc.AsyncUnlock?
    || pc.ReadLocked? || pc.ReadOpen? || pc.ReadLeaving?
  }

  predicate HoldsWrite(pc: Pc) {
    pc.RemoveLocked? || pc.RemoveOpen? || pc.RemoveUnlock? || pc.CloseLocked?
  }

  ghost predicate Locks(s: State) {
    && (forall p :: p in s.readers <==> p in s.pcs && HoldsRead(s.pcs[p]))
    && (forall p :: p in s.pcs ==> (HoldsWrite(s.pcs[p]) <==> s.writer == Some(p)))
    && (s.writer.Some? ==> s.writer.value in s.pcs && s.readers == {})
  }

  // ---- Closing -------------------------------------------------------------------

  /** Read the flag as false while holding the lock. */
  predicate SawOpen(pc: Pc) {
    pc.AsyncOpen? || pc.RemoveOpen? || pc.ReadOpen?
  }

  predicate Closer(pc: Pc) {
    pc.CloseMarked? || pc.ChannelClosed? || pc.LoopJoined? || pc.DbClosed?
  }

  function Stage(s: State): Pc {
    if s.closer.Some? && s.closer.value in s.pcs then s.pcs[s.closer.value] else CloseStart
  }

  // ---- Replies -------------------------------------------------------------------

  predicate Held(s: State, r: nat) {
    r in s.writeCh || (!s.loop.Idle? && !s.loop.Gone? && s.loop.r == r)
  }

  function WantReplies(s: State, r: nat): nat {
    if r !in s.pcs then 0
    else match s.pcs[r]
      case AsyncReplied => 1
      case AsyncUnlock(handed) => if handed && Held(s, r) && s.loop != Answered(r) then 0 else 1
      case AsyncDone(handed) => if handed && Held(s, r) && s.loop != Answered(r) then 0 else 1
      case _ => 0
  }

  function WantCloses(s: State, r: nat): nat {
    if r !in s.pcs then 0
    else match s.pcs[r]
      case AsyncUnlock(handed) => if handed && Held(s, r) then 0 else 1
      case AsyncDone(handed) => if handed && Held(s, r) then 0 else 1
      case _ => 0
  }

  predicate WasHanded(pc: Pc) {
    (pc.AsyncUnlock? || pc.AsyncDone?) && pc.handed
  }

  ghost predicate Answers(s: State) {
    && (forall r :: s.replies[r] == WantReplies(s, r))
    && (forall r :: s.replyCloses[r] == WantCloses(s, r))
    && (forall i :: 0 <= i < |s.writeCh| ==> s.writeCh[i] in s.pcs && WasHanded(s.pcs[s.writeCh[i]]))
    && (forall i, j :: 0 <= i < j < |s.writeCh| ==> s.writeCh[i] != s.writeCh[j])
    && (!s.loop.Idle? && !s.loop.Gone? ==>
          s.loop.r !in s.writeCh && s.loop.r in s.pcs && WasHanded(s.pcs[s.loop.r]))
  }

  ghost predicate OpenIsOpen(s: State) {
    forall p :: p in s.pcs && SawOpen(s.pcs[p]) ==> !s.closed
  }

  ghost predicate OneCloser(s: State) {
    && (forall p :: p in s.pcs && Closer(s.pcs[p]) ==> s.closer == Some(p))
    && (s.closed <==> s.closer.Some?)
    && (s.closed ==> s.closer.value in s.pcs && Closer(Stage(s)))
  }

  predicate IsChannelClosed(stage: Pc) {
    stage.ChannelClosed? || stage.LoopJoined? || stage.DbClosed?
  }

  /** The shared flags, given how far the one closing call has got. */
  ghost predicate StageOk(s: State) {
    && (s.chanClosed <==> IsChannelClosed(Stage(s)))
    && (s.dbClosed <==> Stage(s).DbClosed?)
    && (Stage(s).LoopJoined? || Stage(s).DbClosed? ==> s.loop.Gone?)
    && (s.loop.Gone? ==> s.chanClosed && s.writeCh == [])
    && !s.panicked && !s.badOp
  }

  // ---- What every step keeps -----------------------------------------------------

  /** A call's step and the lock, seen locally. */
  lemma ReactLock(v: View, pc: Pc, e: Effect)
    requires React(v, pc) == Some(e)
    ensures match e.op
            case Keep => (HoldsRead(e.pc) <==> HoldsRead(pc)) && (HoldsWrite(e.pc) <==> HoldsWrite(pc))
            case ReadLock => v.writerFree && HoldsRead(e.pc) && !HoldsWrite(e.pc) && !HoldsRead(pc) && !HoldsWrite(pc)
            case ReadUnlock => HoldsRead(pc) && !HoldsRead(e.pc) && !HoldsWrite(e.pc) && !HoldsWrite(pc)
            case WriteLock => v.writerFree && v.noReaders && HoldsWrite(e.pc) && !HoldsRead(e.pc) && !HoldsRead(pc) && !HoldsWrite(pc)
            case WriteUnlock => HoldsWrite(pc) && !HoldsWrite(e.pc) && !HoldsRead(e.pc) && !HoldsRead(pc)
  {
  }

  /** A call's step and the closing flags, seen locally. */
  lemma ReactClose(v: View, pc: Pc, e: Effect)
    requires React(v, pc) == Some(e)
    ensures SawOpen(e.pc) ==> SawOpen(pc) || !v.closed
    ensures e.deed.Mark? ==> !v.closed && e.op.WriteUnlock? && e.pc.CloseMarked?
    ensures Closer(e.pc) <==> Closer(pc) || e.deed.Mark?
    ensures e.deed.CloseChannel? <==> pc.CloseMarked? && !v.chanClosed
    ensures e.deed.CloseDb? <==> pc.LoopJoined?
    ensures Closer(pc) ==> !e.deed.Hand? && e.pc == match pc
                  case CloseMarked => ChannelClosed
                  case ChannelClosed => LoopJoined
                  case _ => DbClosed
    ensures pc.ChannelClosed? ==> v.gone
    ensures e.deed.Panic? ==> v.chanClosed && (pc.AsyncOpen? || pc.CloseMarked?)
    ensures e.deed.BoltOp? || e.deed.Hand? ==> SawOpen(pc)
  {
  }

  /** A call's step and its reply channel, seen locally. */
  lemma ReactAnswer(v: View, pc: Pc, e: Effect)
    requires React(v, pc) == Some(e)
    ensures e.deed.Hand? ==> pc.AsyncOpen? && e.pc == AsyncUnlock(true)
    ensures e.deed.Reply? ==> pc.AsyncRefused? && e.pc.AsyncReplied?
    ensures e.deed.CloseReply? ==> pc.AsyncReplied? && e.pc == AsyncUnlock(false)
    ensures !e.deed.Hand? && !e.deed.Reply? && !e.deed.CloseReply? ==> SameAnswer(pc, e.pc)
  {
  }

  /** The two positions expect the same of the reply channel. */
  predicate SameAnswer(pc: Pc, pc': Pc) {
    && (pc.AsyncReplied? <==> pc'.AsyncReplied?)
    && ((pc.AsyncUnlock? || pc.AsyncDone?) <==> (pc'.AsyncUnlock? || pc'.AsyncDone?))
    && (pc.AsyncUnlock? || pc.AsyncDone? ==> pc.handed == pc'.handed)
  }

  lemma ActKeepsLocks(s: State, p: nat, e: Effect)
    requires Locks(s) && p in s.pcs && React(ViewOf(s), s.pcs[p]) == Some(e)
    ensures Locks(Perform(s, p, e))
  {
    ReactLock(ViewOf(s), s.pcs[p], e);
    LocksFrame(s, p, e);
  }

  predicate LockFits(s: State, p: nat, e: Effect)
    requires p in s.pcs
  {
    match e.op
    case Keep => (HoldsRead(e.pc) <==> HoldsRead(s.pcs[p])) && (HoldsWrite(e.pc) <==> HoldsWrite(s.pcs[p]))
    case ReadLock => s.writer.None? && HoldsRead(e.pc) && !HoldsWrite(e.pc) && !HoldsWrite(s.pcs[p])
    case ReadUnlock => HoldsRead(s.pcs[p]) && !HoldsRead(e.pc) && !HoldsWrite(e.pc) && !HoldsWrite(s.pcs[p])
    case WriteLock => s.writer.None? && s.readers == {} && HoldsWrite(e.pc) && !HoldsRead(e.pc)
    case WriteUnlock => HoldsWrite(s.pcs[p]) && !HoldsWrite(e.pc) && !HoldsRead(e.pc)
  }

  lemma LocksFrame(s: State, p: nat, e: Effect)
    requires Locks(s) && p in s.pcs && LockFits(s, p, e)
    ensures Locks(Perform(s, p, e))
  {
  }

  /** Setting the flag needs the write lock, so no call is between reading it as
      false and acting on that. */
  lemma NobodySawOpen(s: State, p: nat, q: nat)
    requires Locks(s) && p in s.pcs && HoldsWrite(s.pcs[p])
    requires q in s.pcs && q != p
    ensures !SawOpen(s.pcs[q])
  {
    assert s.writer == Some(p) && s.readers == {};
    assert !HoldsWrite(s.pcs[q]);
    assert q !in s.readers;
  }

  lemma ActKeepsFlag(s: State, p: nat, e: Effect)
    requires Locks(s) && OpenIsOpen(s) && OneCloser(s) && p in s.pcs && React(ViewOf(s), s.pcs[p]) == Some(e)
    ensures OpenIsOpen(Perform(s, p, e)) && OneCloser(Perform(s, p, e))
    ensures Stage(Perform(s, p, e)) == if e.deed.Mark? || s.closer == Some(p) then e.pc else Stage(s)
  {
    ReactClose(ViewOf(s), s.pcs[p], e);
    var s' := Perform(s, p, e);
    if e.deed.Mark? {
      ReactLock(ViewOf(s), s.pcs[p], e);
      forall q | q in s'.pcs ensures !SawOpen(s'.pcs[q]) {
        if q != p {
          NobodySawOpen(s, p, q);
        }
      }
    }
  }

  lemma ActKeepsStage(s: State, p: nat, e: Effect)
    requires Locks(s) && OpenIsOpen(s) && OneCloser(s) && StageOk(s)
    requires p in s.pcs && React(ViewOf(s), s.pcs[p]) == Some(e)
    ensures StageOk(Perform(s, p, e))
  {
    ReactClose(ViewOf(s), s.pcs[p], e);
    ActKeepsFlag(s, p, e);
    StageFrame(s, p, e);
  }

  lemma StageFrame(s: State, p: nat, e: Effect)
    requires OneCloser(s) && StageOk(s) && p in s.pcs
    requires SawOpen(s.pcs[p]) ==> !s.closed
    requires Stage(Perform(s, p, e)) == if e.deed.Mark? || s.closer == Some(p) then e.pc else Stage(s)
    requires e.deed.Mark? ==> !s.closed && e.pc.CloseMarked?
    requires Closer(e.pc) <==> Closer(s.pcs[p]) || e.deed.Mark?
    requires e.deed.CloseChannel? <==> s.pcs[p].CloseMarked? && !s.chanClosed
    requires e.deed.CloseDb? <==> s.pcs[p].LoopJoined?
    requires Closer(s.pcs[p]) ==> !e.deed.Hand? && e.pc == match s.pcs[p]
                  case CloseMarked => ChannelClosed
                  case ChannelClosed => LoopJoined
                  case _ => DbClosed
    requires s.pcs[p].ChannelClosed? ==> s.loop.Gone?
    requires e.deed.Panic? ==> s.chanClosed && (s.pcs[p].AsyncOpen? || s.pcs[p].CloseMarked?)
    requires e.deed.BoltOp? ==> SawOpen(s.pcs[p])
    requires e.deed.Hand? ==> SawOpen(s.pcs[p])
    ensures StageOk(Perform(s, p, e))
  {
    assert !s.closed ==> !s.chanClosed && !s.dbClosed && !s.loop.Gone?;
    assert Closer(s.pcs[p]) ==> Stage(s) == s.pcs[p];
  }

  // Replies

  /** What a state expects of the reply channel of a call at pc. */
  function Expect(pc: Pc, held: bool, answered: bool): (nat, nat) {
    if pc.AsyncReplied? then (1, 0)
    else if !pc.AsyncUnlock? && !pc.AsyncDone? then (0, 0)
    else if pc.handed && held then (if answered then 1 else 0, 0)
    else (1, 1)
  }

  lemma WantIs(s: State, r: nat)
    requires r in s.pcs
    ensures (WantReplies(s, r), WantCloses(s, r)) == Expect(s.pcs[r], Held(s, r), s.loop == Answered(r))
  {
  }

  lemma ActKeepsAnswers(s: State, p: nat, e: Effect)
    requires Answers(s) && p in s.pcs && React(ViewOf(s), s.pcs[p]) == Some(e)
    ensures Answers(Perform(s, p, e))
  {
    ReactAnswer(ViewOf(s), s.pcs[p], e);
    AnswersFrame(s, p, e);
  }

  lemma OthersExpectTheSame(s: State, p: nat, e: Effect, r: nat)
    requires p in s.pcs && r != p
    ensures var s' := Perform(s, p, e);
            WantReplies(s', r) == WantReplies(s, r) && WantCloses(s', r) == WantCloses(s, r)
  {
    var s' := Perform(s, p, e);
    assert r in s'.pcs <==> r in s.pcs;
    assert r in s'.writeCh <==> r in s.writeCh;
  }

  lemma AnswersFrame(s: State, p: nat, e: Effect)
    requires Answers(s) && p in s.pcs
    requires e.deed.Hand? ==> s.pcs[p].AsyncOpen? && e.pc == AsyncUnlock(true)
    requires e.deed.Reply? ==> s.pcs[p].AsyncRefused? && e.pc.AsyncReplied?
    requires e.deed.CloseReply? ==> s.pcs[p].AsyncReplied? && e.pc == AsyncUnlock(false)
    requires !e.deed.Hand? && !e.deed.Reply? && !e.deed.CloseReply? ==> SameAnswer(s.pcs[p], e.pc)
    ensures Answers(Perform(s, p, e))
  {
    var s' := Perform(s, p, e);
    forall r | r != p ensures WantReplies(s', r) == WantReplies(s, r) && WantCloses(s', r) == WantCloses(s, r) {
      OthersExpectTheSame(s, p, e, r);
    }
    WantIs(s, p);
    WantIs(s', p);
    if e.deed.Hand? {
      assert s'.writeCh[|s.writeCh|] == p;
    }
  }

  ghost predicate Inv(s: State) {
    Locks(s) && OpenIsOpen(s) && OneCloser(s) && StageOk(s) && Answers(s)
  }

  ghost function InvOf(): State -> bool {
    s => Inv(s)
  }

  lemma ActKeeps(s: State, p: nat, s': State)
    requires InvOf()(s) && Apply(s, Act(p)) == Some(s')
    ensures InvOf()(s')
  {
    var e := React(ViewOf(s), s.pcs[p]).value;
    ActKeepsLocks(s, p, e);
    ActKeepsFlag(s, p, e);
    ActKeepsStage(s, p, e);
    ActKeepsAnswers(s, p, e);
  }

  lemma NewKeepsAnswers(s: State, p: nat, pc: Pc, s': State)
    requires Answers(s) && p !in s.pcs && s' == s.(pcs := s.pcs[p := pc])
    requires Expect(pc, false, false) == (0, 0)
    ensures Answers(s')
  {
    forall r ensures WantReplies(s', r) == WantReplies(s, r) && WantCloses(s', r) == WantCloses(s, r) {
      assert r != p ==> (r in s'.pcs <==> r in s.pcs);
    }
  }

  lemma NewKeepsRest(s: State, p: nat, pc: Pc, s': State)
    requires Locks(s) && OpenIsOpen(s) && OneCloser(s) && StageOk(s)
    requires p !in s.pcs && s' == s.(pcs := s.pcs[p := pc])
    requires !HoldsRead(pc) && !HoldsWrite(pc) && !SawOpen(pc) && !Closer(pc)
    ensures Locks(s') && OpenIsOpen(s') && OneCloser(s') && StageOk(s')
  {
    assert s.closer != Some(p);
    assert Stage(s') == Stage(s);
    assert p !in s.readers;
  }

  lemma NewKeeps(s: State, p: nat, k: Kind, s': State)
    requires InvOf()(s) && Apply(s, New(p, k)) == Some(s')
    ensures InvOf()(s')
  {
    NewKeepsAnswers(s, p, First(k), s');
    NewKeepsRest(s, p, First(k), s');
  }

  /** The loop takes the next request, or leaves. */
  lemma FetchKeepsAnswers(s: State, s': State)
    requires Answers(s) && s.loop.Idle? && s.writeCh != []
    requires s' == s.(loop := Got(s.writeCh[0]), writeCh := s.writeCh[1..])
    ensures Answers(s')
  {
    var h := s.writeCh[0];
    assert s.writeCh == [h] + s'.writeCh;
    forall r ensures Held(s', r) <==> Held(s, r) {
      assert r in s.writeCh <==> r == h || r in s'.writeCh;
    }
    assert h !in s'.writeCh;
  }

  /** The loop replies to the request in hand. */
  lemma ReplyKeepsAnswers(s: State, r: nat, s': State)
    requires Answers(s)
    requires s.loop == Answering(r) && s' == s.(loop := Answered(r), replies := s.replies + multiset{r})
    ensures Answers(s')
  {
    forall q | q != r ensures WantReplies(s', q) == WantReplies(s, q) && WantCloses(s', q) == WantCloses(s, q) {
    }
  }

  /** The loop closes the reply channel of the request in hand. */
  lemma CloseReplyKeepsAnswers(s: State, r: nat, s': State)
    requires Answers(s)
    requires s.loop == Answered(r) && s' == s.(loop := Idle, replyCloses := s.replyCloses + multiset{r})
    ensures Answers(s')
  {
    forall q | q != r ensures WantReplies(s', q) == WantReplies(s, q) && WantCloses(s', q) == WantCloses(s, q) {
    }
  }

  lemma LoopKeepsAnswers(s: State, s': State)
    requires Answers(s) && ActLoop(s) == Some(s')
    ensures Answers(s')
  {
    if s.loop.Answering? {
      ReplyKeepsAnswers(s, s.loop.r, s');
    } else if s.loop.Answered? {
      CloseReplyKeepsAnswers(s, s.loop.r, s');
    } else if s.loop.Idle? && s.writeCh != [] {
      FetchKeepsAnswers(s, s');
    } else {
      assert s' == s.(loop := s'.loop, puts := s'.puts, decided := s'.decided, badOp := s'.badOp);
      SameHandKeepsAnswers(s, s');
    }
  }

  /** The loop moves on with the same request in hand, or leaves. */
  lemma SameHandKeepsAnswers(s: State, s': State)
    requires Answers(s) && s' == s.(loop := s'.loop, puts := s'.puts, decided := s'.decided, badOp := s'.badOp)
    requires || (s.loop.Idle? && s'.loop.Gone?)
             || ((s.loop.Got? || s.loop.Putting?) && (s'.loop.Putting? || s'.loop.Answering?) && s'.loop.r == s.loop.r)
    ensures Answers(s')
  {
    forall r ensures WantReplies(s', r) == WantReplies(s, r) && WantCloses(s', r) == WantCloses(s, r) {
    }
  }

  lemma LoopKeepsStage(s: State, s': State)
    requires OneCloser(s) && StageOk(s) && ActLoop(s) == Some(s')
    ensures StageOk(s')
  {
    assert Stage(s') == Stage(s);
  }

  lemma LoopLeaves(s: State)
    requires ActLoop(s).Some?
    ensures var s' := ActLoop(s).value;
            s' == s.(loop := s'.loop, writeCh := s'.writeCh, replies := s'.replies,
                     replyCloses := s'.replyCloses, puts := s'.puts, decided := s'.decided, badOp := s'.badOp)
  {
    match s.loop
    case Idle =>
    case Got(r) =>
    case Putting(r) =>
    case Answering(r) =>
    case Answered(r) =>
    case Gone =>
  }

  lemma LoopKeeps(s: State, s': State)
    requires InvOf()(s) && Apply(s, Loop) == Some(s')
    ensures InvOf()(s')
  {
    LoopKeepsAnswers(s, s');
    LoopKeepsStage(s, s');
    LoopLeaves(s);
  }

  lemma NextKeeps(s: State, s': State)
    requires InvOf()(s) && NextOf()(s, s')
    ensures InvOf()(s')
  {
    var step :| Apply(s, step) == Some(s');
    match step
    case New(p, k) => NewKeeps(s, p, k, s');
    case Act(p) => ActKeeps(s, p, s');
    case Loop => LoopKeeps(s, s');
  }

  lemma InitInv()
    ensures InvOf()(Init())
  {
  }

  lemma ReachableInv(k: nat, s: State)
    requires Reaches(Init(), NextOf(), k, s)
    ensures InvOf()(s)
  {
    forall p, q | InvOf()(p) && NextOf()(p, q) ensures InvOf()(q) {
      NextKeeps(p, q);
    }
    InitInv();
    Invariance(Init(), NextOf(), InvOf(), k, s);
  }

  // ---- Main results --------------------------------------------------------------

  /** No send on the closed write channel, no second close of it, and no bolt
      operation after the database is closed, in any interleaving. */
  lemma NeverPanics(k: nat, s: State)
    requires Reaches(Init(), NextOf(), k, s)
    ensures !s.panicked && !s.badOp
    ensures forall p :: p in s.pcs && (s.pcs[p].AsyncOpen? || s.pcs[p].CloseMarked?) ==> !s.chanClosed
    ensures forall p :: p in s.pcs && (s.pcs[p].RemoveOpen? || s.pcs[p].ReadOpen?) ==> !s.dbClosed
    ensures s.loop.Putting? ==> !s.dbClosed
  {
    ReachableInv(k, s);
    SafeFacts(s);
    AboutToFacts(s);
  }

  /** Who is about to use the channel or the database finds it open. */
  lemma AboutToFacts(s: State)
    requires InvOf()(s)
    ensures forall p :: p in s.pcs && (s.pcs[p].AsyncOpen? || s.pcs[p].CloseMarked?) ==> !s.chanClosed
    ensures forall p :: p in s.pcs && (s.pcs[p].RemoveOpen? || s.pcs[p].ReadOpen?) ==> !s.dbClosed
  {
  }

  lemma SafeFacts(s: State)
    requires InvOf()(s)
    ensures !s.panicked && !s.badOp
    ensures s.dbClosed ==> s.loop.Gone?
  {
  }

  /** The call has left its critical section or is about to. */
  predicate Decided(pc: Pc) {
    pc.AsyncUnlock? || pc.AsyncDone?
  }

  lemma ReplyFacts(s: State, r: nat)
    requires InvOf()(s)
    ensures s.replies[r] <= 1 && s.replyCloses[r] <= s.replies[r]
    ensures s.loop.Gone? && r in s.pcs && Decided(s.pcs[r]) ==>
              s.replies[r] == 1 && s.replyCloses[r] == 1
  {
    assert s.replies[r] == WantReplies(s, r);
    assert s.replyCloses[r] == WantCloses(s, r);
  }

  /** A reply channel gets at most one reply and is closed at most once, after
      it; and when the write loop has gone, every request made has had exactly
      one reply and one close. */
  lemma ExactlyOneReply(k: nat, s: State, r: nat)
    requires Reaches(Init(), NextOf(), k, s)
    ensures s.replies[r] <= 1 && s.replyCloses[r] <= s.replies[r]
    ensures s.loop.Gone? && r in s.pcs && Decided(s.pcs[r]) ==>
              s.replies[r] == 1 && s.replyCloses[r] == 1
  {
    ReachableInv(k, s);
    ReplyFacts(s, r);
  }

  /** The database is closed only after the write loop has gone. */
  lemma LoopOutlivesDatabase(k: nat, s: State)
    requires Reaches(Init(), NextOf(), k, s) && s.dbClosed
    ensures s.loop.Gone?
  {
    ReachableInv(k, s);
    SafeFacts(s);
  }
}
