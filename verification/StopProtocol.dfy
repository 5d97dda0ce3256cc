/**
 Stopping a device in WinUHid.dll: the device lock, any number of polling calls, the read
 throttling thread and WinUHidStopDevice, one step per atomic action.

 Poller 0 is the event thread when there is one.  A polling call that returned an event starts
 over, as the event thread does; a call that returned NULL is over.  A later call of the user is a
 further poller that has not entered yet.
 */
module StopProtocol {

  datatype DeviceState = Created | Started | Stopped

  /** What became of an I/O request: an event, a buffer that is too small, or another error. */
  datatype IoResult = GotEvent | TooSmall | Failed

  datatype Io = NoIo | Pending | Cancelling | Finished(result: IoResult)

  /** Where a call of WinUHidPollEvent is; the comments say which lock it holds there. */
  datatype PollPc =
    | Enter
    | Alloc      // shared
    | Check      // shared
    | Issue      // shared
    | Issued     // shared
    | Waiting
    | WantGrow
    | GrowHeld   // exclusive
    | Realloc
    | WantRetry
    | Handling   // the returned event is handed to the callback or to the read thread
    | Exited

  datatype Poller = Poller(pc: PollPc, io: Io)

  /** Where ReadThreadProc is. */
  datatype ReadPc =
    | RAcquire
    | RLoop      // shared
    | RWaitEvent   // about to wait
    | RBlocked     // in the wait: setting the event releases the thread and leaves the event clear
    | RAcquireAgain
    | RTake      // shared
    | RCallback
    | RArm
    | RWaitTimer
    | RExited

  /** Where WinUHidStopDevice is. */
  datatype StopPc =
    | SIdle
    | SAcquire
    | SHeld         // exclusive
    | SCancel       // exclusive
    | SAfterCancel  // exclusive
    | SWaitPoller
    | SAcquire2
    | SHeld2        // exclusive
    | SSetEvent
    | SSetTimer
    | SWaitReader
    | SAcquire3
    | SHeld3        // exclusive
    | SDone

  /** The slim reader/writer lock of the device. */
  datatype Lock = Lock(readers: nat, writer: bool)

  datatype LockOp = Keep | AcquireShared | ReleaseShared | AcquireExclusive | ReleaseExclusive

  predicate CanLock(l: Lock, op: LockOp)
  {
    (op.AcquireShared? ==> !l.writer) && (op.AcquireExclusive? ==> !l.writer && l.readers == 0)
  }

  function Locked(l: Lock, op: LockOp): Lock
  {
    match op
    case Keep => l
    case AcquireShared => Lock(l.readers + 1, l.writer)
    case ReleaseShared => Lock(if l.readers > 0 then l.readers - 1 else 0, l.writer)
    case AcquireExclusive => Lock(l.readers, true)
    case ReleaseExclusive => Lock(l.readers, false)
  }

  datatype Sdk = Sdk(
    state: DeviceState,
    lock: Lock,
    pollers: seq<Poller>,
    hasEventThread: bool,
    reader: ReadPc,
    hasReadThread: bool,
    stopper: StopPc,
    cancelled: bool,       // CancelIoEx was called
    issued: nat,           // GET_NEXT_EVENT requests issued so far
    signal: bool,          // the auto-reset ReadReportReadyEvent
    slot: bool,            // PendingReadReportEvent is set
    armed: bool,           // the throttling timer is due later
    fired: bool,           // the throttling timer is signalled
    submits: nat,          // WinUHidSubmitInputReport calls that have yet to re-arm the timer
    stolen: bool)          // such a call took the signal that the stop set for the read thread

  datatype Step =
    | Poll(p: nat, ok: bool)
    | IoEnd(p: nat, result: IoResult)
    | TimeOut(p: nat)
    | Read
    | TimerFires
    | Stop
    | Submit
    | Rearm

  // ---------------------------------------------------------------- one thread at a time

  /** The next program counter of a polling call; `ok` decides about allocations. */
  function PollNext(q: Poller, started: bool, ok: bool): PollPc
    requires q.pc.Waiting? ==> q.io.Finished?
  {
    match q.pc
    case Enter => Alloc
    case Alloc => if ok then Check else Exited
    case Check => if started then Issue else Exited
    case Issue => Issued
    case Issued => Waiting
    case Waiting => if q.io.result.GotEvent? then Handling else if q.io.result.TooSmall? then WantGrow else Exited
    case WantGrow => GrowHeld
    case GrowHeld => Realloc
    case Realloc => if ok then WantRetry else Exited
    case WantRetry => Check
    case Handling => Enter
    case Exited => Exited
  }

  function PollIo(q: Poller): Io
  {
    if q.pc.Issue? then Pending else if q.pc.Waiting? then NoIo else q.io
  }

  function PollLock(pc: PollPc, started: bool, ok: bool): LockOp
  {
    match pc
    case Enter => AcquireShared
    case Alloc => if ok then Keep else ReleaseShared
    case Check => if started then Keep else ReleaseShared
    case Issued => ReleaseShared
    case WantGrow => AcquireExclusive
    case GrowHeld => ReleaseExclusive
    case WantRetry => AcquireShared
    case _ => Keep
  }

  function ReadNext(pc: ReadPc, started: bool, slot: bool, signal: bool): ReadPc
  {
    match pc
    case RAcquire => RLoop
    case RLoop => if started then RWaitEvent else RExited
    case RWaitEvent => if signal then RAcquireAgain else RBlocked
    case RBlocked => RBlocked
    case RAcquireAgain => RTake
    case RTake => if !started then RExited else if slot then RCallback else RLoop
    case RCallback => RArm
    case RArm => RWaitTimer
    case RWaitTimer => RAcquire
    case RExited => RExited
  }

  function ReadLock(pc: ReadPc, started: bool, slot: bool): LockOp
  {
    match pc
    case RAcquire => AcquireShared
    case RLoop => ReleaseShared
    case RAcquireAgain => AcquireShared
    case RTake => if started && !slot then Keep else ReleaseShared // the empty slot goes on under the lock
    case _ => Keep
  }

  function StopNext(pc: StopPc, started: bool, hasEventThread: bool, hasReadThread: bool): StopPc
  {
    match pc
    case SIdle => SAcquire
    case SAcquire => SHeld
    case SHeld => if started then SCancel else SDone
    case SCancel => SAfterCancel
    case SAfterCancel => if hasEventThread then SWaitPoller else SHeld2
    case SWaitPoller => SAcquire2
    case SAcquire2 => SHeld2
    case SHeld2 => if hasReadThread then SSetEvent else SDone
    case SSetEvent => SSetTimer
    case SSetTimer => SWaitReader
    case SWaitReader => SAcquire3
    case SAcquire3 => SHeld3
    case SHeld3 => SDone
    case SDone => SDone
  }

  function StopLock(pc: StopPc, started: bool, hasEventThread: bool): LockOp
  {
    match pc
    case SAcquire => AcquireExclusive
    case SHeld => if started then Keep else ReleaseExclusive
    case SAfterCancel => if hasEventThread then ReleaseExclusive else Keep
    case SAcquire2 => AcquireExclusive
    case SHeld2 => ReleaseExclusive
    case SAcquire3 => AcquireExclusive
    case SHeld3 => ReleaseExclusive
    case _ => Keep
  }

  /** CancelIoEx on the whole handle: cancellation is requested, not guaranteed. */
  function CancelAll(pollers: seq<Poller>): (r: seq<Poller>)
    ensures |r| == |pollers|
    ensures forall p | 0 <= p < |r| ::
              r[p] == if pollers[p].io.Pending? then pollers[p].(io := Cancelling) else pollers[p]
  {
    seq(|pollers|, p requires 0 <= p < |pollers| =>
      if pollers[p].io.Pending? then pollers[p].(io := Cancelling) else pollers[p])
  }

  // ---------------------------------------------------------------- steps

  predicate PollEnabled(s: Sdk, p: nat, ok: bool)
  {
    && p < |s.pollers| && !s.pollers[p].pc.Exited?
    && (s.pollers[p].pc.Waiting? ==> s.pollers[p].io.Finished?)
    && CanLock(s.lock, PollLock(s.pollers[p].pc, s.state.Started?, ok))
  }

  predicate ReadEnabled(s: Sdk)
  {
    && !s.reader.RExited? && !s.reader.RBlocked?
    && (s.reader.RWaitTimer? ==> s.fired)
    && CanLock(s.lock, ReadLock(s.reader, s.state.Started?, s.slot))
  }

  predicate StopEnabled(s: Sdk)
  {
    && !s.stopper.SDone?
    && (s.stopper.SWaitPoller? ==> |s.pollers| > 0 && s.pollers[0].pc.Exited?)
    && (s.stopper.SWaitReader? ==> s.reader.RExited?)
    && CanLock(s.lock, StopLock(s.stopper, s.state.Started?, s.hasEventThread))
  }

  /** The stop has set the event for the read thread and does not do so again. */
  predicate AfterSignal(pc: StopPc)
  {
    pc.SSetTimer? || pc.SWaitReader?
  }

  /** A submit takes the signal that the stop has set for the read thread, which is about to wait for it. */
  predicate Steals(s: Sdk, step: Step)
  {
    step.Submit? && AfterSignal(s.stopper) && s.reader.RWaitEvent?
  }

  predicate Enabled(s: Sdk, step: Step)
  {
    match step
    case Poll(p, ok) => PollEnabled(s, p, ok)
    case IoEnd(p, _) => p < |s.pollers| && (s.pollers[p].io.Pending? || s.pollers[p].io.Cancelling?)
    case TimeOut(p) => p < |s.pollers| && s.pollers[p] == Poller(Waiting, Pending)
    case Read => ReadEnabled(s)
    case TimerFires => s.armed
    case Stop => StopEnabled(s)
    case Submit => s.signal
    case Rearm => s.submits > 0
  }

  /** SetEvent releases a thread that is in the wait. */
  function Released(pc: ReadPc): ReadPc
  {
    if pc.RBlocked? then RAcquireAgain else pc
  }

  function PollStep(s: Sdk, p: nat, ok: bool): Sdk
    requires PollEnabled(s, p, ok)
  {
    var q := s.pollers[p];
    var handOff := q.pc.Handling? && ok && p == 0 && s.hasEventThread && s.hasReadThread;
    s.(lock := Locked(s.lock, PollLock(q.pc, s.state.Started?, ok)),
       pollers := s.pollers[p := Poller(PollNext(q, s.state.Started?, ok), PollIo(q))],
       issued := s.issued + if q.pc.Issue? then 1 else 0,
       slot := s.slot || handOff,
       reader := if handOff then Released(s.reader) else s.reader,
       signal := s.signal || (handOff && !s.reader.RBlocked?))
  }

  function ReadStep(s: Sdk): Sdk
    requires ReadEnabled(s)
  {
    var started := s.state.Started?;
    s.(lock := Locked(s.lock, ReadLock(s.reader, started, s.slot)),
       reader := ReadNext(s.reader, started, s.slot, s.signal),
       signal := s.signal && !s.reader.RWaitEvent?,
       slot := s.slot && !(s.reader.RTake? && started),
       armed := s.armed || s.reader.RArm?,
       fired := s.fired && !s.reader.RArm?)
  }

  function StopStep(s: Sdk): Sdk
    requires StopEnabled(s)
  {
    var started := s.state.Started?;
    s.(lock := Locked(s.lock, StopLock(s.stopper, started, s.hasEventThread)),
       stopper := StopNext(s.stopper, started, s.hasEventThread, s.hasReadThread),
       state := if s.stopper.SHeld? && started then Stopped else s.state,
       pollers := if s.stopper.SCancel? then CancelAll(s.pollers) else s.pollers,
       cancelled := s.cancelled || s.stopper.SCancel?,
       reader := if s.stopper.SSetEvent? then Released(s.reader) else s.reader,
       signal := s.signal || (s.stopper.SSetEvent? && !s.reader.RBlocked?),
       armed := s.armed || s.stopper.SSetTimer?,
       fired := s.fired && !s.stopper.SSetTimer?)
  }

  function Apply(s: Sdk, step: Step): Sdk
    requires Enabled(s, step)
  {
    match step
    case Poll(p, ok) => PollStep(s, p, ok)
    case IoEnd(p, result) => s.(pollers := s.pollers[p := s.pollers[p].(io := Finished(result))])
    case TimeOut(p) => s.(pollers := s.pollers[p := Poller(Waiting, Cancelling)])
    case Read => ReadStep(s)
    case TimerFires => s.(armed := false, fired := true)
    case Stop => StopStep(s)
    case Submit =>
      // The timer is re-armed later, unless the slot was empty.
      s.(signal := false, slot := false, submits := s.submits + if s.slot then 1 else 0,
         stolen := s.stolen || Steals(s, step))
    case Rearm => s.(armed := true, fired := false, submits := s.submits - 1)
  }

  predicate Initial(s: Sdk)
  {
    && !s.state.Stopped? && s.lock == Lock(0, false)
    && (forall p | 0 <= p < |s.pollers| :: s.pollers[p] == Poller(Enter, NoIo))
    && (s.hasEventThread ==> |s.pollers| > 0)
    && s.reader == (if s.hasReadThread then RAcquire else RExited)
    && s.stopper.SIdle? && !s.cancelled && s.issued == 0
    && !s.signal && !s.slot && !s.armed && !s.fired && s.submits == 0 && !s.stolen
  }

  ghost predicate Next(s: Sdk, s': Sdk)
  {
    exists step :: Enabled(s, step) && s' == Apply(s, step)
  }

  ghost predicate IsRun(run: seq<Sdk>)
  {
    && |run| > 0 && Initial(run[0])
    && forall i | 0 <= i < |run| - 1 :: Next(run[i], run[i + 1])
  }

  // ---------------------------------------------------------------- the lock

  function SharedHold(p: Poller): nat
  {
    if (p.pc.Alloc? || p.pc.Check? || p.pc.Issue? || p.pc.Issued?) then 1 else 0
  }

  function ExclusiveHold(p: Poller): nat
  {
    if p.pc == GrowHeld then 1 else 0
  }

  function ReaderHold(pc: ReadPc): nat
  {
    if (pc.RLoop? || pc.RTake?) then 1 else 0
  }

  function StopperHold(pc: StopPc): nat
  {
    if (pc.SHeld? || pc.SCancel? || pc.SAfterCancel? || pc.SHeld2? || pc.SHeld3?) then 1 else 0
  }

  function Sum(ps: seq<Poller>, f: Poller -> nat): nat
  {
    if ps == [] then 0 else f(ps[0]) + Sum(ps[1..], f)
  }

  lemma {:induction false} SumUpdate(ps: seq<Poller>, f: Poller -> nat, p: nat, q: Poller)
    requires p < |ps|
    ensures Sum(ps[p := q], f) == Sum(ps, f) - f(ps[p]) + f(q)
    ensures f(ps[p]) <= Sum(ps, f)
  {
    if p == 0 {
      assert ps[0 := q][1..] == ps[1..];
    } else {
      assert ps[p := q][1..] == ps[1..][p - 1 := q];
      SumUpdate(ps[1..], f, p - 1, q);
    }
  }

  lemma {:induction false} SumSame(ps: seq<Poller>, qs: seq<Poller>, f: Poller -> nat)
    requires |ps| == |qs| && forall p | 0 <= p < |ps| :: f(ps[p]) == f(qs[p])
    ensures Sum(ps, f) == Sum(qs, f)
  {
    if ps == [] {
    } else {
      SumSame(ps[1..], qs[1..], f);
    }
  }

  lemma {:induction false} SumWitness(ps: seq<Poller>, f: Poller -> nat) returns (p: nat)
    requires Sum(ps, f) > 0
    ensures p < |ps| && f(ps[p]) > 0
  {
    if f(ps[0]) > 0 {
      p := 0;
    } else {
      p := SumWitness(ps[1..], f);
      p := p + 1;
    }
  }

  /** The lock counts exactly the holders that the program counters imply. */
  ghost predicate LockBalanced(s: Sdk)
  {
    && s.lock.readers == Sum(s.pollers, SharedHold) + ReaderHold(s.reader)
    && (if s.lock.writer then 1 else 0) == Sum(s.pollers, ExclusiveHold) + StopperHold(s.stopper)
    && (s.lock.writer ==> s.lock.readers == 0)
  }

  // ---------------------------------------------------------------- the invariant

  predicate PastCancel(pc: StopPc)
  {
    || pc.SAfterCancel? || pc.SWaitPoller? || pc.SAcquire2? || pc.SHeld2?
    || pc.SSetEvent? || pc.SSetTimer? || pc.SWaitReader? || pc.SAcquire3? || pc.SHeld3?
  }

  /** The stop is in its part that deals with the read thread. */
  predicate ForReader(pc: StopPc)
  {
    pc.SSetEvent? || pc.SSetTimer? || pc.SWaitReader? || pc.SAcquire3? || pc.SHeld3?
  }

  ghost predicate PollersInv(s: Sdk)
  {
    forall p | 0 <= p < |s.pollers| ::
      && (s.pollers[p].pc.Issue? ==> s.state.Started?)
      && (s.pollers[p].io.NoIo? <==> !s.pollers[p].pc.Issued? && !s.pollers[p].pc.Waiting?)
      && (s.cancelled ==> !s.pollers[p].io.Pending?)
  }

  ghost predicate StopInv(s: Sdk)
  {
    && (s.state.Stopped? <==> s.stopper.SCancel? || s.cancelled)
    && (s.cancelled <==> PastCancel(s.stopper) || (s.stopper.SDone? && s.state.Stopped?))
    && (s.hasEventThread ==> |s.pollers| > 0)
    && (s.cancelled && s.hasEventThread && !(s.stopper.SAfterCancel? || s.stopper.SWaitPoller?) ==>
          s.pollers[0].pc.Exited?)
    && (s.stopper.SWaitPoller? ==> s.hasEventThread)
  }

  ghost predicate ReadInv(s: Sdk)
  {
    && (!s.hasReadThread ==> s.reader.RExited?)
    && (ForReader(s.stopper) ==> s.hasReadThread)
    && (AfterSignal(s.stopper) && s.reader.RWaitEvent? ==> s.signal || s.stolen)
    && (AfterSignal(s.stopper) && s.reader.RBlocked? ==> s.stolen)
    && (s.reader.RBlocked? ==> !s.signal)
    && (s.stolen ==> AfterSignal(s.stopper) && (s.reader.RWaitEvent? || s.reader.RBlocked?) && !s.signal)
    && (s.reader.RWaitTimer? ==> s.armed || s.fired)
    && ((s.stopper.SAcquire3? || s.stopper.SHeld3?) || (s.cancelled && s.stopper.SDone?) ==> s.reader.RExited?)
  }

  ghost predicate Inv(s: Sdk)
  {
    LockBalanced(s) && PollersInv(s) && StopInv(s) && ReadInv(s)
  }

  lemma {:induction false} SumZero(ps: seq<Poller>, f: Poller -> nat)
    requires forall p | 0 <= p < |ps| :: f(ps[p]) == 0
    ensures Sum(ps, f) == 0
  {
    if ps == [] {
    } else {
      SumZero(ps[1..], f);
    }
  }

  lemma InitialInv(s: Sdk)
    requires Initial(s)
    ensures Inv(s)
  {
    SumZero(s.pollers, SharedHold);
    SumZero(s.pollers, ExclusiveHold);
  }

  lemma PollKeepsLock(s: Sdk, p: nat, ok: bool)
    requires LockBalanced(s) && PollEnabled(s, p, ok)
    ensures LockBalanced(PollStep(s, p, ok))
  {
    var q := PollStep(s, p, ok).pollers[p];
    SumUpdate(s.pollers, SharedHold, p, q);
    SumUpdate(s.pollers, ExclusiveHold, p, q);
    assert PollStep(s, p, ok).pollers == s.pollers[p := q];
  }

  lemma StopKeepsLock(s: Sdk)
    requires LockBalanced(s) && StopEnabled(s)
    ensures LockBalanced(StopStep(s))
  {
    if s.stopper.SCancel? {
      SumSame(s.pollers, CancelAll(s.pollers), SharedHold);
      SumSame(s.pollers, CancelAll(s.pollers), ExclusiveHold);
    }
  }

  /** A change of a poller's request does not concern the lock. */
  lemma IoKeepsLock(s: Sdk, p: nat, io: Io)
    requires LockBalanced(s) && p < |s.pollers|
    ensures LockBalanced(s.(pollers := s.pollers[p := s.pollers[p].(io := io)]))
  {
    var q := s.pollers[p].(io := io);
    SumUpdate(s.pollers, SharedHold, p, q);
    SumUpdate(s.pollers, ExclusiveHold, p, q);
  }

  lemma ReadKeepsLock(s: Sdk)
    requires LockBalanced(s) && ReadEnabled(s)
    ensures LockBalanced(ReadStep(s))
  {
  }

  /** The lock and the positions that it follows from are the same. */
  lemma SameKeepsLock(s: Sdk, s': Sdk)
    requires LockBalanced(s)
    requires s'.lock == s.lock && s'.pollers == s.pollers && s'.reader == s.reader && s'.stopper == s.stopper
    ensures LockBalanced(s')
  {
  }

  lemma StepKeepsLock(s: Sdk, step: Step)
    requires LockBalanced(s) && Enabled(s, step)
    ensures LockBalanced(Apply(s, step))
  {
    match step
    case Poll(p, ok) => PollKeepsLock(s, p, ok);
    case IoEnd(p, result) => IoKeepsLock(s, p, Finished(result));
    case TimeOut(p) => IoKeepsLock(s, p, Cancelling);
    case Read => ReadKeepsLock(s);
    case Stop => StopKeepsLock(s);
    case _ => SameKeepsLock(s, Apply(s, step));
  }

  /** While the lock is held exclusively no poller is between its state check and its request. */
  lemma ExclusiveExcludesIssue(s: Sdk, p: nat)
    requires LockBalanced(s) && s.lock.writer && p < |s.pollers|
    ensures !s.pollers[p].pc.Issue? && !s.pollers[p].pc.Issued?
  {
    SumUpdate(s.pollers, SharedHold, p, s.pollers[p]);
  }

  lemma StopKeepsPollers(s: Sdk)
    requires Inv(s) && StopEnabled(s)
    ensures PollersInv(StopStep(s))
  {
    if s.stopper.SHeld? {
      assert s.lock.writer;
      forall p | 0 <= p < |s.pollers| ensures !s.pollers[p].pc.Issue? {
        ExclusiveExcludesIssue(s, p);
      }
    }
  }

  lemma PollKeepsPollers(s: Sdk, p: nat, ok: bool)
    requires PollersInv(s) && StopInv(s) && PollEnabled(s, p, ok)
    ensures PollersInv(PollStep(s, p, ok))
  {
  }

  lemma StepKeepsPollers(s: Sdk, step: Step)
    requires Inv(s) && Enabled(s, step)
    ensures PollersInv(Apply(s, step))
  {
    match step
    case Poll(p, ok) => PollKeepsPollers(s, p, ok);
    case Stop => StopKeepsPollers(s);
    case _ =>
  }

  lemma PollKeepsStop(s: Sdk, p: nat, ok: bool)
    requires StopInv(s) && PollEnabled(s, p, ok)
    ensures StopInv(PollStep(s, p, ok))
  {
  }

  lemma StopKeepsStop(s: Sdk)
    requires StopInv(s) && StopEnabled(s)
    ensures StopInv(StopStep(s))
  {
  }

  lemma StepKeepsStop(s: Sdk, step: Step)
    requires StopInv(s) && Enabled(s, step)
    ensures StopInv(Apply(s, step))
  {
    match step
    case Poll(p, ok) => PollKeepsStop(s, p, ok);
    case Stop => StopKeepsStop(s);
    case _ =>
  }

  lemma PollKeepsRead(s: Sdk, p: nat, ok: bool)
    requires StopInv(s) && ReadInv(s) && PollEnabled(s, p, ok)
    ensures ReadInv(PollStep(s, p, ok))
  {
  }

  lemma ReadKeepsRead(s: Sdk)
    requires StopInv(s) && ReadInv(s) && ReadEnabled(s)
    ensures ReadInv(ReadStep(s))
  {
  }

  lemma StopKeepsRead(s: Sdk)
    requires StopInv(s) && ReadInv(s) && StopEnabled(s)
    ensures ReadInv(StopStep(s))
  {
  }

  lemma StepKeepsRead(s: Sdk, step: Step)
    requires StopInv(s) && ReadInv(s) && Enabled(s, step)
    ensures ReadInv(Apply(s, step))
  {
    match step
    case Poll(p, ok) => PollKeepsRead(s, p, ok);
    case Read => ReadKeepsRead(s);
    case Stop => StopKeepsRead(s);
    case _ =>
  }

  lemma StepKeepsInv(s: Sdk, step: Step)
    requires Inv(s) && Enabled(s, step)
    ensures Inv(Apply(s, step))
  {
    StepKeepsLock(s, step);
    StepKeepsPollers(s, step);
    StepKeepsStop(s, step);
    StepKeepsRead(s, step);
  }

  lemma NextKeepsInv(s: Sdk, s': Sdk)
    requires Inv(s) && Next(s, s')
    ensures Inv(s')
  {
    var step :| Enabled(s, step) && s' == Apply(s, step);
    StepKeepsInv(s, step);
  }

  lemma RunStep(run: seq<Sdk>, i: nat)
    requires IsRun(run) && i + 1 < |run|
    ensures Next(run[i], run[i + 1])
  {
  }

  lemma {:induction false} RunInv(run: seq<Sdk>, i: nat)
    requires IsRun(run) && i < |run|
    ensures Inv(run[i])
  {
    if i == 0 {
      InitialInv(run[0]);
    } else {
      RunInv(run, i - 1);
      RunStep(run, i - 1);
      NextKeepsInv(run[i - 1], run[i]);
    }
  }

  // ---------------------------------------------------------------- safety of the stop

  lemma CancelledStep(s: Sdk, step: Step)
    requires PollersInv(s) && StopInv(s) && Enabled(s, step) && s.cancelled
    ensures Apply(s, step).cancelled && Apply(s, step).issued == s.issued
  {
    if step.Poll? {
      assert !s.pollers[step.p].pc.Issue?;
    }
  }

  /**
   Once WinUHidStopDevice has set Stopped and cancelled, no GET_NEXT_EVENT request is issued any
   more, and every request issued earlier is finished or being cancelled.
   */
  lemma {:induction false} NothingIssuedAfterStop(run: seq<Sdk>, i: nat, j: nat, p: nat)
    requires IsRun(run) && i <= j < |run| && run[i].cancelled
    ensures run[j].cancelled && run[j].issued == run[i].issued
    ensures p < |run[j].pollers| ==> !run[j].pollers[p].io.Pending?
    decreases j - i
  {
    RunInv(run, i);
    if i == j {
    } else {
      assert Next(run[i], run[i + 1]);
      var step :| Enabled(run[i], step) && run[i + 1] == Apply(run[i], step);
      CancelledStep(run[i], step);
      NothingIssuedAfterStop(run, i + 1, j, p);
    }
  }

  /** A call that is over holds nothing: every path releases the lock as often as it takes it. */
  lemma LockReleased(run: seq<Sdk>, i: nat)
    requires IsRun(run) && i < |run|
    requires forall p | 0 <= p < |run[i].pollers| :: run[i].pollers[p].pc.Exited?
    requires run[i].reader.RExited? && run[i].stopper.SDone?
    ensures run[i].lock == Lock(0, false)
  {
    RunInv(run, i);
    SumZero(run[i].pollers, SharedHold);
    SumZero(run[i].pollers, ExclusiveHold);
  }

  /** When the stop has returned after a cancellation, the threads that it waits for are gone. */
  lemma StopWaitsForThreads(run: seq<Sdk>, i: nat)
    requires IsRun(run) && i < |run| && run[i].cancelled && run[i].stopper.SDone?
    ensures run[i].reader.RExited?
    ensures run[i].hasEventThread ==> |run[i].pollers| > 0 && run[i].pollers[0].pc.Exited?
  {
    RunInv(run, i);
  }

  /** Whoever holds the lock can go on at once: nobody holds it over a wait. */
  lemma HoldersNeverWait(run: seq<Sdk>, i: nat, p: nat)
    requires IsRun(run) && i < |run|
    ensures p < |run[i].pollers| && (SharedHold(run[i].pollers[p]) > 0 || ExclusiveHold(run[i].pollers[p]) > 0) ==>
              PollEnabled(run[i], p, true) && !run[i].pollers[p].pc.Waiting?
    ensures ReaderHold(run[i].reader) > 0 ==> ReadEnabled(run[i]) && !run[i].reader.RBlocked?
    ensures StopperHold(run[i].stopper) > 0 ==> StopEnabled(run[i])
    ensures run[i].lock.readers > 0 || run[i].lock.writer ==>
              (exists q :: 0 <= q < |run[i].pollers| &&
                           (SharedHold(run[i].pollers[q]) > 0 || ExclusiveHold(run[i].pollers[q]) > 0))
              || ReaderHold(run[i].reader) > 0 || StopperHold(run[i].stopper) > 0
  {
    RunInv(run, i);
    SomeHolder(run[i]);
  }

  lemma SomeHolder(s: Sdk)
    requires LockBalanced(s)
    ensures s.lock.readers > 0 || s.lock.writer ==>
              (exists q :: 0 <= q < |s.pollers| && (SharedHold(s.pollers[q]) > 0 || ExclusiveHold(s.pollers[q]) > 0))
              || ReaderHold(s.reader) > 0 || StopperHold(s.stopper) > 0
  {
    if Sum(s.pollers, SharedHold) > 0 {
      var q := SumWitness(s.pollers, SharedHold);
    }
    if Sum(s.pollers, ExclusiveHold) > 0 {
      var q := SumWitness(s.pollers, ExclusiveHold);
    }
  }

  // ---------------------------------------------------------------- while the device is started

  /** The steps that lead through `states`. */
  ghost predicate Leads(states: seq<Sdk>, steps: seq<Step>)
  {
    && |states| == |steps| + 1
    && forall i | 0 <= i < |steps| :: Enabled(states[i], steps[i]) && states[i + 1] == Apply(states[i], steps[i])
  }

  /**
   A polling call ends only if the memory for its buffer runs out, the device is not started, or its
   request failed for another reason than a small buffer.
   */
  lemma PollEnds(s: Sdk, p: nat, ok: bool)
    requires PollEnabled(s, p, ok)
    ensures var q := s.pollers[p];
            PollStep(s, p, ok).pollers[p].pc.Exited? <==>
            || ((q.pc.Alloc? || q.pc.Realloc?) && !ok)
            || (q.pc.Check? && !s.state.Started?)
            || (q.pc.Waiting? && q.io == Finished(Failed))
  {
  }

  /** The event thread has not ended and is not about to. */
  predicate PollsOn(s: Sdk)
  {
    |s.pollers| > 0 && !s.pollers[0].pc.Exited? && s.pollers[0].io != Finished(Failed)
  }

  lemma StepKeepsPolling(s: Sdk, step: Step)
    requires PollsOn(s) && s.state.Started? && Enabled(s, step)
    requires step != Poll(0, false) && step != IoEnd(0, Failed)
    ensures PollsOn(Apply(s, step))
  {
    match step
    case Poll(p, ok) =>
      assert PollStep(s, p, ok).pollers == s.pollers[p := PollStep(s, p, ok).pollers[p]];
      if p == 0 {
        PollEnds(s, 0, ok);
      }
    case Read => assert ReadStep(s).pollers == s.pollers;
    case Stop => StopKeepsPolling(s);
    case _ =>
  }

  lemma StopKeepsPolling(s: Sdk)
    requires PollsOn(s) && StopEnabled(s)
    ensures PollsOn(StopStep(s))
  {
  }

  /** So while the device stays started and nothing fails, the event thread polls on, event after event. */
  lemma {:induction false} EventThreadPollsOn(states: seq<Sdk>, steps: seq<Step>)
    requires Leads(states, steps) && PollsOn(states[0])
    requires forall k | 0 <= k < |steps| :: states[k].state.Started?
    requires forall k | 0 <= k < |steps| :: steps[k] != Poll(0, false) && steps[k] != IoEnd(0, Failed)
    ensures PollsOn(states[|steps|])
  {
    var n := |steps|;
    if n == 0 {
    } else {
      EventThreadPollsOn(states[..n], steps[..n - 1]);
      StepKeepsPolling(states[n - 1], steps[n - 1]);
    }
  }

  /** The event thread goes on to its next request after each event that it has handled. */
  lemma EventThenPoll(s: Sdk, p: nat, ok: bool)
    requires PollEnabled(s, p, ok) && s.pollers[p].pc.Handling?
    ensures PollStep(s, p, ok).pollers[p] == Poller(Enter, s.pollers[p].io)
  {
  }

  /**
   The read thread empties the slot only to make a callback, after which it sets the timer, waits for
   it, and only then takes the lock to look for the next event.
   */
  lemma TakenIsCalled(s: Sdk)
    requires ReadEnabled(s)
    ensures s.slot && !ReadStep(s).slot ==> s.reader.RTake? && ReadStep(s).reader.RCallback?
    ensures s.reader.RTake? && s.state.Started? && s.slot ==> !ReadStep(s).slot
    ensures s.reader.RCallback? ==> ReadStep(s).reader.RArm?
    ensures s.reader.RArm? ==> ReadStep(s).reader.RWaitTimer? && ReadStep(s).armed && !ReadStep(s).fired
    ensures s.reader.RWaitTimer? ==> s.fired && ReadStep(s).reader.RAcquire?
  {
  }

  lemma StepKeepsReader(s: Sdk, step: Step)
    requires !s.reader.RExited? && s.state.Started? && Enabled(s, step)
    ensures !Apply(s, step).reader.RExited?
  {
    match step
    case Poll(p, ok) => assert !PollStep(s, p, ok).reader.RExited?;
    case Read => assert !ReadStep(s).reader.RExited?;
    case Stop => assert !StopStep(s).reader.RExited?;
    case _ =>
  }

  /** And the read thread goes on. */
  lemma {:induction false} ReadThreadGoesOn(states: seq<Sdk>, steps: seq<Step>)
    requires Leads(states, steps) && !states[0].reader.RExited?
    requires forall k | 0 <= k < |steps| :: states[k].state.Started?
    ensures !states[|steps|].reader.RExited?
  {
    var n := |steps|;
    if n == 0 {
    } else {
      ReadThreadGoesOn(states[..n], steps[..n - 1]);
      StepKeepsReader(states[n - 1], steps[n - 1]);
    }
  }

  // ---------------------------------------------------------------- the threads exit

  function PollRank(p: Poller): nat
  {
    var base := match p.pc
      case Exited => 0
      case Check => 1
      case Alloc => 2
      case WantRetry => 2
      case Enter => 3
      case Realloc => 3
      case GrowHeld => 4
      case WantGrow => 5
      case Handling => 7 // may set the signal
      case Waiting => 8
      case Issued => 9
      case Issue => 11;
    base + if p.io.Pending? || p.io.Cancelling? then 1 else 0
  }

  function ReadRank(pc: ReadPc): nat
  {
    match pc
    case RExited => 0
    case RLoop => 1
    case RTake => 1
    case RAcquire => 2
    case RAcquireAgain => 2
    case RWaitEvent => 4
    case RBlocked => 3
    case RWaitTimer => 3
    case RArm => 5
    case RCallback => 6
  }

  function StopRank(pc: StopPc): nat
  {
    match pc
    case SDone => 0
    case SHeld3 => 1
    case SAcquire3 => 2
    case SWaitReader => 3
    case SSetTimer => 5
    case SSetEvent => 9
    case SHeld2 => 10
    case SAcquire2 => 11
    case SWaitPoller => 12
    case SAfterCancel => 13
    case SCancel => 14
    case SHeld => 15
    case SAcquire => 16
    case SIdle => 17
  }

  function Rank(s: Sdk): nat
  {
    Sum(s.pollers, PollRank) + ReadRank(s.reader) + StopRank(s.stopper) +
    (if s.signal then 3 else 0) + 2 * s.submits + if s.armed then 1 else 0
  }

  lemma PollDecreases(s: Sdk, p: nat, ok: bool)
    requires Inv(s) && PollEnabled(s, p, ok) && s.cancelled
    ensures Rank(PollStep(s, p, ok)) < Rank(s)
  {
    var q := PollStep(s, p, ok).pollers[p];
    assert PollStep(s, p, ok).pollers == s.pollers[p := q];
    SumUpdate(s.pollers, PollRank, p, q);
  }

  lemma IoEndDecreases(s: Sdk, step: Step)
    requires step.IoEnd? && Enabled(s, step)
    ensures Rank(Apply(s, step)) < Rank(s)
  {
    SumUpdate(s.pollers, PollRank, step.p, Apply(s, step).pollers[step.p]);
  }

  lemma ReadDecreases(s: Sdk)
    requires Inv(s) && ReadEnabled(s) && s.cancelled
    ensures Rank(ReadStep(s)) < Rank(s)
  {
  }

  lemma StopDecreases(s: Sdk)
    requires Inv(s) && StopEnabled(s) && s.cancelled
    ensures Rank(StopStep(s)) < Rank(s)
  {
  }

  /** After the cancellation every step of every thread brings the end nearer. */
  lemma StepDecreases(s: Sdk, step: Step)
    requires Inv(s) && Enabled(s, step) && s.cancelled
    ensures Rank(Apply(s, step)) < Rank(s)
  {
    match step
    case Poll(p, ok) => PollDecreases(s, p, ok);
    case IoEnd(_, _) => IoEndDecreases(s, step);
    case Read => ReadDecreases(s);
    case Stop => StopDecreases(s);
    case _ =>
  }

  /** Every thread that the stop waits for is gone and the stop itself has returned. */
  ghost predicate AllExited(s: Sdk)
  {
    && (forall p | 0 <= p < |s.pollers| :: s.pollers[p].pc.Exited?)
    && s.reader.RExited? && s.stopper.SDone?
  }

  /** No thread can move. */
  ghost predicate Stuck(s: Sdk)
  {
    forall step :: !Enabled(s, step)
  }

  /** Someone holds the lock: that thread can move. */
  lemma HolderMoves(s: Sdk) returns (step: Step)
    requires Inv(s) && s.cancelled && (s.lock.writer || s.lock.readers > 0)
    ensures Enabled(s, step)
  {
    if s.lock.writer {
      if StopperHold(s.stopper) > 0 {
        step := Stop;
      } else {
        var p := SumWitness(s.pollers, ExclusiveHold);
        step := Poll(p, true);
      }
    } else if ReaderHold(s.reader) > 0 {
      step := Read;
    } else {
      var p := SumWitness(s.pollers, SharedHold);
      step := Poll(p, true);
    }
  }

  lemma PollerMoves(s: Sdk, p: nat) returns (step: Step)
    requires Inv(s) && s.cancelled && p < |s.pollers| && !s.pollers[p].pc.Exited?
    ensures Enabled(s, step)
  {
    if s.lock.writer || s.lock.readers > 0 {
      step := HolderMoves(s);
    } else if s.pollers[p].io.Cancelling? {
      step := IoEnd(p, Failed);
    } else {
      step := Poll(p, true);
    }
  }

  /** There is no deadlock on the way: until all have exited, some thread can move. */
  lemma SomeoneMoves(s: Sdk) returns (step: Step)
    requires Inv(s) && s.cancelled && !AllExited(s) && !s.stolen
    ensures Enabled(s, step)
  {
    if s.lock.writer || s.lock.readers > 0 {
      step := HolderMoves(s);
    } else if p: nat :| p < |s.pollers| && !s.pollers[p].pc.Exited? {
      step := PollerMoves(s, p);
    } else if s.armed {
      step := TimerFires;
    } else if ReadEnabled(s) {
      step := Read;
    } else {
      step := Stop;
    }
  }

  lemma Final(s: Sdk)
    requires Inv(s) && s.cancelled && Stuck(s)
    ensures AllExited(s) <==> !s.stolen
  {
    if !AllExited(s) && !s.stolen {
      var step := SomeoneMoves(s);
    }
  }

  lemma StepsInv(states: seq<Sdk>, steps: seq<Step>)
    requires Leads(states, steps) && Initial(states[0])
    ensures Inv(states[|steps|])
  {
    forall i | 0 <= i < |states| - 1 ensures Next(states[i], states[i + 1]) {
      assert Enabled(states[i], steps[i]) && states[i + 1] == Apply(states[i], steps[i]);
    }
    RunInv(states, |steps|);
  }

  lemma StolenStep(s: Sdk, step: Step)
    requires Enabled(s, step)
    ensures Apply(s, step).stolen <==> s.stolen || Steals(s, step)
  {
    match step
    case Poll(p, ok) => assert PollStep(s, p, ok).stolen == s.stolen;
    case Read => assert ReadStep(s).stolen == s.stolen;
    case Stop => assert StopStep(s).stolen == s.stolen;
    case _ =>
  }

  /** Some step of the run takes the signal. */
  ghost predicate SomeSteals(states: seq<Sdk>, steps: seq<Step>)
    requires |states| >= |steps|
  {
    exists k :: 0 <= k < |steps| && Steals(states[k], steps[k])
  }

  lemma SomeStealsStep(states: seq<Sdk>, steps: seq<Step>)
    requires steps != [] && |states| == |steps| + 1
    ensures var n := |steps|;
            SomeSteals(states, steps) <==>
            SomeSteals(states[..n], steps[..n - 1]) || Steals(states[n - 1], steps[n - 1])
  {
    var n := |steps|;
    if SomeSteals(states[..n], steps[..n - 1]) {
      var k :| 0 <= k < n - 1 && Steals(states[..n][k], steps[..n - 1][k]);
      assert Steals(states[k], steps[k]);
    }
    if SomeSteals(states, steps) && !Steals(states[n - 1], steps[n - 1]) {
      var k :| 0 <= k < n && Steals(states[k], steps[k]);
      assert Steals(states[..n][k], steps[..n - 1][k]);
    }
  }

  /** The signal is gone exactly when some step of the run took it. */
  lemma {:induction false} StolenIff(states: seq<Sdk>, steps: seq<Step>)
    requires Leads(states, steps) && !states[0].stolen
    ensures states[|steps|].stolen <==> SomeSteals(states, steps)
  {
    var n := |steps|;
    if n == 0 {
    } else {
      StolenIff(states[..n], steps[..n - 1]);
      SomeStealsStep(states, steps);
      StolenStep(states[n - 1], steps[n - 1]);
    }
  }

  /**
   After the cancellation a run can only go on for a bounded number of steps, whatever the
   threads do; where it cannot go on, all have finished unless the signal was stolen.
   */
  lemma {:induction false} StopTerminates(run: seq<Sdk>, i: nat)
    requires IsRun(run) && i < |run| && run[i].cancelled
    ensures |run| - 1 - i <= Rank(run[i])
    ensures Stuck(run[|run| - 1]) ==> (AllExited(run[|run| - 1]) <==> !run[|run| - 1].stolen)
    decreases |run| - i
  {
    RunInv(run, i);
    if i == |run| - 1 {
      if Stuck(run[i]) {
        Final(run[i]);
      }
    } else {
      RunStep(run, i);
      var step :| Enabled(run[i], step) && run[i + 1] == Apply(run[i], step);
      CancelledStep(run[i], step);
      StepDecreases(run[i], step);
      StopTerminates(run, i + 1);
    }
  }

  /**
   Where it cannot go on, all polling calls, the event thread, the read thread and the stop have
   finished if and only if no WinUHidSubmitInputReport took the signal that the stop had set for
   a read thread about to wait for it.
   */
  lemma StopReturnsIff(states: seq<Sdk>, steps: seq<Step>)
    requires Leads(states, steps) && Initial(states[0])
    requires states[|steps|].cancelled && Stuck(states[|steps|])
    ensures AllExited(states[|steps|]) <==> !SomeSteals(states, steps)
  {
    StepsInv(states, steps);
    Final(states[|steps|]);
    StolenIff(states, steps);
  }

  /** No WinUHidSubmitInputReport tests the event between the entry of the stop and its return. */
  ghost predicate NoOverlap(states: seq<Sdk>, steps: seq<Step>)
    requires |states| == |steps| + 1
  {
    forall k | 0 <= k < |steps| && steps[k].Submit? :: states[k].stopper.SIdle? || states[k].stopper.SDone?
  }

  /** So a caller who does not let such calls overlap the stop always gets it to return. */
  lemma NoOverlapReturns(states: seq<Sdk>, steps: seq<Step>)
    requires Leads(states, steps) && Initial(states[0]) && NoOverlap(states, steps)
    requires states[|steps|].cancelled && Stuck(states[|steps|])
    ensures AllExited(states[|steps|])
  {
    StopReturnsIff(states, steps);
  }

  // ---------------------------------------------------------------- the stolen signal

  lemma NextKeepsStolen(s: Sdk, s': Sdk)
    requires s.stolen && Next(s, s')
    ensures s'.stolen
  {
    var step :| Enabled(s, step) && s' == Apply(s, step);
    StolenStep(s, step);
  }

  lemma {:induction false} StolenForGood(run: seq<Sdk>, i: nat, j: nat)
    requires IsRun(run) && i <= j < |run| && run[i].stolen
    ensures run[j].stolen
    decreases j - i
  {
    if i == j {
    } else {
      RunStep(run, i);
      NextKeepsStolen(run[i], run[i + 1]);
      StolenForGood(run, i + 1, j);
    }
  }

  /** Once the signal is stolen neither the read thread nor WinUHidStopDevice ever returns. */
  lemma StolenSignalHangs(run: seq<Sdk>, i: nat, j: nat)
    requires IsRun(run) && i <= j < |run| && run[i].stolen
    ensures run[j].stolen && !run[j].reader.RExited? && !run[j].stopper.SDone?
  {
    StolenForGood(run, i, j);
    RunInv(run, j);
  }

  lemma OneMoreStep(run: seq<Sdk>, step: Step) returns (longer: seq<Sdk>)
    requires IsRun(run) && Enabled(run[|run| - 1], step)
    ensures IsRun(longer) && |longer| > 0 && longer[|longer| - 1] == Apply(run[|run| - 1], step)
  {
    longer := run + [Apply(run[|run| - 1], step)];
    forall i | 0 <= i < |longer| - 1 ensures Next(longer[i], longer[i + 1]) {
      if i < |run| - 1 {
        RunStep(run, i);
      } else {
        assert Enabled(longer[i], step) && longer[i + 1] == Apply(longer[i], step);
      }
    }
  }

  /** A device with a read thread, without an event thread and with no polling call. */
  function Bare(state: DeviceState, writer: bool, readers: nat, reader: ReadPc, stopper: StopPc, signal: bool): Sdk
  {
    Sdk(state, Lock(readers, writer), [], false, reader, true, stopper, PastCancel(stopper), 0,
        signal, false, false, false, 0, false)
  }

  lemma ReaderWaits() returns (run: seq<Sdk>)
    ensures IsRun(run) && run[|run| - 1] == Bare(Started, false, 0, RWaitEvent, SIdle, false)
  {
    run := [Bare(Started, false, 0, RAcquire, SIdle, false)];
    run := OneMoreStep(run, Read);
    assert run[|run| - 1] == Bare(Started, false, 1, RLoop, SIdle, false);
    run := OneMoreStep(run, Read);
  }

  lemma StopBegins() returns (run: seq<Sdk>)
    ensures IsRun(run) && run[|run| - 1] == Bare(Stopped, true, 0, RWaitEvent, SCancel, false)
  {
    run := ReaderWaits();
    run := OneMoreStep(run, Stop);
    run := OneMoreStep(run, Stop);
    assert run[|run| - 1] == Bare(Started, true, 0, RWaitEvent, SHeld, false);
    run := OneMoreStep(run, Stop);
  }

  /** The read thread is about to wait, and the stop sets the signal for it, which is there to be taken. */
  lemma SignalOffered() returns (run: seq<Sdk>)
    ensures IsRun(run) && run[|run| - 1] == Bare(Stopped, false, 0, RWaitEvent, SSetTimer, true)
  {
    run := CancellationMade();
    run := OneMoreStep(run, Stop);
    assert run[|run| - 1] == Bare(Stopped, true, 0, RWaitEvent, SHeld2, false);
    run := OneMoreStep(run, Stop);
    run := OneMoreStep(run, Stop);
  }

  lemma CancellationMade() returns (run: seq<Sdk>)
    ensures IsRun(run) && run[|run| - 1] == Bare(Stopped, true, 0, RWaitEvent, SAfterCancel, false)
  {
    run := StopBegins();
    run := OneMoreStep(run, Stop);
    assert CancelAll([]) == [];
  }

  /** It does happen: a submit between two steps of the stop, on a device without an event thread. */
  lemma SignalCanBeStolen() returns (run: seq<Sdk>)
    ensures IsRun(run) && run[|run| - 1].stolen
  {
    run := SignalOffered();
    run := OneMoreStep(run, Submit);
  }
}
