/**
 Ready-for-read events between the driver and the threads of WinUHid.dll on a throttled device.

 The event thread puts such an event into a one-place slot and sets an auto-reset event.  The
 read thread and any number of WinUHidSubmitInputReport calls compete for it, WinUHidStopDevice
 sets the same event once more, WinUHidDestroyDevice empties the slot.  The state contains the
 driver of DriverProtocol, because that is where the guarantee comes from that the slot is free.
 */
module ReadHandoff {
  import opened Win32
  import opened HidItems
  import opened DriverProtocol
  import opened ReadReply

  datatype Owner = ReadThread | SubmitInputReport | DestroyDevice

  datatype Sdk = Sdk(
    driver: Driver,
    received: Option<nat>,   // the event thread has it, before the exchange
    slot: Option<nat>,       // PendingReadReportEvent
    raising: bool,           // the event thread is between the exchange and SetEvent
    signalled: bool,         // ReadReportReadyEvent
    readerClaim: bool,       // the read thread has consumed the signal, not yet the slot
    submitClaims: nat,       // so many SubmitInputReport calls have
    owners: map<nat, Owner>, // events taken from the slot and not yet completed
    unanswered: set<nat>,    // completed with a message that the driver refused, too short for its check
    stopped: bool,
    stopSignal: bool,        // the stop has set the event
    overwritten: nat,        // events lost because the slot was not empty
    emptyTakes: nat)         // times the "should be impossible" branch was taken

  datatype Move =
    | DriverMoves(step: Step)
    | Receive(capacity: nat)
    | Store
    | Raise
    | ReaderWakes
    | ReaderTakes
    | SubmitWakes
    | SubmitTakes
    | StopSet
    | StopSignals
    | DestroyTakes
    | Complete(op: nat, data: Option<Bytes>, memoryOk: bool)

  predicate PseudoHead(d: Driver)
  {
    d.waiting != [] && d.waiting[0] < |d.ops| && d.ops[d.waiting[0]].pseudo
  }

  predicate Idle(s: Sdk)
  {
    s.received.None? && s.slot.None? && s.owners == map[]
  }

  predicate Can(s: Sdk, m: Move)
  {
    match m
    // The SDK alone delivers ready-for-read events to itself and completes ID 0; it closes the
    // file when it holds no event any more.
    case DriverMoves(step) =>
      && Enabled(s.driver, step)
      && !(step.Deliver? && PseudoHead(s.driver))
      && step != Take(0)
      && (step.Close? ==> Idle(s))
    case Receive(capacity) =>
      && Enabled(s.driver, Deliver(capacity, true)) && PseudoHead(s.driver)
      && capacity >= EVENT_HEADER
      && s.received.None? && !s.raising && !s.stopSignal
    case Store => s.received.Some?
    case Raise => s.raising
    case ReaderWakes => s.signalled && !s.readerClaim
    case ReaderTakes => s.readerClaim
    case SubmitWakes => s.signalled
    case SubmitTakes => s.submitClaims > 0
    case StopSet => !s.stopped
    // Only after the event thread has exited.
    case StopSignals => s.stopped && s.received.None? && !s.raising
    // The device was stopped before, and the caller guarantees that no other thread uses it.
    case DestroyTakes =>
      s.stopSignal && s.slot.Some? && s.received.None? && !s.raising && !s.readerClaim && s.submitClaims == 0
    // WinUHidCompleteReadEvent; WinUHidSubmitInputReport has data, WinUHidDestroyDevice has none.
    case Complete(u, data, _) =>
      && u in s.owners && Enabled(s.driver, Take(0))
      && (s.owners[u].SubmitInputReport? ==> data.Some? && data.value != [])
      && (s.owners[u].DestroyDevice? ==> data.None?)
  }

  /** InterlockedExchangePointer with NULL by `owner`. */
  function TakeSlot(s: Sdk, owner: Owner): Sdk
  {
    if s.slot.None? then s.(emptyTakes := s.emptyTakes + 1)
    else s.(slot := None, owners := s.owners[s.slot.value := owner])
  }

  function Do(s: Sdk, m: Move): Sdk
    requires Can(s, m)
  {
    match m
    case DriverMoves(step) => s.(driver := Apply(s.driver, step))
    case Receive(capacity) =>
      s.(driver := Apply(s.driver, Deliver(capacity, true)), received := Some(s.driver.waiting[0]))
    case Store =>
      s.(slot := s.received, received := None, raising := true,
         overwritten := s.overwritten + if s.slot.Some? then 1 else 0)
    case Raise => s.(raising := false, signalled := true)
    case ReaderWakes => s.(signalled := false, readerClaim := true)
    case ReaderTakes =>
      // A stopped device makes the thread leave; the slot stays as it is.
      if s.stopped then s.(readerClaim := false) else TakeSlot(s.(readerClaim := false), ReadThread)
    case SubmitWakes => s.(signalled := false, submitClaims := s.submitClaims + 1)
    case SubmitTakes => TakeSlot(s.(submitClaims := s.submitClaims - 1), SubmitInputReport)
    case StopSet => s.(stopped := true)
    case StopSignals => s.(signalled := true, stopSignal := true)
    case DestroyTakes => TakeSlot(s, DestroyDevice)
    case Complete(u, data, memoryOk) =>
      if ReachesDriver(data, memoryOk) then s.(owners := s.owners - {u}, driver := Apply(s.driver, Take(0)))
      else s.(owners := s.owners - {u}, unanswered := s.unanswered + {u})
  }

  predicate Start(s: Sdk)
  {
    && Initial(s.driver) && Idle(s) && s.unanswered == {}
    && !s.raising && !s.signalled && !s.readerClaim && s.submitClaims == 0
    && !s.stopped && !s.stopSignal && s.overwritten == 0 && s.emptyTakes == 0
  }

  ghost predicate IsSdkRun(run: seq<Sdk>)
  {
    && |run| > 0 && Start(run[0])
    && forall i | 0 <= i < |run| - 1 :: SdkNext(run[i], run[i + 1])
  }

  ghost predicate SdkNext(s: Sdk, s': Sdk)
  {
    exists m :: Can(s, m) && s' == Do(s, m)
  }

  // ---------------------------------------------------------------- the invariant

  predicate Held(s: Sdk, u: nat)
  {
    s.received == Some(u) || s.slot == Some(u) || u in s.owners
  }

  predicate OutstandingReady(d: Driver, u: nat)
  {
    u in d.outstanding && u < |d.ops| && d.ops[u].pseudo
  }

  /** An event is with the SDK or unanswered exactly while its operation is outstanding. */
  ghost predicate HeldIsOutstanding(s: Sdk)
  {
    && (forall u: nat | Held(s, u) :: OutstandingReady(s.driver, u))
    && (forall u: nat | OutstandingReady(s.driver, u) :: Held(s, u) || u in s.unanswered)
  }

  /** At most one of the places for an event is taken. */
  ghost predicate OneHolder(s: Sdk)
  {
    && (s.received.Some? ==> s.slot.None? && s.owners == map[])
    && (s.slot.Some? ==> s.owners == map[])
    && (forall u, v | u in s.owners && v in s.owners :: u == v)
  }

  function Tokens(s: Sdk): nat
  {
    (if s.raising then 1 else 0) + (if s.signalled then 1 else 0) + (if s.readerClaim then 1 else 0) + s.submitClaims
  }

  /** The signal and the claims on the slot count the event in the slot. */
  ghost predicate TokensMatch(s: Sdk)
  {
    && (!s.stopped ==> Tokens(s) == if s.slot.Some? then 1 else 0)
    && (!s.stopSignal ==> Tokens(s) <= if s.slot.Some? then 1 else 0)
    && (s.stopSignal ==> s.stopped && s.received.None? && !s.raising)
    && s.overwritten == 0
    && (s.emptyTakes > 0 ==> s.stopSignal)
  }

  ghost predicate HandoffInv(s: Sdk)
  {
    Inv(s.driver) && HeldIsOutstanding(s) && OneHolder(s) && TokensMatch(s)
  }

  /** An outstanding ready-for-read operation is the only live one and does not wait. */
  lemma OutstandingIsOnly(d: Driver, u: nat, v: nat)
    requires Inv(d) && OutstandingReady(d, u) && Live(d, v) && d.ops[v].pseudo
    ensures u == v && v !in d.waiting
  {
    OneOperation(d, u);
  }

  /** Taking another ID leaves the outstanding ready-for-read operation where it is. */
  lemma TakeKeepsReady(d: Driver, requestId: ULong, u: nat)
    requires Inv(d) && requestId != 0
    ensures Known(d) && (OutstandingReady(Apply(d, Take(requestId)), u) <==> OutstandingReady(d, u))
  {
    OneOperation(d, u);
    var i := IndexById(d, requestId, 0);
    if i < |d.outstanding| {
      CountWithout(d.outstanding, i, u);
      CountIn(Without(d.outstanding, i), u);
      OutstandingLive(d, i);
    }
  }

  /** So do all driver steps other than the SDK's own. */
  lemma DriverKeepsReady(d: Driver, step: Step, u: nat)
    requires Inv(d) && Enabled(d, step)
    requires !(step.Deliver? && PseudoHead(d)) && step != Take(0) && !step.Close?
    ensures OutstandingReady(Apply(d, step), u) <==> OutstandingReady(d, u)
  {
    if step.Take? {
      TakeKeepsReady(d, step.requestId, u);
    }
  }

  lemma DriverMoveKeepsHeld(s: Sdk, m: Move)
    requires HandoffInv(s) && m.DriverMoves? && Can(s, m)
    ensures HeldIsOutstanding(Do(s, m))
  {
    if !m.step.Close? {
      forall u: nat ensures OutstandingReady(Apply(s.driver, m.step), u) <==> OutstandingReady(s.driver, u) {
        DriverKeepsReady(s.driver, m.step, u);
      }
    }
  }

  /** A ready-for-read event can only arrive while the SDK holds none. */
  lemma ReceiveFindsIdle(s: Sdk, m: Move)
    requires HandoffInv(s) && m.Receive? && Can(s, m)
    ensures Idle(s)
    ensures forall u: nat :: !OutstandingReady(s.driver, u)
  {
    var w := s.driver.waiting[0];
    OneOperation(s.driver, w);
    assert w in s.driver.waiting;
    forall u: nat ensures !OutstandingReady(s.driver, u) {
      if OutstandingReady(s.driver, u) {
        OutstandingIsOnly(s.driver, u, w);
      }
    }
    forall u: nat ensures !Held(s, u) {
    }
    if s.slot.Some? {
      assert Held(s, s.slot.value);
    }
    assert forall u | u in s.owners :: Held(s, u);
  }

  lemma ReceiveKeepsHeld(s: Sdk, m: Move)
    requires HandoffInv(s) && m.Receive? && Can(s, m)
    ensures HeldIsOutstanding(Do(s, m))
  {
    ReceiveFindsIdle(s, m);
    var w := s.driver.waiting[0];
    assert EventNeeds(s.driver.ops[w]) == EVENT_HEADER;
    assert Apply(s.driver, Deliver(m.capacity, true)).outstanding == s.driver.outstanding + [w];
  }

  /** Completing ID 0 takes the one ready-for-read operation: the first match is it. */
  lemma FirstWithIdZero(d: Driver, u: nat)
    requires Inv(d) && OutstandingReady(d, u)
    ensures Known(d)
    ensures var i := IndexById(d, 0, 0);
            i < |d.outstanding| && d.outstanding[i] == u
  {
    PlacesKnown(d);
    var i := IndexById(d, 0, 0);
    var j :| 0 <= j < |d.outstanding| && d.outstanding[j] == u;
    assert i <= j;
    OutstandingLive(d, i);
    RequestIds(d.ops[d.outstanding[i]].serial, 0);
    OutstandingIsOnly(d, u, d.outstanding[i]);
  }

  lemma NotOutstandingAfterTake(d: Driver, i: nat, w: nat)
    requires Inv(d) && i < |d.outstanding|
    ensures w in Without(d.outstanding, i) <==> w in d.outstanding && w != d.outstanding[i]
  {
    OneOperation(d, w);
    CountWithout(d.outstanding, i, w);
    CountIn(d.outstanding, w);
    CountIn(Without(d.outstanding, i), w);
  }

  lemma NoneReadyAfterTake(d: Driver, u: nat, w: nat)
    requires Inv(d) && OutstandingReady(d, u)
    ensures Known(d) && !OutstandingReady(Apply(d, Take(0)), w)
  {
    FirstWithIdZero(d, u);
    NotOutstandingAfterTake(d, IndexById(d, 0, 0), w);
    if OutstandingReady(d, w) {
      OneOperation(d, w);
      OutstandingIsOnly(d, u, w);
    }
  }

  lemma CompleteKeepsHeld(s: Sdk, m: Move)
    requires HandoffInv(s) && m.Complete? && Can(s, m)
    ensures HeldIsOutstanding(Do(s, m))
  {
    var d, u := s.driver, m.op;
    assert Held(s, u);
    if ReachesDriver(m.data, m.memoryOk) {
      forall w: nat ensures !OutstandingReady(Apply(d, Take(0)), w) {
        NoneReadyAfterTake(d, u, w);
      }
    }
  }

  lemma MoveKeepsHeld(s: Sdk, m: Move)
    requires HandoffInv(s) && Can(s, m)
    ensures HeldIsOutstanding(Do(s, m))
  {
    match m
    case DriverMoves(_) => DriverMoveKeepsHeld(s, m);
    case Receive(_) => ReceiveKeepsHeld(s, m);
    case Complete(_, _, _) => CompleteKeepsHeld(s, m);
    case _ =>
      forall u: nat ensures Held(Do(s, m), u) <==> Held(s, u) {
      }
  }

  lemma MoveKeepsHolder(s: Sdk, m: Move)
    requires OneHolder(s) && TokensMatch(s) && Can(s, m)
    requires m.Receive? ==> Idle(s)
    ensures OneHolder(Do(s, m)) && TokensMatch(Do(s, m))
  {
  }

  lemma CompleteKeepsDriver(s: Sdk, m: Move)
    requires m.Complete? && Inv(s.driver) && Can(s, m)
    ensures Inv(Do(s, m).driver)
  {
    StepKeepsInv(s.driver, Take(0));
  }

  lemma MoveKeepsDriver(s: Sdk, m: Move)
    requires Inv(s.driver) && Can(s, m)
    ensures Inv(Do(s, m).driver)
  {
    match m
    case DriverMoves(step) => StepKeepsInv(s.driver, step);
    case Receive(capacity) => StepKeepsInv(s.driver, Deliver(capacity, true));
    case Complete(_, _, _) => CompleteKeepsDriver(s, m);
    case _ =>
  }

  lemma MoveKeepsInv(s: Sdk, m: Move)
    requires HandoffInv(s) && Can(s, m)
    ensures HandoffInv(Do(s, m))
  {
    MoveKeepsDriver(s, m);
    MoveKeepsHeld(s, m);
    if m.Receive? {
      ReceiveFindsIdle(s, m);
    }
    MoveKeepsHolder(s, m);
  }

  lemma SdkRunStep(run: seq<Sdk>, i: nat)
    requires IsSdkRun(run) && i + 1 < |run|
    ensures SdkNext(run[i], run[i + 1])
  {
  }

  lemma NextKeepsInv(s: Sdk, s': Sdk)
    requires HandoffInv(s) && SdkNext(s, s')
    ensures HandoffInv(s')
  {
    var m :| Can(s, m) && s' == Do(s, m);
    MoveKeepsInv(s, m);
  }

  lemma {:induction false} HandoffRun(run: seq<Sdk>, i: nat)
    requires IsSdkRun(run) && i < |run|
    ensures HandoffInv(run[i])
  {
    if i == 0 {
      InitialInv(run[0].driver);
    } else {
      HandoffRun(run, i - 1);
      SdkRunStep(run, i - 1);
      NextKeepsInv(run[i - 1], run[i]);
    }
  }

  /**
   In every run: an event that the event thread is about to store finds the slot empty, none is
   ever overwritten, and each ready-for-read event has exactly one holder.
   */
  lemma SlotAlwaysFree(run: seq<Sdk>, i: nat)
    requires IsSdkRun(run) && i < |run|
    ensures run[i].overwritten == 0
    ensures run[i].received.Some? ==> run[i].slot.None? && run[i].owners == map[]
    ensures run[i].slot.Some? ==> run[i].owners == map[]
    ensures |run[i].owners| <= 1
  {
    HandoffRun(run, i);
    var owners := run[i].owners;
    if owners != map[] {
      var u :| u in owners;
      assert owners.Keys == {u};
    }
  }

  /** No event is forgotten: one that the driver waits for is with exactly the holder shown. */
  lemma NoEventForgotten(run: seq<Sdk>, i: nat, u: nat)
    requires IsSdkRun(run) && i < |run|
    requires OutstandingReady(run[i].driver, u) && u !in run[i].unanswered
    ensures Held(run[i], u)
    ensures forall v: nat | Held(run[i], v) :: v == u
  {
    HandoffRun(run, i);
    forall v: nat | Held(run[i], v) ensures v == u {
      OneOperation(run[i].driver, v);
      OutstandingIsOnly(run[i].driver, u, v);
    }
  }

  /** Until the stop has set the event, whoever consumed the signal finds the event. */
  lemma ClaimFindsEvent(run: seq<Sdk>, i: nat)
    requires IsSdkRun(run) && i < |run|
    ensures run[i].emptyTakes > 0 ==> run[i].stopSignal
    ensures !run[i].stopSignal && (run[i].readerClaim || run[i].submitClaims > 0) ==> run[i].slot.Some?
    ensures !run[i].stopped && run[i].slot.Some? ==> Tokens(run[i]) == 1
  {
    HandoffRun(run, i);
  }

  /** After it, a WinUHidSubmitInputReport call can come away empty. */
  lemma SubmitAfterStopFindsNothing(s: Sdk)
    requires HandoffInv(s) && s.stopSignal && s.signalled && s.slot.None?
    ensures Can(s, SubmitWakes) && Can(Do(s, SubmitWakes), SubmitTakes)
    ensures Do(Do(s, SubmitWakes), SubmitTakes).emptyTakes == s.emptyTakes + 1
  {
  }

  lemma OneMoreMove(run: seq<Sdk>, m: Move) returns (longer: seq<Sdk>)
    requires IsSdkRun(run) && Can(run[|run| - 1], m)
    ensures IsSdkRun(longer) && longer[|longer| - 1] == Do(run[|run| - 1], m)
  {
    longer := run + [Do(run[|run| - 1], m)];
    forall i | 0 <= i < |longer| - 1 ensures SdkNext(longer[i], longer[i + 1]) {
      if i < |run| - 1 {
        assert SdkNext(run[i], run[i + 1]);
      } else {
        assert Can(longer[i], m) && longer[i + 1] == Do(longer[i], m);
      }
    }
  }

  /** It does happen: the device is stopped while it has no event, and a submit follows. */
  lemma EmptyTakeHappens(sizes: seq<HidReportSize>) returns (run: seq<Sdk>)
    requires |sizes| == 256
    ensures IsSdkRun(run) && run[|run| - 1].emptyTakes == 1
  {
    var driver := Driver(true, 0, sizes, [], {}, [], [], {}, {}, [], [], []);
    run := [Sdk(driver, None, None, false, false, false, 0, map[], {}, false, false, 0, 0)];
    run := OneMoreMove(run, StopSet);
    run := OneMoreMove(run, StopSignals);
    run := OneMoreMove(run, SubmitWakes);
    run := OneMoreMove(run, SubmitTakes);
  }

  // ---------------------------------------------------------------- refused completions

  /** A refused event stays outstanding, in nobody's hands, for as long as the file is open. */
  ghost predicate RefusedStay(s: Sdk)
  {
    s.driver.vhfHandle ==> forall u | u in s.unanswered :: OutstandingReady(s.driver, u) && !Held(s, u)
  }

  lemma HeldIsOnly(s: Sdk, u: nat, v: nat)
    requires HandoffInv(s) && OutstandingReady(s.driver, u) && Held(s, v)
    ensures u == v
  {
    OneOperation(s.driver, v);
    OutstandingIsOnly(s.driver, u, v);
  }

  lemma DriverMoveKeepsRefused(s: Sdk, m: Move)
    requires HandoffInv(s) && RefusedStay(s) && m.DriverMoves? && Can(s, m)
    ensures RefusedStay(Do(s, m))
  {
    if Do(s, m).driver.vhfHandle {
      forall u | u in s.unanswered ensures OutstandingReady(Do(s, m).driver, u) && !Held(Do(s, m), u) {
        DriverKeepsReady(s.driver, m.step, u);
      }
    }
  }

  lemma CompleteKeepsRefused(s: Sdk, m: Move)
    requires HandoffInv(s) && RefusedStay(s) && m.Complete? && Can(s, m)
    ensures RefusedStay(Do(s, m))
  {
    assert Held(s, m.op);
    if s.driver.vhfHandle {
      forall u | u in s.unanswered ensures false {
        HeldIsOnly(s, u, m.op);
      }
      forall v | v in s.owners ensures v == m.op {
      }
    }
  }

  lemma MoveKeepsRefused(s: Sdk, m: Move)
    requires HandoffInv(s) && RefusedStay(s) && Can(s, m)
    ensures RefusedStay(Do(s, m)) && s.unanswered <= Do(s, m).unanswered
  {
    match m
    case DriverMoves(_) => DriverMoveKeepsRefused(s, m);
    case Receive(_) => ReceiveFindsIdle(s, m);
    case Complete(_, _, _) => CompleteKeepsRefused(s, m);
    case _ =>
      forall u: nat ensures Held(Do(s, m), u) <==> Held(s, u) {
      }
  }

  lemma NextKeepsRefused(s: Sdk, s': Sdk)
    requires HandoffInv(s) && RefusedStay(s) && SdkNext(s, s')
    ensures RefusedStay(s') && s.unanswered <= s'.unanswered
  {
    var m :| Can(s, m) && s' == Do(s, m);
    MoveKeepsRefused(s, m);
  }

  lemma {:induction false} RefusedRun(run: seq<Sdk>, i: nat)
    requires IsSdkRun(run) && i < |run|
    ensures RefusedStay(run[i])
  {
    if i == 0 {
    } else {
      RefusedRun(run, i - 1);
      HandoffRun(run, i - 1);
      SdkRunStep(run, i - 1);
      NextKeepsRefused(run[i - 1], run[i]);
    }
  }

  lemma {:induction false} RefusedOnlyGrows(run: seq<Sdk>, i: nat, j: nat)
    requires IsSdkRun(run) && i <= j < |run|
    ensures run[i].unanswered <= run[j].unanswered
    decreases j - i
  {
    if i == j {
    } else {
      HandoffRun(run, i);
      RefusedRun(run, i);
      SdkRunStep(run, i);
      NextKeepsRefused(run[i], run[i + 1]);
      RefusedOnlyGrows(run, i + 1, j);
    }
  }

  /**
   Once the driver has refused one completion of a ready-for-read event, no such event ever reaches
   the SDK again until the file is closed: none can be delivered, none is held by any thread, and
   none can arrive from VHF.
   */
  lemma RefusalStallsInput(run: seq<Sdk>, i: nat, j: nat, capacity: nat)
    requires IsSdkRun(run) && i <= j < |run| && run[i].unanswered != {} && run[j].driver.vhfHandle
    ensures !Can(run[j], Receive(capacity)) && Idle(run[j])
    ensures !Enabled(run[j].driver, ArriveReady)
  {
    HandoffRun(run, j);
    RefusedRun(run, j);
    RefusedOnlyGrows(run, i, j);
    var s := run[j];
    var u :| u in s.unanswered;
    assert OutstandingReady(s.driver, u);
    OneOperation(s.driver, u);
    if Can(s, Receive(capacity)) {
      ReceiveFindsIdle(s, Receive(capacity));
    }
    forall v: nat ensures !Held(s, v) {
      if Held(s, v) {
        HeldIsOnly(s, u, v);
      }
    }
    NothingHeld(s);
  }

  /**
   While the file is open, an event is outstanding in nobody's hands exactly when a reply without
   data was given to it or to one before.
   */
  lemma StalledIff(run: seq<Sdk>, i: nat)
    requires IsSdkRun(run) && i < |run| && run[i].driver.vhfHandle
    ensures (exists u: nat :: OutstandingReady(run[i].driver, u) && !Held(run[i], u)) <==> run[i].unanswered != {}
  {
    HandoffRun(run, i);
    RefusedRun(run, i);
    if run[i].unanswered != {} {
      var u :| u in run[i].unanswered;
      assert OutstandingReady(run[i].driver, u) && !Held(run[i], u);
    }
  }

  /** The move is a reply that the driver refuses: it has no data, and the DLL had memory to say so. */
  predicate Refuses(m: Move)
  {
    m.Complete? && m.memoryOk && (m.data.None? || m.data.value == [])
  }

  /** The moves that lead through `states`. */
  ghost predicate SdkLeads(states: seq<Sdk>, moves: seq<Move>)
  {
    && |states| == |moves| + 1
    && forall i | 0 <= i < |moves| :: Can(states[i], moves[i]) && states[i + 1] == Do(states[i], moves[i])
  }

  lemma UnansweredStep(s: Sdk, m: Move)
    requires Can(s, m)
    ensures Do(s, m).unanswered != {} <==> s.unanswered != {} || Refuses(m)
  {
    if m.Complete? && Refuses(m) {
      assert m.op in Do(s, m).unanswered;
    }
  }

  ghost predicate SomeRefused(moves: seq<Move>)
  {
    exists k :: 0 <= k < |moves| && Refuses(moves[k])
  }

  lemma SomeRefusedStep(moves: seq<Move>, m: Move)
    ensures SomeRefused(moves + [m]) <==> SomeRefused(moves) || Refuses(m)
  {
    var more := moves + [m];
    if SomeRefused(moves) {
      var k :| 0 <= k < |moves| && Refuses(moves[k]);
      assert Refuses(more[k]);
    }
    if Refuses(m) {
      assert Refuses(more[|moves|]);
    }
    if SomeRefused(more) && !Refuses(m) {
      var k :| 0 <= k < |more| && Refuses(more[k]);
      assert Refuses(moves[k]);
    }
  }

  lemma {:induction false} UnansweredIff(states: seq<Sdk>, moves: seq<Move>)
    requires SdkLeads(states, moves) && states[0].unanswered == {}
    ensures states[|moves|].unanswered != {} <==> SomeRefused(moves)
  {
    var n := |moves|;
    if n == 0 {
    } else {
      UnansweredIff(states[..n], moves[..n - 1]);
      UnansweredStep(states[n - 1], moves[n - 1]);
      SomeRefusedStep(moves[..n - 1], moves[n - 1]);
      assert moves == moves[..n - 1] + [moves[n - 1]];
    }
  }

  lemma LeadsIsRun(states: seq<Sdk>, moves: seq<Move>)
    requires SdkLeads(states, moves) && Start(states[0])
    ensures IsSdkRun(states)
  {
    forall i | 0 <= i < |states| - 1 ensures SdkNext(states[i], states[i + 1]) {
      assert Can(states[i], moves[i]) && states[i + 1] == Do(states[i], moves[i]);
    }
  }

  /**
   While the file is open, an event is outstanding in nobody's hands, and the input stalled, exactly
   when one of the replies in the run had no data and the DLL had memory to send it.
   */
  lemma StalledByReplyIff(states: seq<Sdk>, moves: seq<Move>)
    requires SdkLeads(states, moves) && Start(states[0]) && states[|moves|].driver.vhfHandle
    ensures (exists u: nat :: OutstandingReady(states[|moves|].driver, u) && !Held(states[|moves|], u))
       <==> SomeRefused(moves)
  {
    LeadsIsRun(states, moves);
    StalledIff(states, |moves|);
    UnansweredIff(states, moves);
  }

  /** A reply is refused exactly when it has no data, which a WinUHidSubmitInputReport always has. */
  lemma RefusedIff(s: Sdk, m: Move)
    requires m.Complete? && Can(s, m)
    ensures m.op in Do(s, m).unanswered - s.unanswered <==>
            m.op !in s.unanswered && m.memoryOk && (m.data.None? || m.data.value == [])
    ensures s.owners[m.op].SubmitInputReport? ==> Do(s, m).unanswered == s.unanswered
  {
  }

  /** It does happen: an event goes all the way to the read thread, whose callback replies with NULL. */
  lemma RefusalHappens(sizes: seq<HidReportSize>) returns (run: seq<Sdk>)
    requires |sizes| == 256
    ensures IsSdkRun(run) && run[|run| - 1].unanswered == {0} && run[|run| - 1].driver.vhfHandle
  {
    run := EventDelivered(sizes);
    run := OneMoreMove(run, Store);
    run := OneMoreMove(run, Raise);
    run := OneMoreMove(run, ReaderWakes);
    run := OneMoreMove(run, ReaderTakes);
    assert run[|run| - 1].owners == map[0 := ReadThread];
    run := OneMoreMove(run, Complete(0, None, true));
  }

  lemma EventDelivered(sizes: seq<HidReportSize>) returns (run: seq<Sdk>)
    requires |sizes| == 256
    ensures IsSdkRun(run)
    ensures run[|run| - 1] == Sdk(Driver(true, 0, sizes, [READY], {}, [], [0], {}, {}, [], [0], [0]),
                                  Some(0), None, false, false, false, 0, map[], {}, false, false, 0, 0)
  {
    var driver := Driver(true, 0, sizes, [], {}, [], [], {}, {}, [], [], []);
    run := [Sdk(driver, None, None, false, false, false, 0, map[], {}, false, false, 0, 0)];
    run := OneMoreMove(run, DriverMoves(ArriveReady));
    assert run[|run| - 1].driver == Driver(true, 0, sizes, [READY], {0}, [], [], {}, {}, [], [], []);
    run := OneMoreMove(run, DriverMoves(Enqueue(0, true)));
    assert run[|run| - 1].driver == Driver(true, 0, sizes, [READY], {}, [0], [], {}, {}, [], [0], []);
    run := OneMoreMove(run, Receive(EVENT_HEADER));
  }

  lemma NothingHeld(s: Sdk)
    requires forall v: nat :: !Held(s, v)
    ensures Idle(s)
  {
    if s.received.Some? {
      assert Held(s, s.received.value);
    }
    if s.slot.Some? {
      assert Held(s, s.slot.value);
    }
    assert forall v | v in s.owners :: Held(s, v);
  }
}
