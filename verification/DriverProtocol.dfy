/**
 The driver's request protocol as an interleaved transition system.

 An operation is one request of the Virtual HID Framework (VHF), numbered in the order the
 requests came in.  Handlers run in parallel; one step here is one section between taking and
 releasing the request lock, or one atomic action outside it, so a run is any interleaving of
 any number of dispatch, get-next, completion and close handlers.
 */
module DriverProtocol {
  import opened Arithmetic
  import opened Win32
  import opened HidItems

  datatype EventType = GetFeature | SetFeature | WriteReport | ReadReport
  {
    predicate IsWrite() { SetFeature? || WriteReport? }
  }

  /**
   What the driver keeps for one operation.  Pseudo-operations (ready for read) have no VHF handle,
   ID 0 and length 0.  `serial` is the unwrapped value of the ID counter, 0 before assignment.
   */
  datatype Operation = Operation(
    kind: EventType, pseudo: bool, reportId: Byte, length: nat, serial: nat, requestId: ULong)
  {
    predicate Ready() { pseudo || serial != 0 }
  }

  /** The driver's state, with its history for reasoning. */
  datatype Driver = Driver(
    vhfHandle: bool,
    counter: nat,               // unwrapped; the driver's LONG holds it modulo 2^32
    sizes: seq<HidReportSize>,  // the table the descriptor parser filled
    ops: seq<Operation>,        // every operation that came in
    arriving: set<nat>,         // in a dispatch handler, not queued
    waiting: seq<nat>,
    outstanding: seq<nat>,
    completing: set<nat>,       // taken by one handler that will finish it
    done: set<nat>,
    completions: seq<nat>,      // calls of VhfAsyncOperationComplete
    enqueued: seq<nat>,
    handedOut: seq<nat>)

  datatype Step =
    | Arrive(kind: EventType, reportId: Byte, length: nat)
    | ArriveReady
    | Prepare(op: nat)
    | GiveUp(op: nat)
    | Enqueue(op: nat, added: bool)
    | Deliver(capacity: nat, moved: bool)
    | Take(requestId: ULong)
    | Finish(op: nat)
    | Reissue(op: nat)
    | Close

  // ---------------------------------------------------------------- small parts of the steps

  /** The request ID made from a counter value: its low 32 bits with the top bit set. */
  function IdOf(serial: nat): ULong
  {
    var low := serial % TWO_TO_32;
    if low >= TWO_TO_31 then low else low + TWO_TO_31
  }

  /** The size of the report that an operation of this kind transfers. */
  function ReportSize(row: HidReportSize, kind: EventType): ULong
  {
    match kind
    case GetFeature => row.feature
    case SetFeature => row.feature
    case WriteReport => row.output
    case ReadReport => row.input
  }

  /** Bytes of an event without its data: type 4, request ID 4, report ID 1, length 4, one data byte. */
  const EVENT_HEADER: nat := 14
  const EVENT_DATA_OFFSET: nat := 13

  /** Output buffer size that delivering `op` needs. */
  function EventNeeds(op: Operation): nat
  {
    if op.kind.IsWrite() && EVENT_DATA_OFFSET + op.length > EVENT_HEADER
    then EVENT_DATA_OFFSET + op.length else EVENT_HEADER
  }

  function IndexById(s: Driver, requestId: ULong, from: nat): (i: nat)
    requires from <= |s.outstanding|
    requires InRange(s.outstanding, |s.ops|)
    ensures from <= i <= |s.outstanding|
    ensures i < |s.outstanding| ==> s.ops[s.outstanding[i]].requestId == requestId
    ensures forall j | from <= j < i :: s.ops[s.outstanding[j]].requestId != requestId
    decreases |s.outstanding| - from
  {
    if from == |s.outstanding| || s.ops[s.outstanding[from]].requestId == requestId then from
    else IndexById(s, requestId, from + 1)
  }

  function Without<T>(xs: seq<T>, i: nat): seq<T>
    requires i < |xs|
  {
    xs[..i] + xs[i + 1..]
  }

  /** The operations of a collection that have a VHF handle to complete. */
  function RealOnes(ops: seq<Operation>, us: seq<nat>): (r: seq<nat>)
    requires InRange(us, |ops|)
  {
    if us == [] then []
    else (if ops[us[0]].pseudo then [] else [us[0]]) + RealOnes(ops, us[1..])
  }

  function Members(us: seq<nat>): set<nat>
  {
    set u | u in us
  }

  predicate InRange(us: seq<nat>, n: nat)
  {
    forall i | 0 <= i < |us| :: us[i] < n
  }

  predicate Known(s: Driver)
  {
    && InRange(s.waiting, |s.ops|) && InRange(s.outstanding, |s.ops|)
    && (forall u | u in s.arriving :: u < |s.ops|)
    && (forall u | u in s.completing :: u < |s.ops|)
    && |s.sizes| == 256
  }

  predicate Live(s: Driver, u: nat)
  {
    u < |s.ops| && u !in s.done
  }

  // ---------------------------------------------------------------- steps

  predicate Enabled(s: Driver, step: Step)
  {
    && Known(s)
    && match step
       case Arrive(_, _, _) => true
       // VHF raises a ready-for-read callback only while none is being handled.
       case ArriveReady => forall u | 0 <= u < |s.ops| && s.ops[u].pseudo :: u in s.done
       case Prepare(u) => u in s.arriving && !s.ops[u].Ready()
       case GiveUp(u) => u in s.arriving
       case Enqueue(u, _) => u in s.arriving && s.ops[u].Ready()
       case Deliver(_, _) => true
       case Take(_) => true
       case Finish(u) => u in s.completing
       case Reissue(u) => u in s.completing && s.ops[u].pseudo
       case Close => true
  }

  const READY: Operation := Operation(ReadReport, true, 0, 0, 0, 0)

  function Apply(s: Driver, step: Step): Driver
    requires Enabled(s, step)
  {
    match step
    case Arrive(kind, reportId, length) =>
      s.(ops := s.ops + [Operation(kind, false, reportId, length, 0, 0)],
         arriving := s.arriving + {|s.ops|})
    case ArriveReady =>
      s.(ops := s.ops + [READY], arriving := s.arriving + {|s.ops|})
    case Prepare(u) =>
      // The interlocked increment and the length clamp; an unknown report is failed instead.
      var op, serial := s.ops[u], s.counter + 1;
      var size := ReportSize(s.sizes[op.reportId], op.kind);
      var length := if size < op.length then size else op.length;
      var prepared := s.(counter := serial,
                         ops := s.ops[u := op.(serial := serial, requestId := IdOf(serial), length := length)]);
      if size == 0 then prepared.(arriving := s.arriving - {u}, completing := s.completing + {u})
      else prepared
    case GiveUp(u) =>
      // The operation object could not be created.
      s.(arriving := s.arriving - {u}, completing := s.completing + {u})
    case Enqueue(u, added) =>
      if s.vhfHandle && added then
        s.(arriving := s.arriving - {u}, waiting := s.waiting + [u], enqueued := s.enqueued + [u])
      else
        s.(arriving := s.arriving - {u}, completing := s.completing + {u})
    case Deliver(capacity, moved) =>
      if s.waiting == [] || capacity < EventNeeds(s.ops[s.waiting[0]]) || !moved then s
      else s.(waiting := s.waiting[1..], outstanding := s.outstanding + [s.waiting[0]],
              handedOut := s.handedOut + [s.waiting[0]])
    case Take(requestId) =>
      var i := IndexById(s, requestId, 0);
      if i == |s.outstanding| then s
      else s.(outstanding := Without(s.outstanding, i), completing := s.completing + {s.outstanding[i]})
    case Finish(u) =>
      s.(completing := s.completing - {u}, done := s.done + {u},
         completions := s.completions + if s.ops[u].pseudo then [] else [u])
    case Reissue(u) =>
      // A failed ready-for-read completion raises a fresh ready-for-read itself.
      s.(completing := s.completing - {u}, done := s.done + {u},
         ops := s.ops + [READY], arriving := s.arriving + {|s.ops|})
    case Close =>
      s.(vhfHandle := false, waiting := [], outstanding := [],
         done := s.done + Members(s.waiting) + Members(s.outstanding),
         completions := s.completions + RealOnes(s.ops, s.waiting) + RealOnes(s.ops, s.outstanding))
  }

  predicate Initial(s: Driver)
  {
    && s.vhfHandle && s.counter == 0 && |s.sizes| == 256
    && s.ops == [] && s.arriving == {} && s.waiting == [] && s.outstanding == []
    && s.completing == {} && s.done == {}
    && s.completions == [] && s.enqueued == [] && s.handedOut == []
  }

  ghost predicate Next(s: Driver, s': Driver)
  {
    exists step :: Enabled(s, step) && s' == Apply(s, step)
  }

  ghost predicate IsRun(run: seq<Driver>)
  {
    && |run| > 0 && Initial(run[0])
    && forall i | 0 <= i < |run| - 1 :: Next(run[i], run[i + 1])
  }

  // ---------------------------------------------------------------- the invariant

  /** How many places hold operation `u`: a handler, a queue, a completing handler, or the end. */
  function Places(s: Driver, u: nat): nat
  {
    (if u in s.arriving then 1 else 0) + multiset(s.waiting)[u] + multiset(s.outstanding)[u] +
    (if u in s.completing then 1 else 0) + (if u in s.done then 1 else 0)
  }

  ghost predicate OnePlace(s: Driver)
  {
    forall u: nat :: Places(s, u) == if u < |s.ops| then 1 else 0
  }

  ghost predicate CompletedOnce(s: Driver)
  {
    forall u: nat ::
      multiset(s.completions)[u] == if u in s.done && u < |s.ops| && !s.ops[u].pseudo then 1 else 0
  }

  ghost predicate OneReady(s: Driver)
  {
    forall u: nat, v: nat | Live(s, u) && Live(s, v) && s.ops[u].pseudo && s.ops[v].pseudo :: u == v
  }

  /** Assigned IDs come from counter values already used. */
  ghost predicate IdsAssigned(s: Driver)
  {
    forall u: nat | u < |s.ops| ::
      && s.ops[u].serial <= s.counter
      && (s.ops[u].pseudo ==> s.ops[u] == READY)
      && (s.ops[u].serial != 0 ==> s.ops[u].requestId == IdOf(s.ops[u].serial))
  }

  ghost predicate SerialsDistinct(s: Driver)
  {
    forall u: nat, v: nat | u < v < |s.ops| && s.ops[u].serial != 0 :: s.ops[u].serial != s.ops[v].serial
  }

  /** Queued operations have their ID. */
  ghost predicate QueuedReady(s: Driver)
  {
    && (forall i | 0 <= i < |s.waiting| :: s.waiting[i] < |s.ops| && s.ops[s.waiting[i]].Ready())
    && (forall i | 0 <= i < |s.outstanding| :: s.outstanding[i] < |s.ops| && s.ops[s.outstanding[i]].Ready())
  }

  /** A queued operation's length is within the parsed size of its report. */
  ghost predicate LengthsClamped(s: Driver)
  {
    && |s.sizes| == 256
    && forall u | 0 <= u < |s.ops| && s.ops[u].serial != 0 ::
      s.ops[u].length <= ReportSize(s.sizes[s.ops[u].reportId], s.ops[u].kind)
  }

  ghost predicate InOrder(s: Driver)
  {
    if s.vhfHandle then s.handedOut + s.waiting == s.enqueued
    else s.waiting == [] && s.outstanding == []
  }

  ghost predicate Inv(s: Driver)
  {
    && |s.sizes| == 256
    && OnePlace(s)
    && CompletedOnce(s)
    && OneReady(s)
    && IdsAssigned(s)
    && SerialsDistinct(s)
    && QueuedReady(s)
    && LengthsClamped(s)
    && InOrder(s)
  }

  lemma CountIn(us: seq<nat>, u: nat)
    ensures u in us <==> multiset(us)[u] > 0
  {
    assert u in us <==> u in multiset(us);
  }

  lemma PlacesKnown(s: Driver)
    requires OnePlace(s) && |s.sizes| == 256
    ensures Known(s)
    ensures forall u | u in s.done :: u < |s.ops|
  {
    forall i | 0 <= i < |s.waiting| ensures s.waiting[i] in s.waiting {}
    forall i | 0 <= i < |s.outstanding| ensures s.outstanding[i] in s.outstanding {}
    forall u: nat
      ensures u in s.waiting || u in s.outstanding || u in s.arriving || u in s.completing || u in s.done
              ==> u < |s.ops|
    {
      CountIn(s.waiting, u);
      CountIn(s.outstanding, u);
      assert Places(s, u) == if u < |s.ops| then 1 else 0;
    }
  }

  lemma InitialInv(s: Driver)
    requires Initial(s)
    ensures Inv(s)
  {
  }

  // ---------------------------------------------------------------- preservation, place by place

  lemma CountAppend(us: seq<nat>, x: nat, u: nat)
    ensures multiset(us + [x])[u] == multiset(us)[u] + if u == x then 1 else 0
  {
  }

  lemma CountTwice(us: seq<nat>, j: nat, i: nat)
    requires j < i < |us| && us[i] == us[j]
    ensures multiset(us)[us[i]] >= 2
  {
    assert us == us[..i] + us[i..];
    assert us[..i][j] == us[i] && us[i..][0] == us[i];
  }

  lemma CountWithout(us: seq<nat>, i: nat, u: nat)
    requires i < |us|
    ensures multiset(Without(us, i))[u] == multiset(us)[u] - if u == us[i] then 1 else 0
  {
    assert us == us[..i] + [us[i]] + us[i + 1..];
  }

  /** The facts about one operation that a step's effect on it depends on. */
  ghost predicate Single(s: Driver, u: nat)
  {
    && Places(s, u) == (if u < |s.ops| then 1 else 0)
    && (u in s.waiting <==> multiset(s.waiting)[u] > 0)
    && (u in s.outstanding <==> multiset(s.outstanding)[u] > 0)
    && multiset(s.completions)[u] == if u in s.done && u < |s.ops| && !s.ops[u].pseudo then 1 else 0
  }

  lemma OneOperation(s: Driver, u: nat)
    requires Inv(s)
    ensures Known(s) && Single(s, u)
  {
    PlacesKnown(s);
    CountIn(s.waiting, u);
    CountIn(s.outstanding, u);
  }

  lemma DeliverKeepsPlace(s: Driver, step: Step, u: nat)
    requires step.Deliver? && Enabled(s, step) && Single(s, u)
    ensures Places(Apply(s, step), u) == if u < |s.ops| then 1 else 0
  {
    if s.waiting != [] {
      CountAppend(s.outstanding, s.waiting[0], u);
      CountWithout(s.waiting, 0, u);
      assert s.waiting[1..] == Without(s.waiting, 0);
    }
  }

  lemma TakeKeepsPlace(s: Driver, step: Step, u: nat)
    requires step.Take? && Enabled(s, step) && Single(s, u)
    ensures Places(Apply(s, step), u) == if u < |s.ops| then 1 else 0
  {
    var i := IndexById(s, step.requestId, 0);
    if i < |s.outstanding| {
      CountWithout(s.outstanding, i, u);
    }
  }

  lemma EnqueueKeepsPlace(s: Driver, step: Step, u: nat)
    requires step.Enqueue? && Enabled(s, step) && Single(s, u)
    ensures Places(Apply(s, step), u) == if u < |s.ops| then 1 else 0
  {
    CountAppend(s.waiting, step.op, u);
  }

  lemma CloseKeepsPlace(s: Driver, u: nat)
    requires Enabled(s, Close) && Single(s, u)
    ensures Places(Apply(s, Close), u) == if u < |s.ops| then 1 else 0
  {
  }

  lemma ArrivalKeepsPlace(s: Driver, step: Step, u: nat)
    requires (step.Arrive? || step.ArriveReady? || step.Reissue?) && Enabled(s, step) && Single(s, u)
    ensures Places(Apply(s, step), u) == if u <= |s.ops| then 1 else 0
  {
  }

  lemma HandlerKeepsPlace(s: Driver, step: Step, u: nat)
    requires (step.Prepare? || step.GiveUp? || step.Finish?) && Enabled(s, step) && Single(s, u)
    ensures Places(Apply(s, step), u) == if u < |s.ops| then 1 else 0
  {
  }

  lemma StepKeepsPlace(s: Driver, step: Step, u: nat)
    requires Enabled(s, step) && Single(s, u)
    ensures var s' := Apply(s, step);
            Places(s', u) == if u < |s'.ops| then 1 else 0
  {
    match step
    case Enqueue(_, _) => EnqueueKeepsPlace(s, step, u);
    case Deliver(_, _) => DeliverKeepsPlace(s, step, u);
    case Take(_) => TakeKeepsPlace(s, step, u);
    case Close => CloseKeepsPlace(s, u);
    case Prepare(_) => HandlerKeepsPlace(s, step, u);
    case GiveUp(_) => HandlerKeepsPlace(s, step, u);
    case Finish(_) => HandlerKeepsPlace(s, step, u);
    case _ => ArrivalKeepsPlace(s, step, u);
  }

  lemma StepKeepsPlaces(s: Driver, step: Step)
    requires Inv(s) && Enabled(s, step)
    ensures OnePlace(Apply(s, step))
  {
    forall u: nat ensures Places(Apply(s, step), u) == if u < |Apply(s, step).ops| then 1 else 0 {
      OneOperation(s, u);
      StepKeepsPlace(s, step, u);
    }
  }

  lemma {:induction false} CountRealOnes(ops: seq<Operation>, us: seq<nat>, u: nat)
    requires InRange(us, |ops|)
    ensures multiset(RealOnes(ops, us))[u] == if u < |ops| && !ops[u].pseudo then multiset(us)[u] else 0
  {
    if us == [] {
    } else {
      assert us == [us[0]] + us[1..];
      CountRealOnes(ops, us[1..], u);
    }
  }

  lemma CloseKeepsCompletion(s: Driver, u: nat)
    requires Enabled(s, Close) && Single(s, u)
    ensures var s' := Apply(s, Close);
            multiset(s'.completions)[u] ==
            if u in s'.done && u < |s'.ops| && !s'.ops[u].pseudo then 1 else 0
  {
    CountRealOnes(s.ops, s.waiting, u);
    CountRealOnes(s.ops, s.outstanding, u);
  }

  lemma FinishKeepsCompletion(s: Driver, step: Step, u: nat)
    requires step.Finish? && Enabled(s, step) && Single(s, u)
    ensures var s' := Apply(s, step);
            multiset(s'.completions)[u] ==
            if u in s'.done && u < |s'.ops| && !s'.ops[u].pseudo then 1 else 0
  {
    CountAppend(s.completions, step.op, u);
  }

  lemma StepKeepsCompletion(s: Driver, step: Step, u: nat)
    requires Enabled(s, step) && Single(s, u)
    ensures var s' := Apply(s, step);
            multiset(s'.completions)[u] ==
            if u in s'.done && u < |s'.ops| && !s'.ops[u].pseudo then 1 else 0
  {
    match step
    case Finish(_) => FinishKeepsCompletion(s, step, u);
    case Close => CloseKeepsCompletion(s, u);
    case _ =>
  }

  lemma StepKeepsCompletions(s: Driver, step: Step)
    requires Inv(s) && Enabled(s, step)
    ensures CompletedOnce(Apply(s, step))
  {
    var s' := Apply(s, step);
    forall u: nat
      ensures multiset(s'.completions)[u] ==
              if u in s'.done && u < |s'.ops| && !s'.ops[u].pseudo then 1 else 0
    {
      OneOperation(s, u);
      StepKeepsCompletion(s, step, u);
    }
  }

  lemma StepKeepsIds(s: Driver, step: Step)
    requires IdsAssigned(s) && Enabled(s, step)
    ensures IdsAssigned(Apply(s, step))
  {
  }

  lemma StepKeepsSerials(s: Driver, step: Step)
    requires IdsAssigned(s) && SerialsDistinct(s) && Enabled(s, step)
    ensures SerialsDistinct(Apply(s, step))
  {
  }

  lemma StepKeepsLengths(s: Driver, step: Step)
    requires IdsAssigned(s) && LengthsClamped(s) && Enabled(s, step)
    ensures LengthsClamped(Apply(s, step))
  {
  }

  lemma StepKeepsQueuedReady(s: Driver, step: Step)
    requires QueuedReady(s) && Enabled(s, step)
    requires step.Prepare? ==> s.ops[step.op].serial == 0
    ensures QueuedReady(Apply(s, step))
  {
  }

  lemma StepKeepsOneReady(s: Driver, step: Step)
    requires OneReady(s) && Enabled(s, step)
    requires step.Finish? || step.Reissue? ==> step.op !in s.done
    ensures OneReady(Apply(s, step))
  {
  }

  lemma DeliverKeepsOrder(s: Driver, step: Step)
    requires InOrder(s) && step.Deliver? && Enabled(s, step)
    ensures InOrder(Apply(s, step))
  {
    if s.waiting != [] {
      assert s.waiting == [s.waiting[0]] + s.waiting[1..];
      assert s.handedOut + ([s.waiting[0]] + s.waiting[1..]) == s.handedOut + [s.waiting[0]] + s.waiting[1..];
    }
  }

  lemma EnqueueKeepsOrder(s: Driver, step: Step)
    requires InOrder(s) && step.Enqueue? && Enabled(s, step)
    ensures InOrder(Apply(s, step))
  {
    assert s.handedOut + (s.waiting + [step.op]) == s.handedOut + s.waiting + [step.op];
  }

  lemma StepKeepsOrder(s: Driver, step: Step)
    requires Inv(s) && Enabled(s, step)
    ensures InOrder(Apply(s, step))
  {
    match step
    case Deliver(_, _) => DeliverKeepsOrder(s, step);
    case Enqueue(_, _) => EnqueueKeepsOrder(s, step);
    case Take(_) => assert s.outstanding == [] ==> Apply(s, step).outstanding == [];
    case _ =>
  }

  lemma StepKeepsInv(s: Driver, step: Step)
    requires Inv(s) && Enabled(s, step)
    ensures Inv(Apply(s, step))
  {
    StepKeepsPlaces(s, step);
    StepKeepsCompletions(s, step);
    StepKeepsIds(s, step);
    StepKeepsSerials(s, step);
    StepKeepsLengths(s, step);
    StepKeepsQueuedReady(s, step);
    if step.Finish? || step.Reissue? {
      OneOperation(s, step.op);
    }
    StepKeepsOneReady(s, step);
    StepKeepsOrder(s, step);
  }

  // ---------------------------------------------------------------- every run

  lemma {:induction false} RunInv(run: seq<Driver>, i: nat)
    requires IsRun(run) && i < |run|
    ensures Inv(run[i])
  {
    if i == 0 {
      InitialInv(run[0]);
    } else {
      RunInv(run, i - 1);
      assert Next(run[i - 1], run[i - 1 + 1]);
      var step :| Enabled(run[i - 1], step) && run[i] == Apply(run[i - 1], step);
      StepKeepsInv(run[i - 1], step);
    }
  }

  /** Where an operation is: 0 dispatch handler, 1 waiting, 2 outstanding, 3 completing, 4 done. */
  function Stage(s: Driver, u: nat): nat
  {
    if u in s.done then 4 else if u in s.completing then 3
    else if u in s.outstanding then 2 else if u in s.waiting then 1 else 0
  }

  lemma TakeMovesForward(s: Driver, step: Step, u: nat)
    requires step.Take? && Enabled(s, step) && Single(s, u) && u < |s.ops|
    ensures Stage(s, u) <= Stage(Apply(s, step), u)
  {
    var i := IndexById(s, step.requestId, 0);
    if i < |s.outstanding| {
      CountWithout(s.outstanding, i, u);
      CountIn(Without(s.outstanding, i), u);
    }
  }

  lemma DeliverMovesForward(s: Driver, step: Step, u: nat)
    requires step.Deliver? && Enabled(s, step) && Single(s, u) && u < |s.ops|
    ensures Stage(s, u) <= Stage(Apply(s, step), u)
  {
    if s.waiting != [] {
      assert s.waiting == [s.waiting[0]] + s.waiting[1..];
      assert u in s.waiting ==> u == s.waiting[0] || u in s.waiting[1..];
    }
  }

  lemma StepMovesForward(s: Driver, step: Step, u: nat)
    requires Enabled(s, step) && Single(s, u) && u < |s.ops|
    ensures u < |Apply(s, step).ops| && Stage(s, u) <= Stage(Apply(s, step), u)
  {
    match step
    case Take(_) => TakeMovesForward(s, step, u);
    case Deliver(_, _) => DeliverMovesForward(s, step, u);
    case _ =>
  }

  lemma StepKeepsHistory(s: Driver, step: Step)
    requires Enabled(s, step)
    ensures s.completions <= Apply(s, step).completions
    ensures !s.vhfHandle ==> !Apply(s, step).vhfHandle
  {
  }

  /** In every run an operation only moves forward and no completion is ever undone. */
  lemma {:induction false} OnlyForward(run: seq<Driver>, i: nat, j: nat, u: nat)
    requires IsRun(run) && i <= j < |run| && u < |run[i].ops|
    ensures u < |run[j].ops| && Stage(run[i], u) <= Stage(run[j], u)
    ensures run[i].completions <= run[j].completions
    decreases j - i
  {
    if i == j {
    } else {
      RunInv(run, i);
      assert Next(run[i], run[i + 1]);
      var step :| Enabled(run[i], step) && run[i + 1] == Apply(run[i], step);
      OneOperation(run[i], u);
      StepMovesForward(run[i], step, u);
      StepKeepsHistory(run[i], step);
      OnlyForward(run, i + 1, j, u);
    }
  }

  /**
   In every reachable state an operation is in exactly one place and its VHF handle has been
   completed at most once; once the file is closed and no handler holds an operation any more,
   every handle has been completed exactly once.
   */
  lemma ExactlyOneCompletion(run: seq<Driver>, i: nat, u: nat)
    requires IsRun(run) && i < |run| && u < |run[i].ops|
    ensures Places(run[i], u) == 1
    ensures multiset(run[i].completions)[u] <= 1
    ensures run[i].ops[u].pseudo ==> u !in run[i].completions
    ensures !run[i].vhfHandle && run[i].arriving == {} && run[i].completing == {} && !run[i].ops[u].pseudo
            ==> multiset(run[i].completions)[u] == 1
  {
    RunInv(run, i);
    CountIn(run[i].completions, u);
    assert Places(run[i], u) == 1;
  }

  /** Never two ready-for-read operations at once, over handlers and both queues. */
  lemma OneReadyOperation(run: seq<Driver>, i: nat, u: nat, v: nat)
    requires IsRun(run) && i < |run|
    requires Live(run[i], u) && Live(run[i], v) && run[i].ops[u].pseudo && run[i].ops[v].pseudo
    ensures u == v
  {
    RunInv(run, i);
  }

  /** Until the file is closed, what was handed out followed by what waits is the enqueue order. */
  lemma DeliveredInOrder(run: seq<Driver>, i: nat)
    requires IsRun(run) && i < |run| && run[i].vhfHandle
    ensures run[i].handedOut + run[i].waiting == run[i].enqueued
    ensures forall u | u in run[i].outstanding :: u in run[i].handedOut
  {
    RunInv(run, i);
    OutstandingHandedOut(run, i);
  }

  lemma StepKeepsHandedOut(s: Driver, step: Step)
    requires Enabled(s, step) && forall u | u in s.outstanding :: u in s.handedOut
    ensures forall u | u in Apply(s, step).outstanding :: u in Apply(s, step).handedOut
  {
  }

  lemma {:induction false} OutstandingHandedOut(run: seq<Driver>, i: nat)
    requires IsRun(run) && i < |run|
    ensures forall u | u in run[i].outstanding :: u in run[i].handedOut
  {
    if i == 0 {
    } else {
      OutstandingHandedOut(run, i - 1);
      assert Next(run[i - 1], run[i - 1 + 1]);
      var step :| Enabled(run[i - 1], step) && run[i] == Apply(run[i - 1], step);
      StepKeepsHandedOut(run[i - 1], step);
    }
  }

  /**
   A delivery changes nothing exactly when nothing waits, the buffer is too small or the move
   fails: the head of the queue stays where it is for the next attempt.
   */
  lemma FailedDelivery(s: Driver, capacity: nat, moved: bool)
    requires Inv(s)
    ensures Known(s)
    ensures Apply(s, Deliver(capacity, moved)) == s <==>
            s.waiting == [] || capacity < EventNeeds(s.ops[s.waiting[0]]) || !moved
  {
    PlacesKnown(s);
    if s.waiting != [] {
      assert |s.waiting[1..]| != |s.waiting|;
    }
  }

  // ---------------------------------------------------------------- request IDs

  /** IDs are never 0, and equal exactly when the counters agree modulo 2^31. */
  lemma RequestIds(a: nat, b: nat)
    ensures IdOf(a) == TWO_TO_31 + a % TWO_TO_31
    ensures IdOf(a) == IdOf(b) <==> (a - b) % TWO_TO_31 == 0
  {
    LowBits(a);
    LowBits(b);
    SameRemainder(a, b, TWO_TO_31);
  }

  lemma LowBits(a: nat)
    ensures a % TWO_TO_31 == if a % TWO_TO_32 >= TWO_TO_31 then a % TWO_TO_32 - TWO_TO_31 else a % TWO_TO_32
  {
  }

  /** The counters of the live operations lie less than 2^31 apart. */
  ghost predicate SpanSmall(s: Driver)
  {
    forall u: nat, v: nat | Live(s, u) && Live(s, v) && s.ops[u].serial != 0 && s.ops[v].serial != 0 ::
      s.ops[u].serial - s.ops[v].serial < TWO_TO_31
  }

  /** With a small span no two live operations share an ID, the ready-for-read ID 0 included. */
  lemma IdsDistinct(s: Driver, u: nat, v: nat)
    requires Inv(s) && SpanSmall(s)
    requires Live(s, u) && Live(s, v) && s.ops[u].Ready() && s.ops[v].Ready()
    requires s.ops[u].requestId == s.ops[v].requestId
    ensures u == v
  {
    RequestIds(s.ops[u].serial, s.ops[v].serial);
  }

  /** Then the first match of the linear search is the operation that is meant. */
  lemma NamedIsFirst(s: Driver, i: nat)
    requires Inv(s) && SpanSmall(s) && i < |s.outstanding|
    ensures Known(s) && IndexById(s, s.ops[s.outstanding[i]].requestId, 0) == i
  {
    PlacesKnown(s);
    var u := s.outstanding[i];
    var j := IndexById(s, s.ops[u].requestId, 0);
    assert j <= i;
    OutstandingLive(s, i);
    OutstandingLive(s, j);
    IdsDistinct(s, u, s.outstanding[j]);
    OneOperation(s, u);
    if j < i {
      CountTwice(s.outstanding, j, i);
    }
  }

  lemma NotLeft(s: Driver, i: nat)
    requires Inv(s) && i < |s.outstanding|
    ensures s.outstanding[i] !in Without(s.outstanding, i)
  {
    var u := s.outstanding[i];
    OneOperation(s, u);
    CountWithout(s.outstanding, i, u);
    CountIn(Without(s.outstanding, i), u);
  }

  /** So taking by ID removes exactly the named operation and keeps the others in order. */
  lemma TakeRemovesNamed(s: Driver, i: nat)
    requires Inv(s) && SpanSmall(s) && i < |s.outstanding|
    ensures Known(s)
    ensures var u := s.outstanding[i];
            var s' := Apply(s, Take(s.ops[u].requestId));
            && s'.outstanding == Without(s.outstanding, i)
            && s'.completing == s.completing + {u}
            && u !in s'.outstanding
  {
    NamedIsFirst(s, i);
    NotLeft(s, i);
  }

  lemma OutstandingLive(s: Driver, i: nat)
    requires Inv(s) && i < |s.outstanding|
    ensures Live(s, s.outstanding[i]) && s.ops[s.outstanding[i]].Ready()
  {
    CountIn(s.outstanding, s.outstanding[i]);
    assert Places(s, s.outstanding[i]) == if s.outstanding[i] < |s.ops| then 1 else 0;
  }

  // ---------------------------------------------------------------- declared reports

  /** The bytes of the report that an operation transfers, by the column of its kind. */
  function DeclaredSize(s: Driver, op: Operation): nat
    requires |s.sizes| == 256
  {
    var row := s.sizes[op.reportId];
    if op.kind.WriteReport? then row.output else if op.kind.ReadReport? then row.input else row.feature
  }

  lemma DeclaredIsReportSize(s: Driver, op: Operation)
    requires |s.sizes| == 256
    ensures ReportSize(s.sizes[op.reportId], op.kind) == DeclaredSize(s, op)
  {
  }

  /**
   Preparing a request of a declared report leaves it with its dispatch handler, ready to be queued,
   with its length cut to the report; one of an unknown report goes to be failed.
   */
  lemma PrepareOutcome(s: Driver, u: nat)
    requires Inv(s) && Enabled(s, Prepare(u))
    ensures Known(s) && u < |s.ops|
    ensures var s', size := Apply(s, Prepare(u)), DeclaredSize(s, s.ops[u]);
            && s'.ops[u].length <= size && s'.ops[u].length <= s.ops[u].length
            && (s'.ops[u].length == size || s'.ops[u].length == s.ops[u].length)
            && (size != 0 <==> u in s'.arriving) && (size == 0 <==> u in s'.completing)
            && s'.waiting == s.waiting && s'.outstanding == s.outstanding
  {
    OneOperation(s, u);
    DeclaredIsReportSize(s, s.ops[u]);
  }

  /** From there the handler queues it, behind all that waits, if the file is open and the collection takes it. */
  lemma DispatchQueues(s: Driver, u: nat)
    requires Inv(s) && Enabled(s, Prepare(u)) && DeclaredSize(s, s.ops[u]) != 0
    ensures var s' := Apply(s, Prepare(u));
            && (forall added :: Enabled(s', Enqueue(u, added)))
            && (s.vhfHandle ==> Apply(s', Enqueue(u, true)).waiting == s.waiting + [u])
            && (!s.vhfHandle ==> u in Apply(s', Enqueue(u, true)).completing)
            && u in Apply(s', Enqueue(u, false)).completing
  {
    PrepareOutcome(s, u);
    StepKeepsInv(s, Prepare(u));
    PlacesKnown(Apply(s, Prepare(u)));
  }

  /** Nothing that other handlers do takes an operation from its dispatch handler or changes it. */
  lemma StaysWithHandler(s: Driver, step: Step, u: nat)
    requires Enabled(s, step) && u in s.arriving && u < |s.ops|
    requires step != Prepare(u) && step != GiveUp(u) && step != Enqueue(u, true) && step != Enqueue(u, false)
    ensures u in Apply(s, step).arriving && Apply(s, step).ops[u] == s.ops[u]
  {
  }

  predicate InUse(s: Driver, u: nat)
  {
    u in s.arriving || u in s.waiting || u in s.outstanding
  }

  /** A prepared request that is queued or may yet be queued has a declared report. */
  predicate Declared(s: Driver, u: nat)
    requires |s.sizes| == 256
  {
    u < |s.ops| && s.ops[u].serial != 0 && InUse(s, u) ==> DeclaredSize(s, s.ops[u]) != 0
  }

  ghost predicate OnlyDeclared(s: Driver)
  {
    |s.sizes| == 256 && forall u: nat :: Declared(s, u)
  }

  lemma PrepareKeepsDeclared(s: Driver, u: nat, v: nat)
    requires Inv(s) && OnlyDeclared(s) && Enabled(s, Prepare(u))
    ensures Declared(Apply(s, Prepare(u)), v)
  {
    PrepareOutcome(s, u);
    OneOperation(s, u);
    assert Declared(s, v);
  }

  lemma InUseAfter(s: Driver, step: Step, v: nat)
    requires Enabled(s, step) && !step.Prepare? && InUse(Apply(s, step), v)
    ensures InUse(s, v) || v >= |s.ops|
  {
  }

  lemma OpsAfter(s: Driver, step: Step)
    requires Enabled(s, step) && !step.Prepare?
    ensures Apply(s, step).sizes == s.sizes && |s.ops| <= |Apply(s, step).ops|
    ensures forall v: nat | v < |s.ops| :: Apply(s, step).ops[v] == s.ops[v]
    ensures forall v: nat | |s.ops| <= v < |Apply(s, step).ops| :: Apply(s, step).ops[v].serial == 0
  {
  }

  lemma StepKeepsDeclared(s: Driver, step: Step)
    requires Inv(s) && OnlyDeclared(s) && Enabled(s, step)
    ensures OnlyDeclared(Apply(s, step))
  {
    if step.Prepare? {
      forall v: nat ensures Declared(Apply(s, step), v) {
        PrepareKeepsDeclared(s, step.op, v);
      }
    } else {
      OpsAfter(s, step);
      forall v: nat ensures Declared(Apply(s, step), v) {
        assert Declared(s, v);
        if InUse(Apply(s, step), v) {
          InUseAfter(s, step, v);
        }
      }
    }
  }

  lemma NextKeepsDeclared(s: Driver, s': Driver)
    requires Inv(s) && OnlyDeclared(s) && Next(s, s')
    ensures OnlyDeclared(s')
  {
    var step :| Enabled(s, step) && s' == Apply(s, step);
    StepKeepsDeclared(s, step);
  }

  lemma {:induction false} DeclaredRun(run: seq<Driver>, i: nat)
    requires IsRun(run) && i < |run|
    ensures OnlyDeclared(run[i])
  {
    if i == 0 {
    } else {
      DeclaredRun(run, i - 1);
      RunInv(run, i - 1);
      assert Next(run[i - 1], run[i - 1 + 1]);
      NextKeepsDeclared(run[i - 1], run[i]);
    }
  }

  /** In every run, what waits or is outstanding is a ready-for-read or a request of a declared report. */
  lemma QueuedIsDeclared(run: seq<Driver>, i: nat, u: nat)
    requires IsRun(run) && i < |run| && (u in run[i].waiting || u in run[i].outstanding)
    ensures u < |run[i].ops| && |run[i].sizes| == 256
    ensures run[i].ops[u].pseudo || DeclaredSize(run[i], run[i].ops[u]) > 0
  {
    RunInv(run, i);
    DeclaredRun(run, i);
    OneOperation(run[i], u);
    assert Declared(run[i], u);
  }

  // ---------------------------------------------------------------- buffer sizes

  /** No entry of the size table exceeds what an accepted descriptor can ask for. */
  predicate TableBounded(sizes: seq<HidReportSize>)
  {
    forall row | row in sizes ::
      row.input <= MAX_REPORT_BYTES && row.output <= MAX_REPORT_BYTES && row.feature <= MAX_REPORT_BYTES
  }

  function MainTag(kind: EventType): Byte
  {
    match kind
    case GetFeature => FEATURE
    case SetFeature => FEATURE
    case WriteReport => OUTPUT
    case ReadReport => INPUT
  }

  lemma {:induction false} SizesConstant(run: seq<Driver>, i: nat)
    requires IsRun(run) && i < |run|
    ensures run[i].sizes == run[0].sizes
  {
    if i == 0 {
    } else {
      SizesConstant(run, i - 1);
      assert Next(run[i - 1], run[i - 1 + 1]);
      var step :| Enabled(run[i - 1], step) && run[i] == Apply(run[i - 1], step);
    }
  }

  /**
   In every run of a device whose table is that of descriptor `d`, a queued request is never
   longer than the report that `d` describes, whatever length VHF gave it.
   */
  lemma QueuedLengthWithinReport(run: seq<Driver>, i: nat, u: nat, d: seq<Byte>)
    requires IsRun(run) && i < |run|
    requires forall id: Byte :: RowOf(d, id, run[0].sizes[id])
    requires u < |run[i].ops| && !run[i].ops[u].pseudo && (u in run[i].waiting || u in run[i].outstanding)
    ensures var op, items := run[i].ops[u], Items(d, 0);
            op.length <= ReportBytes(ReportBits(items, MainTag(op.kind), op.reportId), Numbered(items))
  {
    RunInv(run, i);
    SizesConstant(run, i);
    assert RowOf(d, run[i].ops[u].reportId, run[0].sizes[run[i].ops[u].reportId]);
  }

  /** A buffer is large enough exactly if the header fits, and for writes the data at its offset. */
  lemma EventNeedsIff(op: Operation, capacity: nat)
    ensures capacity >= EventNeeds(op) <==>
            capacity >= 14 && (op.kind.SetFeature? || op.kind.WriteReport? ==> capacity >= 13 + op.length)
  {
  }

  /** With a parsed table no queued event ever needs more than 13 + 2^29 + 1 bytes. */
  lemma EventNeedsBounded(s: Driver, u: nat)
    requires Inv(s) && TableBounded(s.sizes) && (u in s.waiting || u in s.outstanding)
    ensures u < |s.ops| && EventNeeds(s.ops[u]) <= EVENT_DATA_OFFSET + MAX_REPORT_BYTES
  {
    var op := s.ops[u];
    if !op.pseudo {
      assert s.sizes[op.reportId] in s.sizes;
    }
  }
}
