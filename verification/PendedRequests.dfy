/**
 The get-next requests that wait in the driver for an operation, beside the operations of
 DriverProtocol that wait for a request.

 A get-next handler that finds nothing pends its request after it has released the request lock,
 and a dispatch handler looks for a pended request after it has released the lock under which it
 queued its operation.  Requests are numbered in the order in which they came in; the state says
 which of them are with handlers in each of these unlocked windows.  One step is one section under
 the lock or one call of the framework's request queue.
 */
module PendedRequests {
  import opened Win32
  import opened HidItems
  import opened DriverProtocol

  datatype Requests = Requests(
    driver: Driver,
    asking: set<nat>,     // with get-next handlers that have yet to look for an operation
    forwarding: set<nat>, // with those that found none and have yet to pend their request
    pended: seq<nat>,     // in the driver's queue
    retrieving: nat,      // dispatch handlers that queued an operation and have yet to look for a request
    serving: set<nat>,    // with those that took a pended request out
    requeuing: set<nat>,  // with those that then found no operation and have yet to put it back
    asked: nat,           // how many requests came in
    answers: seq<nat>)    // completions of requests

  datatype Move =
    | DriverMoves(step: Step)
    | Ask
    | Try(request: nat, capacity: nat, moved: bool)
    | Forward(request: nat, ok: bool)
    | Retrieve
    | Serve(request: nat, capacity: nat, moved: bool)
    | Requeue(request: nat, ok: bool)
    | Cancel(index: nat)

  predicate Can(s: Requests, m: Move)
  {
    match m
    case DriverMoves(step) => Enabled(s.driver, step) && !step.Deliver?
    case Ask => s.driver.vhfHandle
    case Try(r, capacity, moved) => r in s.asking && Enabled(s.driver, Deliver(capacity, moved))
    case Forward(r, _) => r in s.forwarding
    case Retrieve => s.retrieving > 0
    case Serve(r, capacity, moved) => r in s.serving && Enabled(s.driver, Deliver(capacity, moved))
    case Requeue(r, _) => r in s.requeuing
    case Cancel(i) => i < |s.pended|
  }

  /** The step queues an operation, and its dispatch handler goes on to look for a request. */
  predicate Queues(d: Driver, step: Step)
  {
    step.Enqueue? && d.vhfHandle && step.added
  }

  function Do(s: Requests, m: Move): Requests
    requires Can(s, m)
  {
    match m
    case DriverMoves(step) =>
      s.(driver := Apply(s.driver, step), retrieving := s.retrieving + if Queues(s.driver, step) then 1 else 0)
    case Ask => s.(asking := s.asking + {s.asked}, asked := s.asked + 1)
    case Try(r, capacity, moved) =>
      if s.driver.waiting == [] then s.(asking := s.asking - {r}, forwarding := s.forwarding + {r})
      else s.(asking := s.asking - {r}, answers := s.answers + [r],
              driver := Apply(s.driver, Deliver(capacity, moved)))
    case Forward(r, ok) =>
      if ok then s.(forwarding := s.forwarding - {r}, pended := s.pended + [r])
      else s.(forwarding := s.forwarding - {r}, answers := s.answers + [r])
    case Retrieve =>
      if s.pended == [] then s.(retrieving := s.retrieving - 1)
      else s.(retrieving := s.retrieving - 1, pended := s.pended[1..], serving := s.serving + {s.pended[0]})
    case Serve(r, capacity, moved) =>
      if s.driver.waiting == [] then s.(serving := s.serving - {r}, requeuing := s.requeuing + {r})
      else s.(serving := s.serving - {r}, answers := s.answers + [r],
              driver := Apply(s.driver, Deliver(capacity, moved)))
    case Requeue(r, ok) =>
      // To the head of the queue.
      if ok then s.(requeuing := s.requeuing - {r}, pended := [r] + s.pended)
      else s.(requeuing := s.requeuing - {r}, answers := s.answers + [r])
    case Cancel(i) => s.(pended := Without(s.pended, i), answers := s.answers + [s.pended[i]])
  }

  predicate Start(s: Requests)
  {
    Initial(s.driver) && s == Requests(s.driver, {}, {}, [], 0, {}, {}, 0, [])
  }

  /** The moves that lead through `states`. */
  ghost predicate Leads(states: seq<Requests>, moves: seq<Move>)
  {
    && |states| == |moves| + 1
    && forall i | 0 <= i < |moves| :: Can(states[i], moves[i]) && states[i + 1] == Do(states[i], moves[i])
  }

  // ---------------------------------------------------------------- requests are conserved

  function InSet(r: nat, us: set<nat>): nat
  {
    if r in us then 1 else 0
  }

  /** How many places hold request `r`, each of its completions counted. */
  function RequestPlaces(s: Requests, r: nat): nat
  {
    InSet(r, s.asking) + InSet(r, s.forwarding) + multiset(s.pended)[r] +
    InSet(r, s.serving) + InSet(r, s.requeuing) + multiset(s.answers)[r]
  }

  ghost predicate OnePlaceEach(s: Requests)
  {
    forall r: nat :: RequestPlaces(s, r) == if r < s.asked then 1 else 0
  }

  ghost predicate RequestsInv(s: Requests)
  {
    Inv(s.driver) && OnePlaceEach(s)
  }

  lemma CountPrepend(us: seq<nat>, x: nat, u: nat)
    ensures multiset([x] + us)[u] == multiset(us)[u] + if u == x then 1 else 0
  {
  }

  lemma AnswerKeepsPlace(s: Requests, m: Move, r: nat)
    requires (m.Try? || m.Serve?) && Can(s, m) && RequestPlaces(s, r) == if r < s.asked then 1 else 0
    ensures RequestPlaces(Do(s, m), r) == if r < s.asked then 1 else 0
  {
    CountAppend(s.answers, m.request, r);
  }

  lemma PendKeepsPlace(s: Requests, m: Move, r: nat)
    requires (m.Forward? || m.Requeue?) && Can(s, m) && RequestPlaces(s, r) == if r < s.asked then 1 else 0
    ensures RequestPlaces(Do(s, m), r) == if r < s.asked then 1 else 0
  {
    CountAppend(s.pended, m.request, r);
    CountPrepend(s.pended, m.request, r);
    CountAppend(s.answers, m.request, r);
  }

  lemma UnpendKeepsPlace(s: Requests, m: Move, r: nat)
    requires (m.Retrieve? || m.Cancel?) && Can(s, m) && RequestPlaces(s, r) == if r < s.asked then 1 else 0
    ensures RequestPlaces(Do(s, m), r) == if r < s.asked then 1 else 0
  {
    if m.Cancel? {
      CountWithout(s.pended, m.index, r);
      CountAppend(s.answers, s.pended[m.index], r);
    } else if s.pended != [] {
      CountWithout(s.pended, 0, r);
      assert s.pended[1..] == Without(s.pended, 0);
    }
  }

  lemma MoveKeepsPlace(s: Requests, m: Move, r: nat)
    requires Can(s, m) && RequestPlaces(s, r) == if r < s.asked then 1 else 0
    ensures RequestPlaces(Do(s, m), r) == if r < Do(s, m).asked then 1 else 0
  {
    match m
    case Try(_, _, _) => AnswerKeepsPlace(s, m, r);
    case Serve(_, _, _) => AnswerKeepsPlace(s, m, r);
    case Forward(_, _) => PendKeepsPlace(s, m, r);
    case Requeue(_, _) => PendKeepsPlace(s, m, r);
    case Retrieve => UnpendKeepsPlace(s, m, r);
    case Cancel(_) => UnpendKeepsPlace(s, m, r);
    case _ =>
  }

  lemma MoveKeepsDriver(s: Requests, m: Move)
    requires Inv(s.driver) && Can(s, m)
    ensures Inv(Do(s, m).driver)
  {
    match m
    case DriverMoves(step) => StepKeepsInv(s.driver, step);
    case Try(_, capacity, moved) => StepKeepsInv(s.driver, Deliver(capacity, moved));
    case Serve(_, capacity, moved) => StepKeepsInv(s.driver, Deliver(capacity, moved));
    case _ =>
  }

  lemma MoveKeepsInv(s: Requests, m: Move)
    requires RequestsInv(s) && Can(s, m)
    ensures RequestsInv(Do(s, m)) && s.answers <= Do(s, m).answers
  {
    MoveKeepsDriver(s, m);
    forall r: nat ensures RequestPlaces(Do(s, m), r) == if r < Do(s, m).asked then 1 else 0 {
      MoveKeepsPlace(s, m, r);
    }
  }

  lemma StartInv(s: Requests)
    requires Start(s)
    ensures RequestsInv(s) && !Gap(s)
  {
    InitialInv(s.driver);
  }

  lemma {:induction false} LeadsInv(states: seq<Requests>, moves: seq<Move>)
    requires Leads(states, moves) && RequestsInv(states[0])
    ensures RequestsInv(states[|moves|])
  {
    var n := |moves|;
    if n == 0 {
    } else {
      LeadsInv(states[..n], moves[..n - 1]);
      MoveKeepsInv(states[n - 1], moves[n - 1]);
    }
  }

  /**
   In every run each get-next request that came in is with one handler, pended, or answered; it has
   been answered at most once, and exactly once when no handler and no queue has it any more.
   */
  lemma RequestsConserved(states: seq<Requests>, moves: seq<Move>, r: nat)
    requires Leads(states, moves) && Start(states[0])
    ensures var s := states[|moves|];
            && RequestPlaces(s, r) == (if r < s.asked then 1 else 0)
            && multiset(s.answers)[r] <= 1
            && (r < s.asked && r !in s.asking + s.forwarding + s.serving + s.requeuing && r !in s.pended
                ==> multiset(s.answers)[r] == 1)
  {
    StartInv(states[0]);
    LeadsInv(states, moves);
    var s := states[|moves|];
    assert RequestPlaces(s, r) == if r < s.asked then 1 else 0;
    CountIn(s.pended, r);
  }

  /** Requests are taken out in the order in which they were pended; one put back stays the first. */
  lemma PendedInOrder(s: Requests, m: Move)
    requires Can(s, m)
    ensures m.Retrieve? && s.pended != [] ==>
              s.pended == [s.pended[0]] + Do(s, m).pended && Do(s, m).serving == s.serving + {s.pended[0]}
    ensures m.Forward? && m.ok ==> Do(s, m).pended == s.pended + [m.request]
    ensures m.Requeue? && m.ok ==> Do(s, m).pended == [m.request] + s.pended
    ensures m.DriverMoves? || m.Ask? || m.Try? || m.Serve? ==> Do(s, m).pended == s.pended
  {
  }

  // ---------------------------------------------------------------- waiting beside a pended request

  /** A request is pended, and more operations wait than dispatch handlers are on their way to serve. */
  predicate Gap(s: Requests)
  {
    s.pended != [] && |s.driver.waiting| > s.retrieving + |s.serving|
  }

  /** No handler stands in one of the windows. */
  predicate Quiet(s: Requests)
  {
    s.asking == {} && s.forwarding == {} && s.retrieving == 0 && s.serving == {} && s.requeuing == {}
  }

  predicate Fails(d: Driver, capacity: nat, moved: bool)
    requires Known(d) && d.waiting != []
  {
    capacity < EventNeeds(d.ops[d.waiting[0]]) || !moved
  }

  /**
   How a gap opens: a request is pended, or put back, although an operation has been queued
   meanwhile whose dispatch handler has already looked for a request; or a pended request is used
   up by a delivery that fails while another one is pended.
   */
  predicate Opens(s: Requests, m: Move)
    requires Can(s, m)
  {
    match m
    case Forward(_, ok) => ok && s.pended == [] && |s.driver.waiting| > s.retrieving + |s.serving|
    case Requeue(_, ok) => ok && s.pended == [] && |s.driver.waiting| > s.retrieving + |s.serving|
    case Serve(_, capacity, moved) =>
      && s.driver.waiting != [] && Fails(s.driver, capacity, moved)
      && s.pended != [] && |s.driver.waiting| == s.retrieving + |s.serving|
    case _ => false
  }

  /**
   How it closes: the file is closed; another get-next takes the one operation that nobody was
   going to serve; or the last pended request is taken out or cancelled.
   */
  predicate Closes(s: Requests, m: Move)
    requires Can(s, m)
  {
    match m
    case DriverMoves(step) => step.Close?
    case Try(_, capacity, moved) =>
      && s.driver.waiting != [] && !Fails(s.driver, capacity, moved)
      && |s.driver.waiting| == s.retrieving + |s.serving| + 1
    case Retrieve => |s.pended| == 1
    case Cancel(_) => |s.pended| == 1
    case _ => false
  }

  lemma WaitingAfter(d: Driver, step: Step)
    requires Enabled(d, step) && !step.Deliver?
    ensures |Apply(d, step).waiting|
         == if Queues(d, step) then |d.waiting| + 1 else if step.Close? then 0 else |d.waiting|
  {
  }

  lemma DeliveryAfter(d: Driver, capacity: nat, moved: bool)
    requires Enabled(d, Deliver(capacity, moved)) && d.waiting != []
    ensures |Apply(d, Deliver(capacity, moved)).waiting|
         == if Fails(d, capacity, moved) then |d.waiting| else |d.waiting| - 1
  {
  }

  /** A pended request is with no handler. */
  lemma PendedNotServing(s: Requests)
    requires RequestsInv(s) && s.pended != []
    ensures s.pended[0] !in s.serving
  {
    CountIn(s.pended, s.pended[0]);
    assert RequestPlaces(s, s.pended[0]) == if s.pended[0] < s.asked then 1 else 0;
  }

  /** How the two sides of a gap change. */
  lemma SidesAfter(s: Requests, m: Move)
    requires RequestsInv(s) && Can(s, m)
    ensures m.Retrieve? ==>
              Do(s, m).retrieving + |Do(s, m).serving|
              == s.retrieving + |s.serving| - if s.pended == [] then 1 else 0
    ensures m.Serve? ==> |Do(s, m).serving| == |s.serving| - 1
  {
    if m.Retrieve? && s.pended != [] {
      PendedNotServing(s);
    }
  }

  lemma MovesBetween(s: Requests, m: Move)
    requires RequestsInv(s) && Can(s, m)
    ensures !Gap(s) ==> (Gap(Do(s, m)) <==> Opens(s, m))
    ensures Gap(s) ==> (!Gap(Do(s, m)) <==> Closes(s, m))
    ensures Opens(s, m) ==> !Gap(s)
  {
    SidesAfter(s, m);
    match m
    case DriverMoves(step) => WaitingAfter(s.driver, step);
    case Try(_, capacity, moved) =>
      if s.driver.waiting != [] {
        DeliveryAfter(s.driver, capacity, moved);
      }
    case Serve(_, capacity, moved) =>
      if s.driver.waiting != [] {
        DeliveryAfter(s.driver, capacity, moved);
      }
    case _ =>
  }

  /** A gap opens exactly by such a move. */
  lemma OpensGap(s: Requests, m: Move)
    requires RequestsInv(s) && Can(s, m)
    ensures Opens(s, m) <==> !Gap(s) && Gap(Do(s, m))
  {
    MovesBetween(s, m);
  }

  /** And where there is one, it closes exactly by such a move. */
  lemma ClosesGap(s: Requests, m: Move)
    requires RequestsInv(s) && Can(s, m) && Gap(s)
    ensures Closes(s, m) <==> !Gap(Do(s, m))
  {
    MovesBetween(s, m);
  }

  /** The move at `k` opens a gap and none after it closes one. */
  ghost predicate OpenedAt(states: seq<Requests>, moves: seq<Move>, k: nat)
    requires Leads(states, moves)
  {
    && k < |moves| && Opens(states[k], moves[k])
    && forall j | k < j < |moves| :: !Closes(states[j], moves[j])
  }

  ghost predicate Opened(states: seq<Requests>, moves: seq<Move>)
    requires Leads(states, moves)
  {
    exists k: nat :: OpenedAt(states, moves, k)
  }

  lemma LeadsInit(states: seq<Requests>, moves: seq<Move>)
    requires Leads(states, moves) && moves != []
    ensures Leads(states[..|moves|], moves[..|moves| - 1])
  {
  }

  /** What the last move of a run does to the condition. */
  lemma OpenedStep(states: seq<Requests>, moves: seq<Move>)
    requires Leads(states, moves) && moves != []
    ensures Leads(states[..|moves|], moves[..|moves| - 1])
    ensures var n := |moves|;
            Opened(states, moves) <==>
            || Opens(states[n - 1], moves[n - 1])
            || (Opened(states[..n], moves[..n - 1]) && !Closes(states[n - 1], moves[n - 1]))
  {
    LeadsInit(states, moves);
    var n := |moves|;
    var before, earlier := states[..n], moves[..n - 1];
    if Opens(states[n - 1], moves[n - 1]) {
      assert OpenedAt(states, moves, n - 1);
    }
    if Opened(before, earlier) && !Closes(states[n - 1], moves[n - 1]) {
      var k: nat :| OpenedAt(before, earlier, k);
      OpenedLater(states, moves, k);
    }
    if Opened(states, moves) && !Opens(states[n - 1], moves[n - 1]) {
      var k: nat :| OpenedAt(states, moves, k);
      OpenedEarlier(states, moves, k);
    }
  }

  lemma OpenedLater(states: seq<Requests>, moves: seq<Move>, k: nat)
    requires Leads(states, moves) && moves != [] && Leads(states[..|moves|], moves[..|moves| - 1])
    requires OpenedAt(states[..|moves|], moves[..|moves| - 1], k)
    requires !Closes(states[|moves| - 1], moves[|moves| - 1])
    ensures OpenedAt(states, moves, k)
  {
    var before, earlier := states[..|moves|], moves[..|moves| - 1];
    forall j | k < j < |moves| ensures !Closes(states[j], moves[j]) {
      if j < |moves| - 1 {
        assert !Closes(before[j], earlier[j]);
      }
    }
  }

  lemma OpenedEarlier(states: seq<Requests>, moves: seq<Move>, k: nat)
    requires Leads(states, moves) && moves != [] && Leads(states[..|moves|], moves[..|moves| - 1])
    requires OpenedAt(states, moves, k) && k < |moves| - 1
    ensures OpenedAt(states[..|moves|], moves[..|moves| - 1], k)
    ensures !Closes(states[|moves| - 1], moves[|moves| - 1])
  {
    var before, earlier := states[..|moves|], moves[..|moves| - 1];
    forall j | k < j < |earlier| ensures !Closes(before[j], earlier[j]) {
      assert !Closes(states[j], moves[j]);
    }
  }

  /**
   At the end of a run there is a gap exactly when some move opened one and none has closed one
   since, where opening and closing are told by the state in which the move is made.
   */
  lemma {:induction false} GapIff(states: seq<Requests>, moves: seq<Move>)
    requires Leads(states, moves) && RequestsInv(states[0]) && !Gap(states[0])
    ensures Gap(states[|moves|]) <==> Opened(states, moves)
  {
    var n := |moves|;
    if n == 0 {
    } else {
      OpenedStep(states, moves);
      GapIff(states[..n], moves[..n - 1]);
      LeadsInv(states[..n], moves[..n - 1]);
      MovesBetween(states[n - 1], moves[n - 1]);
    }
  }

  /**
   With no handler in a window, an operation waits beside a pended request exactly when some move
   of the run opened a gap and none has closed one since.
   */
  lemma CoexistIff(states: seq<Requests>, moves: seq<Move>)
    requires Leads(states, moves) && Start(states[0]) && Quiet(states[|moves|])
    ensures states[|moves|].pended != [] && states[|moves|].driver.waiting != [] <==> Opened(states, moves)
  {
    StartInv(states[0]);
    GapIff(states, moves);
  }

  // ---------------------------------------------------------------- it happens, and it lasts

  lemma OneMoreMove(states: seq<Requests>, moves: seq<Move>, m: Move)
    returns (states': seq<Requests>, moves': seq<Move>)
    requires Leads(states, moves) && Can(states[|moves|], m)
    ensures Leads(states', moves') && states'[|moves'|] == Do(states[|moves|], m)
    ensures states'[0] == states[0]
  {
    states', moves' := states + [Do(states[|moves|], m)], moves + [m];
  }

  /** A get-next that finds nothing, a whole dispatch, and then the request is pended. */
  lemma DispatchInWindow(sizes: seq<HidReportSize>) returns (states: seq<Requests>, moves: seq<Move>)
    requires |sizes| == 256
    ensures Leads(states, moves) && Start(states[0])
    ensures var s := states[|moves|];
            Quiet(s) && s.pended == [0] && s.driver.waiting == [0] && s.driver.arriving == {}
  {
    var d2 := Driver(true, 0, sizes, [READY], {}, [0], [], {}, {}, [], [0], []);
    states, moves := DispatchedInWindow(sizes);
    states, moves := OneMoreMove(states, moves, Retrieve);
    assert states[|moves|] == Requests(d2, {}, {0}, [], 0, {}, {}, 1, []);
    states, moves := OneMoreMove(states, moves, Forward(0, true));
  }

  lemma DispatchedInWindow(sizes: seq<HidReportSize>) returns (states: seq<Requests>, moves: seq<Move>)
    requires |sizes| == 256
    ensures Leads(states, moves) && Start(states[0])
    ensures var d2 := Driver(true, 0, sizes, [READY], {}, [0], [], {}, {}, [], [0], []);
            states[|moves|] == Requests(d2, {}, {0}, [], 1, {}, {}, 1, [])
  {
    var d0 := Driver(true, 0, sizes, [], {}, [], [], {}, {}, [], [], []);
    var d1 := Driver(true, 0, sizes, [READY], {0}, [], [], {}, {}, [], [], []);
    states, moves := [Requests(d0, {}, {}, [], 0, {}, {}, 0, [])], [];
    states, moves := OneMoreMove(states, moves, Ask);
    assert states[|moves|] == Requests(d0, {0}, {}, [], 0, {}, {}, 1, []);
    states, moves := OneMoreMove(states, moves, Try(0, EVENT_HEADER, true));
    assert states[|moves|] == Requests(d0, {}, {0}, [], 0, {}, {}, 1, []);
    states, moves := OneMoreMove(states, moves, DriverMoves(ArriveReady));
    assert states[|moves|] == Requests(d1, {}, {0}, [], 0, {}, {}, 1, []);
    states, moves := OneMoreMove(states, moves, DriverMoves(Enqueue(0, true)));
  }

  /** Nothing from outside: no further get-next, operation, cancellation or close. */
  predicate Undisturbed(s: Requests, m: Move)
  {
    !m.Ask? && !m.Cancel? && !(m.DriverMoves? && (Queues(s.driver, m.step) || m.step.Close?))
  }

  lemma UndisturbedStep(s: Requests, m: Move)
    requires Can(s, m) && Quiet(s) && Undisturbed(s, m)
    ensures Quiet(Do(s, m)) && Do(s, m).pended == s.pended && Do(s, m).driver.waiting == s.driver.waiting
  {
  }

  /**
   Then the operation and the request go on waiting, however long the run: nobody brings them
   together before another operation or another get-next comes.
   */
  lemma {:induction false} WaitingLasts(states: seq<Requests>, moves: seq<Move>)
    requires Leads(states, moves) && Quiet(states[0])
    requires forall k | 0 <= k < |moves| :: Undisturbed(states[k], moves[k])
    ensures var last := states[|moves|];
            Quiet(last) && last.pended == states[0].pended && last.driver.waiting == states[0].driver.waiting
  {
    var n := |moves|;
    if n == 0 {
    } else {
      WaitingLasts(states[..n], moves[..n - 1]);
      UndisturbedStep(states[n - 1], moves[n - 1]);
    }
  }
}
