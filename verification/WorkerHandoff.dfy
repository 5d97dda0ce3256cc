/**
 How output reports reach the LED thread (PS4) and the rumble thread (Xbox One).

 A writer stores the new state under the lock, releases the lock and then sets a manual-reset
 event.  The worker waits for the event, copies the state and resets the event under the same
 lock, and then plays the effect with timed waits that the event cuts short.  Destroying the
 device sets a flag and the event.  Any number of writers may be at work at once.  States are
 numbered in the order in which they were stored; one step here is one atomic action.
 */
module WorkerHandoff {

  datatype Pc =
    | Test                  // the loop condition
    | WaitUpdate            // the infinite wait
    | TestAgain             // the Stopping test after it
    | Copy                  // takes the lock
    | Reset                 // still under the lock
    | Decide
    | OneShot               // one callback, then the next request
    | On                    // callback
    | OnWait                // timed
    | OnTest(woken: bool)
    | Off                   // callback
    | OffWait               // timed
    | OffTest(woken: bool)
    | Exited

  datatype Handoff = Handoff(
    stored: nat,      // number of the shared state
    copied: nat,      // number of the worker's copy
    shown: nat,       // number of the state of the worker's last callback that was not "off"
    event: bool,
    unsignalled: nat, // writers between unlocking and SetEvent
    stopping: bool,
    stopSignalled: bool,
    pc: Pc)

  /** How the worker goes on where that depends on the state or on the time. */
  datatype Choice = PlayOnce | PlayOn | PlayPause | PlayDone

  datatype Step =
    | Store
    | Signal
    | SetStopping
    | SignalStop
    | Worker(choice: Choice)

  predicate WorkerEnabled(s: Handoff)
  {
    !s.pc.Exited? && (s.pc.WaitUpdate? ==> s.event)
  }

  predicate Enabled(s: Handoff, step: Step)
  {
    match step
    case Store => !s.pc.Reset? // the worker holds the lock there
    case Signal => s.unsignalled > 0
    case SetStopping => !s.stopping
    case SignalStop => s.stopping
    case Worker(_) => WorkerEnabled(s)
  }

  function NextPc(s: Handoff, choice: Choice): Pc
  {
    match s.pc
    case Test => if s.stopping then Exited else WaitUpdate
    case WaitUpdate => TestAgain
    case TestAgain => if s.stopping then Exited else Copy
    case Copy => Reset
    case Reset => Decide
    case Decide => if choice.PlayPause? then OffWait else if choice.PlayOn? then On else OneShot
    case OneShot => Test
    case On => OnWait
    case OnWait => OnTest(s.event)   // a timeout if the event is clear
    case OnTest(woken) => if woken || s.stopping then Test else Off
    case Off => if choice.PlayPause? then OffWait else if choice.PlayOn? then On else Test
    case OffWait => OffTest(s.event)
    case OffTest(woken) => if woken || s.stopping then Test else On
    case Exited => Exited
  }

  function Apply(s: Handoff, step: Step): Handoff
    requires Enabled(s, step)
  {
    match step
    case Store => s.(stored := s.stored + 1, unsignalled := s.unsignalled + 1)
    case Signal => s.(event := true, unsignalled := s.unsignalled - 1)
    case SetStopping => s.(stopping := true)
    case SignalStop => s.(event := true, stopSignalled := true)
    case Worker(choice) =>
      s.(pc := NextPc(s, choice),
         copied := if s.pc.Copy? then s.stored else s.copied,
         event := s.event && !s.pc.Reset?,
         shown := if s.pc.On? || s.pc.OneShot? then s.copied else s.shown)
  }

  predicate Initial(s: Handoff)
  {
    s == Handoff(0, 0, 0, false, 0, false, false, Test)
  }

  ghost predicate Next(s: Handoff, s': Handoff)
  {
    exists step :: Enabled(s, step) && s' == Apply(s, step)
  }

  ghost predicate IsRun(run: seq<Handoff>)
  {
    && |run| > 0 && Initial(run[0])
    && forall i | 0 <= i < |run| - 1 :: Next(run[i], run[i + 1])
  }

  // ---------------------------------------------------------------- the invariant

  /** The worker's copy is current, or it will hear of the newer state. */
  ghost predicate NoLostUpdate(s: Handoff)
  {
    && s.copied <= s.stored
    && (s.pc.Reset? ==> s.copied == s.stored)
    && (s.copied < s.stored ==> s.event || s.unsignalled > 0)
  }

  /** The worker does not sleep on a cleared event once the stop has been signalled. */
  ghost predicate NoLostStop(s: Handoff)
  {
    && (s.stopSignalled || s.pc.Exited? ==> s.stopping)
    && (s.stopSignalled && s.pc.WaitUpdate? ==> s.event)
  }

  /** Outside the playing of an effect, the copied state was shown, or a newer one is announced. */
  ghost predicate Shown(s: Handoff)
  {
    && (s.pc.Test? || s.pc.WaitUpdate? || s.pc.TestAgain? || s.pc.Copy? ==>
          s.shown == s.copied || s.event || s.stopping)
    && (s.pc.OnWait? || s.pc.OnTest? || s.pc.Off? ==> s.shown == s.copied)
    && ((s.pc.OnTest? || s.pc.OffTest?) && s.pc.woken ==> s.event)
  }

  ghost predicate Inv(s: Handoff)
  {
    NoLostUpdate(s) && NoLostStop(s) && Shown(s)
  }

  lemma StepKeepsInv(s: Handoff, step: Step)
    requires Inv(s) && Enabled(s, step)
    ensures Inv(Apply(s, step))
  {
  }

  lemma {:induction false} RunInv(run: seq<Handoff>, i: nat)
    requires IsRun(run) && i < |run|
    ensures Inv(run[i])
  {
    if i == 0 {
    } else {
      RunInv(run, i - 1);
      assert Next(run[i - 1], run[i - 1 + 1]);
      var step :| Enabled(run[i - 1], step) && run[i] == Apply(run[i - 1], step);
      StepKeepsInv(run[i - 1], step);
    }
  }

  /**
   In every run, a worker whose copy is out of date finds the event set, or a writer is about to
   set it; so when it sleeps undisturbed it has copied and shown the latest state.
   */
  lemma UpdatesArrive(run: seq<Handoff>, i: nat)
    requires IsRun(run) && i < |run|
    ensures run[i].copied < run[i].stored ==> run[i].event || run[i].unsignalled > 0
    ensures !WorkerEnabled(run[i]) && run[i].unsignalled == 0 && !run[i].stopping ==>
              run[i].copied == run[i].stored && run[i].shown == run[i].stored
  {
    RunInv(run, i);
  }

  // ---------------------------------------------------------------- stopping

  /** Steps of its own that a worker can still take once Stopping is set. */
  function Rank(pc: Pc): nat
  {
    match pc
    case Exited => 0
    case Test => 1
    case TestAgain => 1
    case WaitUpdate => 2
    case OneShot => 2
    case OnTest(_) => 2
    case OffTest(_) => 2
    case OnWait => 3
    case OffWait => 3
    case On => 4
    case Off => 5
    case Decide => 6
    case Reset => 7
    case Copy => 8
  }

  lemma StopStep(s: Handoff, step: Step)
    requires Inv(s) && Enabled(s, step) && s.stopSignalled
    ensures Apply(s, step).stopSignalled
    ensures if step.Worker? then Rank(Apply(s, step).pc) < Rank(s.pc) else Apply(s, step).pc == s.pc
    ensures WorkerEnabled(s) <==> Rank(s.pc) > 0
  {
  }

  /** The worker's own steps in a run. */
  function WorkerSteps(steps: seq<Step>): nat
  {
    if steps == [] then 0
    else WorkerSteps(steps[..|steps| - 1]) + if steps[|steps| - 1].Worker? then 1 else 0
  }

  /** `states` is what the steps lead through. */
  ghost predicate Leads(states: seq<Handoff>, steps: seq<Step>)
  {
    && |states| == |steps| + 1
    && forall i | 0 <= i < |steps| :: Enabled(states[i], steps[i]) && states[i + 1] == Apply(states[i], steps[i])
  }

  /**
   Once the stop has been signalled the worker is never blocked until it exits, and it exits
   within eight steps of its own, whatever the writers do, even if it resets the event that
   signalled the stop.
   */
  lemma {:induction false} WorkerExits(states: seq<Handoff>, steps: seq<Step>)
    requires Leads(states, steps) && Inv(states[0]) && states[0].stopSignalled
    ensures var last := states[|steps|];
            && Inv(last) && last.stopSignalled
            && (WorkerEnabled(last) <==> !last.pc.Exited?)
            && WorkerSteps(steps) + Rank(last.pc) <= 8
  {
    var n := |steps|;
    if n == 0 {
    } else {
      WorkerExits(states[..n], steps[..n - 1]);
      StepKeepsInv(states[n - 1], steps[n - 1]);
      StopStep(states[n - 1], steps[n - 1]);
    }
  }

  // ---------------------------------------------------------------- taking up an update

  /** Steps of its own that a worker can still take before it copies, once the event is set. */
  function UpdateRank(pc: Pc): nat
  {
    match pc
    case Copy => 0
    case Exited => 0
    case Reset => 0
    case TestAgain => 1
    case WaitUpdate => 2
    case Test => 3
    case OneShot => 4
    case OnTest(woken) => if woken then 4 else 8
    case OffTest(woken) => if woken then 4 else 7
    case OnWait => 5
    case OffWait => 5
    case On => 6
    case Off => 7
    case Decide => 7
  }

  /** The worker is on its way to the next copy, with the event set. */
  predicate OnItsWay(s: Handoff)
  {
    s.event && !s.pc.Copy? && !s.pc.Reset? && !s.pc.Exited?
  }

  lemma WayStep(s: Handoff, step: Step)
    requires OnItsWay(s) && Enabled(s, step)
    ensures WorkerEnabled(s) && Apply(s, step).event
    ensures if step.Worker? then UpdateRank(Apply(s, step).pc) < UpdateRank(s.pc) else Apply(s, step).pc == s.pc
  {
  }

  /**
   Once the event is set, the worker is never blocked, and within eight steps of its own it copies
   the state, or exits: no effect, however long, keeps it from an update.
   */
  lemma {:induction false} UpdateTakenUp(states: seq<Handoff>, steps: seq<Step>)
    requires Leads(states, steps) && OnItsWay(states[0])
    requires forall k | 0 <= k < |steps| :: OnItsWay(states[k])
    ensures WorkerSteps(steps) + UpdateRank(states[|steps|].pc) <= 8
    ensures OnItsWay(states[|steps|]) ==> WorkerEnabled(states[|steps|])
    ensures !OnItsWay(states[|steps|]) ==> states[|steps|].pc.Copy? || states[|steps|].pc.Exited?
  {
    var n := |steps|;
    if n == 0 {
    } else {
      UpdateTakenUp(states[..n], steps[..n - 1]);
      WayStep(states[n - 1], steps[n - 1]);
    }
  }

  /** And the copy is of the state stored last. */
  lemma CopyIsLatest(s: Handoff, choice: Choice)
    requires s.pc.Copy?
    ensures Apply(s, Worker(choice)).copied == s.stored && Apply(s, Worker(choice)).pc.Reset?
  {
  }

  /** A worker that is just about to reset the event erases the stop signal. */
  lemma StopSignalCanBeErased(s: Handoff)
    requires Inv(s) && s.pc.Reset? && s.stopSignalled
    ensures var s' := Apply(s, Worker(PlayOnce));
            !s'.event && s'.stopSignalled && Rank(s'.pc) == 6
  {
  }

  lemma OneMoreStep(states: seq<Handoff>, steps: seq<Step>, step: Step)
    returns (states': seq<Handoff>, steps': seq<Step>)
    requires Leads(states, steps) && Enabled(states[|steps|], step)
    ensures Leads(states', steps') && states'[0] == states[0] && states'[|steps'|] == Apply(states[|steps|], step)
  {
    states', steps' := states + [Apply(states[|steps|], step)], steps + [step];
  }

  /** A worker that has copied a new state and has yet to reset the event. */
  lemma CopyHappens() returns (states: seq<Handoff>, steps: seq<Step>)
    ensures Leads(states, steps) && Initial(states[0])
    ensures states[|steps|] == Handoff(1, 1, 0, true, 0, false, false, Reset)
  {
    states, steps := [Handoff(0, 0, 0, false, 0, false, false, Test)], [];
    states, steps := OneMoreStep(states, steps, Store);
    states, steps := OneMoreStep(states, steps, Signal);
    states, steps := OneMoreStep(states, steps, Worker(PlayOnce));
    states, steps := OneMoreStep(states, steps, Worker(PlayOnce));
    assert states[|steps|] == Handoff(1, 0, 0, true, 0, false, false, TestAgain);
    states, steps := OneMoreStep(states, steps, Worker(PlayOnce));
    states, steps := OneMoreStep(states, steps, Worker(PlayOnce));
  }

  /** It does happen: the device is destroyed while the worker takes up a new state. */
  lemma ErasureHappens() returns (states: seq<Handoff>, steps: seq<Step>)
    ensures Leads(states, steps) && Initial(states[0])
    ensures var last := states[|steps|];
            last.stopSignalled && !last.event && !last.pc.Exited?
  {
    states, steps := CopyHappens();
    states, steps := OneMoreStep(states, steps, SetStopping);
    states, steps := OneMoreStep(states, steps, SignalStop);
    states, steps := OneMoreStep(states, steps, Worker(PlayOnce));
  }
}
