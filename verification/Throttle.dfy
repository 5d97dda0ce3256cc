/**
 The throttling timer of the read thread, with time.

 The timer is a manual-reset timer: setting it clears its signal and starts the period anew.
 The read thread sets it after each callback and waits for it; WinUHidSubmitInputReport sets the
 same timer at any time.  Times are in units of 100 ns, as in SetWaitableTimer.
 */
module Throttle {

  /** Where the read thread is. */
  datatype Pc = Ready | InCallback | Arming | Waiting

  datatype Clocked = Clocked(
    now: nat,
    period: nat,
    pc: Pc,
    due: nat,               // when the timer fires, if it was set at all
    armed: bool,
    fired: bool,
    callbacks: seq<nat>)    // start times of the read thread's callbacks

  datatype Step =
    | Tick(time: nat)
    | StartCallback
    | CallbackReturns
    | ReaderArms
    | ReaderWakes
    | SubmitArms            // by any WinUHidSubmitInputReport call, at any time
    | TimerFires

  predicate Enabled(s: Clocked, step: Step)
  {
    match step
    case Tick(_) => true
    case StartCallback => s.pc.Ready?
    case CallbackReturns => s.pc.InCallback?
    case ReaderArms => s.pc.Arming?
    case ReaderWakes => s.pc.Waiting? && s.fired
    case SubmitArms => true
    case TimerFires => s.armed && s.now >= s.due
  }

  /** SetWaitableTimer with the throttling period. */
  function Arm(s: Clocked): Clocked
  {
    s.(due := s.now + s.period, armed := true, fired := false)
  }

  function Apply(s: Clocked, step: Step): Clocked
    requires Enabled(s, step)
  {
    match step
    case Tick(time) => s.(now := s.now + time)
    case StartCallback => s.(pc := InCallback, callbacks := s.callbacks + [s.now])
    case CallbackReturns => s.(pc := Arming)
    case ReaderArms => Arm(s).(pc := Waiting)
    case ReaderWakes => s.(pc := Ready)
    case SubmitArms => Arm(s)
    case TimerFires => s.(fired := true)
  }

  predicate Initial(s: Clocked)
  {
    s.pc.Ready? && !s.armed && !s.fired && s.callbacks == []
  }

  ghost predicate Next(s: Clocked, s': Clocked)
  {
    exists step :: Enabled(s, step) && s' == Apply(s, step)
  }

  ghost predicate IsRun(run: seq<Clocked>)
  {
    && |run| > 0 && Initial(run[0])
    && forall i | 0 <= i < |run| - 1 :: Next(run[i], run[i + 1])
  }

  function LastCallback(s: Clocked): nat
  {
    if s.callbacks == [] then 0 else s.callbacks[|s.callbacks| - 1]
  }

  ghost predicate Spaced(times: seq<nat>, period: nat)
  {
    forall k | 0 <= k < |times| - 1 :: times[k] + period <= times[k + 1]
  }

  /**
   A timer that the read thread waits for was last set after its callback started, and a signal
   means that a whole period has passed since the timer was last set.
   */
  ghost predicate Inv(s: Clocked)
  {
    && Spaced(s.callbacks, s.period)
    && (s.callbacks != [] ==> LastCallback(s) <= s.now)
    && (s.fired ==> s.armed && s.due <= s.now)
    && (s.pc.Waiting? ==> s.callbacks != [] && s.armed && LastCallback(s) + s.period <= s.due)
    && (s.pc.Ready? && s.callbacks != [] ==> LastCallback(s) + s.period <= s.now)
    && (s.pc.InCallback? || s.pc.Arming? ==> s.callbacks != [])
  }

  lemma StepKeepsInv(s: Clocked, step: Step)
    requires Inv(s) && Enabled(s, step)
    ensures Inv(Apply(s, step)) && Apply(s, step).period == s.period
  {
  }

  lemma {:induction false} RunInv(run: seq<Clocked>, i: nat)
    requires IsRun(run) && i < |run|
    ensures Inv(run[i]) && run[i].period == run[0].period
  {
    if i == 0 {
    } else {
      RunInv(run, i - 1);
      assert Next(run[i - 1], run[i - 1 + 1]);
      var step :| Enabled(run[i - 1], step) && run[i] == Apply(run[i - 1], step);
      StepKeepsInv(run[i - 1], step);
    }
  }

  /**
   However SubmitInputReport calls re-arm the timer in between, any two callbacks of the read
   thread start at least as many periods apart as there are callbacks from one to the other.
   */
  lemma {:induction false} CallbacksSpaced(run: seq<Clocked>, i: nat, j: nat, k: nat)
    requires IsRun(run) && i < |run| && j <= k < |run[i].callbacks|
    ensures run[i].callbacks[j] + (k - j) * run[0].period <= run[i].callbacks[k]
    decreases k - j
  {
    RunInv(run, i);
    if j == k {
    } else {
      CallbacksSpaced(run, i, j + 1, k);
      assert run[i].callbacks[j] + run[0].period <= run[i].callbacks[j + 1];
      assert (k - j) * run[0].period == (k - j - 1) * run[0].period + run[0].period;
    }
  }
}
