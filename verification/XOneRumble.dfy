/**
 The Xbox One rumble effect: the loop of XOneRumbleThreadProc, which merges repeats without a
 delay into one long wait, against the plain reading of the output report.  Time is in the units
 of the report, 10 ms.
 */
module XOneRumble {
  import opened Arithmetic
  import opened Win32

  datatype Report = Report(
    motorsEnabled: Byte, leftTriggerMotor: Byte, rightTriggerMotor: Byte, leftMotor: Byte, rightMotor: Byte,
    duration: Byte, delay: Byte, repeats: Byte)

  /** What the callback receives: left, right, left trigger, right trigger motor. */
  datatype Level = Level(left: Byte, right: Byte, leftTrigger: Byte, rightTrigger: Byte)

  const OFF: Level := Level(0, 0, 0, 0)

  /** A callback, or time passing in a wait. */
  datatype Action = Motors(level: Level) | Wait(units: nat)

  function OnLevel(r: Report): Level
  {
    Level(if r.motorsEnabled % 2 == 1 then r.leftMotor else 0,
          if r.motorsEnabled / 2 % 2 == 1 then r.rightMotor else 0,
          if r.motorsEnabled / 4 % 2 == 1 then r.leftTriggerMotor else 0,
          if r.motorsEnabled / 8 % 2 == 1 then r.rightTriggerMotor else 0)
  }

  /** The report of a host that wants these levels: the enable bits of the motors that run. */
  function ReportOf(level: Level, duration: Byte, delay: Byte, repeats: Byte): Report
  {
    Report((if level.left != 0 then 1 else 0) + (if level.right != 0 then 2 else 0)
           + (if level.leftTrigger != 0 then 4 else 0) + (if level.rightTrigger != 0 then 8 else 0),
           level.leftTrigger, level.rightTrigger, level.left, level.right, duration, delay, repeats)
  }

  /** Each motor is read from its own field under its own enable bit. */
  lemma OnLevelUndoesReport(level: Level, duration: Byte, delay: Byte, repeats: Byte)
    ensures OnLevel(ReportOf(level, duration, delay, repeats)) == level
  {
    var enabled := ReportOf(level, duration, delay, repeats).motorsEnabled;
    assert enabled % 2 == 1 <==> level.left != 0;
    assert enabled / 2 % 2 == 1 <==> level.right != 0;
    assert enabled / 4 % 2 == 1 <==> level.leftTrigger != 0;
    assert enabled / 8 % 2 == 1 <==> level.rightTrigger != 0;
  }

  // ---------------------------------------------------------------- motor level over time

  /** `units` units of time at one level. */
  function Hold(level: Level, units: nat): (s: seq<Level>)
    ensures |s| == units
  {
    seq(units, _ => level)
  }

  /** The level after some actions. */
  function FinalLevel(before: Level, actions: seq<Action>): Level
  {
    if actions == [] then before
    else
      var last := actions[|actions| - 1];
      if last.Motors? then last.level else FinalLevel(before, actions[..|actions| - 1])
  }

  /** The level in every unit of time that the actions take; callbacks take no time. */
  function Signal(before: Level, actions: seq<Action>): seq<Level>
  {
    if actions == [] then []
    else
      var earlier, last := actions[..|actions| - 1], actions[|actions| - 1];
      Signal(before, earlier) + if last.Wait? then Hold(FinalLevel(before, earlier), last.units) else []
  }

  /** The plain effect: `cycles` times the delay, then the level for the duration, then off. */
  function PlainSignal(before: Level, level: Level, delay: nat, duration: nat, cycles: nat): seq<Level>
    decreases cycles
  {
    if cycles == 0 then []
    else Hold(before, delay) + Hold(level, duration) + PlainSignal(OFF, level, delay, duration, cycles - 1)
  }

  function PlainEffect(before: Level, r: Report): seq<Level>
  {
    PlainSignal(before, OnLevel(r), r.delay, r.duration, r.repeats + 1)
  }

  /** What is left of a signal when a new output report arrives at time `cutoff`. */
  function Cut(s: seq<Level>, cutoff: Option<nat>): seq<Level>
  {
    if cutoff.Some? && cutoff.value < |s| then s[..cutoff.value] else s
  }

  lemma SignalWait(before: Level, actions: seq<Action>, units: nat)
    ensures Signal(before, actions + [Wait(units)])
         == Signal(before, actions) + Hold(FinalLevel(before, actions), units)
    ensures FinalLevel(before, actions + [Wait(units)]) == FinalLevel(before, actions)
  {
    assert (actions + [Wait(units)])[..|actions|] == actions;
  }

  lemma SignalMotors(before: Level, actions: seq<Action>, level: Level)
    ensures Signal(before, actions + [Motors(level)]) == Signal(before, actions)
    ensures FinalLevel(before, actions + [Motors(level)]) == level
  {
    assert (actions + [Motors(level)])[..|actions|] == actions;
  }

  lemma {:induction false} PlainLength(before: Level, level: Level, delay: nat, duration: nat, cycles: nat)
    ensures |PlainSignal(before, level, delay, duration, cycles)| == cycles * (delay + duration)
    decreases cycles
  {
    if cycles == 0 {
    } else {
      PlainLength(OFF, level, delay, duration, cycles - 1);
      assert cycles * (delay + duration) == (cycles - 1) * (delay + duration) + (delay + duration);
    }
  }

  /** Without a delay the cycles run together into one. */
  lemma {:induction false} NoDelayMerges(before: Level, level: Level, duration: nat, cycles: nat)
    ensures PlainSignal(before, level, 0, duration, cycles) == Hold(level, cycles * duration)
    decreases cycles
  {
    if cycles == 0 {
    } else {
      NoDelayMerges(OFF, level, duration, cycles - 1);
      assert cycles * duration == duration + (cycles - 1) * duration;
    }
  }

  /**
   The plain effect moment by moment: in each cycle of delay and duration the level is on after the
   delay; before that it is off, or in the first cycle what it was before the effect.
   */
  lemma {:induction false} PlainSignalAt(before: Level, level: Level, delay: nat, duration: nat, cycles: nat, t: nat)
    requires delay + duration > 0
    requires t < |PlainSignal(before, level, delay, duration, cycles)|
    ensures PlainSignal(before, level, delay, duration, cycles)[t]
         == if t % (delay + duration) >= delay then level else if t < delay then before else OFF
    decreases cycles
  {
    var period := delay + duration;
    if cycles == 0 {
    } else if t < period {
      DivUnique(t, period, 0, t);
      FirstCycleAt(before, level, delay, duration, PlainSignal(OFF, level, delay, duration, cycles - 1), t);
    } else {
      PlainSignalAt(OFF, level, delay, duration, cycles - 1, t - period);
      Shifted(t, period);
    }
  }

  lemma Shifted(t: nat, period: nat)
    requires 0 < period <= t
    ensures (t - period) % period == t % period
  {
    DivUnique(period, period, 1, 0);
    SameRemainder(t, t - period, period);
  }

  lemma FirstCycleAt(before: Level, level: Level, delay: nat, duration: nat, rest: seq<Level>, t: nat)
    requires t < delay + duration
    ensures (Hold(before, delay) + Hold(level, duration) + rest)[t] == if t < delay then before else level
  {
  }

  // ---------------------------------------------------------------- the loop

  /** XONE_TIME_TO_FILETIME: a relative due time in units of 100 ns. */
  function DueTime(units: nat): int
  {
    units * -100000
  }

  /** How long a wait until a relative due time lasts. */
  function WaitUnits(dueTime: int): nat
    requires dueTime <= 0
  {
    -dueTime / 100000
  }

  /** A unit of the report is 10 ms, and the timer counts in units of 100 ns. */
  lemma DueTimeUnits(units: nat)
    ensures -DueTime(units) * 100 == units * 10_000_000
    ensures WaitUnits(DueTime(units)) == units
  {
  }

  lemma MergedDueTime(duration: nat, repeats: nat)
    ensures var dueTime := DueTime(duration) + DueTime(duration) * repeats;
            dueTime <= 0 && WaitUnits(dueTime) == (repeats + 1) * duration
  {
    assert DueTime(duration) * repeats == -100000 * (duration * repeats);
    assert (repeats + 1) * duration == duration * repeats + duration;
  }

  /** Where the loop stands: what was played, followed by the plain rest, is the plain effect. */
  ghost predicate OnTrack(before: Level, r: Report, actions: seq<Action>, rest: seq<Level>, cutoff: Option<nat>)
  {
    && Signal(before, actions) + rest == PlainEffect(before, r)
    && (cutoff.Some? ==> |Signal(before, actions)| <= cutoff.value)
  }

  /** What was played, the level held on, and the rest make up the plain effect. */
  lemma HoldOnTrack(before: Level, r: Report, actions: seq<Action>, units: nat, rest: seq<Level>, cutoff: Option<nat>)
    requires OnTrack(before, r, actions, Hold(FinalLevel(before, actions), units) + rest, cutoff)
    ensures Signal(before, actions + [Wait(units)]) + rest == PlainEffect(before, r)
  {
    SignalWait(before, actions, units);
    var s, level := Signal(before, actions), FinalLevel(before, actions);
    assert s + (Hold(level, units) + rest) == s + Hold(level, units) + rest;
  }

  lemma CutInHold(s: seq<Level>, level: Level, units: nat, rest: seq<Level>, waited: nat)
    requires waited <= units
    ensures Cut(s + (Hold(level, units) + rest), Some(|s| + waited)) == s + Hold(level, waited)
  {
  }

  /** A wait of the loop that a new report cuts short after `waited` units. */
  lemma WaitCutShort(before: Level, r: Report, actions: seq<Action>, units: nat, rest: seq<Level>,
                     cutoff: Option<nat>, waited: nat)
    requires OnTrack(before, r, actions, Hold(FinalLevel(before, actions), units) + rest, cutoff)
    requires waited <= units && cutoff == Some(|Signal(before, actions)| + waited)
    ensures Signal(before, actions + [Wait(waited)]) == Cut(PlainEffect(before, r), cutoff)
  {
    SignalWait(before, actions, waited);
    CutInHold(Signal(before, actions), FinalLevel(before, actions), units, rest, waited);
  }

  /** One wait of the loop, when the plain rest begins with that much time at the current level. */
  lemma WaitOnTrack(before: Level, r: Report, actions: seq<Action>, units: nat, rest: seq<Level>,
                    cutoff: Option<nat>, waited: nat, interrupted: bool)
    requires OnTrack(before, r, actions, Hold(FinalLevel(before, actions), units) + rest, cutoff)
    requires interrupted <==> cutoff.Some? && cutoff.value <= |Signal(before, actions)| + units
    requires waited == if interrupted then cutoff.value - |Signal(before, actions)| else units
    ensures if interrupted then Signal(before, actions + [Wait(waited)]) == Cut(PlainEffect(before, r), cutoff)
            else OnTrack(before, r, actions + [Wait(waited)], rest, cutoff)
  {
    if interrupted {
      WaitCutShort(before, r, actions, units, rest, cutoff, waited);
    } else {
      SignalWait(before, actions, units);
      HoldOnTrack(before, r, actions, units, rest, cutoff);
    }
  }

  /**
   Sets the timer and waits for it or for a new output report, which arrives at time `cutoff`;
   at a tie the report wins.
   */
  method TimedWait(before: Level, report: Report, actions: seq<Action>, elapsed: nat, dueTime: int,
                   cutoff: Option<nat>, ghost units: nat, ghost rest: seq<Level>)
    returns (actions': seq<Action>, elapsed': nat, interrupted: bool)
    requires dueTime <= 0 && WaitUnits(dueTime) == units && elapsed == |Signal(before, actions)|
    requires OnTrack(before, report, actions, Hold(FinalLevel(before, actions), units) + rest, cutoff)
    ensures elapsed' == |Signal(before, actions')|
    ensures FinalLevel(before, actions') == FinalLevel(before, actions) && actions <= actions'
    ensures interrupted ==> Signal(before, actions') == Cut(PlainEffect(before, report), cutoff) && cutoff.Some?
    ensures !interrupted ==> OnTrack(before, report, actions', rest, cutoff)
  {
    interrupted := cutoff.Some? && cutoff.value <= elapsed + WaitUnits(dueTime);
    var waited := if interrupted then cutoff.value - elapsed else WaitUnits(dueTime);
    WaitOnTrack(before, report, actions, units, rest, cutoff, waited, interrupted);
    SignalWait(before, actions, waited);
    actions', elapsed' := actions + [Wait(waited)], elapsed + waited;
  }

  predicate Sounding(r: Report)
  {
    r.duration != 0 && OnLevel(r) != OFF
  }

  /** The motors in the order of their enable bits: left, right, left trigger, right trigger. */
  function Strength(r: Report, motor: nat): Byte
    requires motor < 4
  {
    [r.leftMotor, r.rightMotor, r.leftTriggerMotor, r.rightTriggerMotor][motor]
  }

  function BitWeight(motor: nat): nat
    requires motor < 4
  {
    [0x1, 0x2, 0x4, 0x8][motor]
  }

  /** The report has a duration, and one of the four motors is enabled with a strength other than 0. */
  predicate AsksToRumble(r: Report)
  {
    && r.duration != 0
    && exists motor: nat :: motor < 4 && r.motorsEnabled / BitWeight(motor) % 2 == 1 && Strength(r, motor) != 0
  }

  lemma SoundingIff(r: Report)
    ensures Sounding(r) <==> AsksToRumble(r)
  {
    var e := r.motorsEnabled;
    if OnLevel(r) != OFF {
      var motor := if e / 1 % 2 == 1 && Strength(r, 0) != 0 then 0 else if e / 2 % 2 == 1 && Strength(r, 1) != 0 then 1
                   else if e / 4 % 2 == 1 && Strength(r, 2) != 0 then 2 else 3;
      assert e / BitWeight(motor) % 2 == 1 && Strength(r, motor) != 0;
    }
    if motor: nat :| motor < 4 && e / BitWeight(motor) % 2 == 1 && Strength(r, motor) != 0 {
      assert motor == 0 || motor == 1 || motor == 2 || motor == 3;
    }
  }

  function Rest(r: Report, level: Level, cycles: nat): seq<Level>
  {
    PlainSignal(level, OnLevel(r), r.delay, r.duration, cycles)
  }

  lemma RestSplit(r: Report, level: Level, cycles: nat)
    requires cycles > 0
    ensures Rest(r, level, cycles)
         == Hold(level, r.delay) + (Hold(OnLevel(r), r.duration) + Rest(r, OFF, cycles - 1))
  {
    assert Hold(level, r.delay) + Hold(OnLevel(r), r.duration) + Rest(r, OFF, cycles - 1)
        == Hold(level, r.delay) + (Hold(OnLevel(r), r.duration) + Rest(r, OFF, cycles - 1));
  }

  /** All cycles without a delay are one wait of that many durations. */
  lemma RestMerged(r: Report, cycles: nat)
    requires r.delay == 0 && cycles > 0
    ensures Hold(OnLevel(r), r.duration) + Rest(r, OFF, cycles - 1)
         == Hold(OnLevel(r), cycles * r.duration) + Rest(r, OFF, 0)
  {
    NoDelayMerges(OFF, OnLevel(r), r.duration, cycles - 1);
    assert cycles * r.duration == r.duration + (cycles - 1) * r.duration;
  }

  /** The first half of the loop body: the delay, with `cycles` plain cycles to go. */
  method PlayDelay(before: Level, report: Report, actions: seq<Action>, elapsed: nat,
                   cutoff: Option<nat>, ghost cycles: nat)
    returns (actions': seq<Action>, elapsed': nat, interrupted: bool)
    requires cycles > 0 && elapsed == |Signal(before, actions)|
    requires OnTrack(before, report, actions, Rest(report, FinalLevel(before, actions), cycles), cutoff)
    ensures elapsed' == |Signal(before, actions')| && actions <= actions'
    ensures interrupted ==> Signal(before, actions') == Cut(PlainEffect(before, report), cutoff) && cutoff.Some?
    ensures !interrupted ==>
              OnTrack(before, report, actions',
                      Hold(OnLevel(report), report.duration) + Rest(report, OFF, cycles - 1), cutoff)
  {
    actions', elapsed', interrupted := actions, elapsed, false;
    ghost var rest := Hold(OnLevel(report), report.duration) + Rest(report, OFF, cycles - 1);
    RestSplit(report, FinalLevel(before, actions), cycles);
    if report.delay != 0 {
      actions', elapsed', interrupted :=
        TimedWait(before, report, actions, elapsed, DueTime(report.delay), cutoff, report.delay, rest);
    } else {
      assert Hold(FinalLevel(before, actions), 0) + rest == rest;
    }
  }

  /**
   The second half: motors on, the duration, motors off.  Without a delay all repeats that are
   left become part of this one wait.
   */
  method PlayDuration(before: Level, report: Report, actions: seq<Action>, elapsed: nat, repeats: nat,
                      cutoff: Option<nat>, ghost cycles: nat)
    returns (actions': seq<Action>, elapsed': nat, repeats': nat, interrupted: bool)
    requires cycles > 0 && (report.delay == 0 && repeats != 0 ==> cycles == repeats + 1)
    requires elapsed == |Signal(before, actions)|
    requires OnTrack(before, report, actions,
                     Hold(OnLevel(report), report.duration) + Rest(report, OFF, cycles - 1), cutoff)
    ensures elapsed' == |Signal(before, actions')|
    ensures actions + [Motors(OnLevel(report))] <= actions'
    ensures repeats' == if report.delay == 0 then 0 else repeats
    ensures interrupted ==> Signal(before, actions') == Cut(PlainEffect(before, report), cutoff) && cutoff.Some?
    ensures !interrupted ==>
              && FinalLevel(before, actions') == OFF
              && OnTrack(before, report, actions',
                         Rest(report, OFF, if report.delay == 0 && repeats != 0 then 0 else cycles - 1), cutoff)
  {
    SignalMotors(before, actions, OnLevel(report));
    actions' := actions + [Motors(OnLevel(report))];
    repeats' := repeats;
    var dueTime := DueTime(report.duration);
    ghost var units: nat, left := report.duration, cycles - 1;
    if report.delay == 0 && repeats != 0 {
      MergedDueTime(report.duration, repeats);
      RestMerged(report, cycles);
      dueTime := dueTime + dueTime * repeats;
      repeats' := 0;
      units, left := cycles * report.duration, 0;
    }
    actions', elapsed', interrupted :=
      TimedWait(before, report, actions', elapsed, dueTime, cutoff, units, Rest(report, OFF, left));
    if interrupted {
      return;
    }
    SignalMotors(before, actions', OFF);
    actions' := actions' + [Motors(OFF)];
  }

  /**
   Plays one output report, until it is over or a new one arrives at time `cutoff`.  The level
   over time is that of the plain effect, cut at that moment; left alone, the effect takes
   (Repeat + 1) * (Delay + Duration) units and ends with the motors off.  A report without
   duration or without a running motor turns the motors off at once instead.
   */
  method PlayEffect(report: Report, before: Level, cutoff: Option<nat>) returns (actions: seq<Action>)
    ensures !AsksToRumble(report) ==> actions == [Motors(OFF)]
    ensures AsksToRumble(report) ==> Signal(before, actions) == Cut(PlainEffect(before, report), cutoff)
    ensures cutoff.None? ==> (AsksToRumble(report) <==> exists a :: a in actions && a.Motors? && a.level != OFF)
    ensures AsksToRumble(report) && cutoff.None? ==>
              && FinalLevel(before, actions) == OFF
              && |Signal(before, actions)| == (report.repeats + 1) * (report.delay + report.duration)
  {
    SoundingIff(report);
    var level := OnLevel(report);
    var repeats, i, elapsed: nat := report.repeats, 0, 0;
    actions := [];
    ghost var cycles: nat := report.repeats + 1;
    assert Signal(before, []) + Rest(report, before, cycles) == PlainEffect(before, report);
    while i <= repeats
      invariant i <= repeats + 1
      invariant i == 0 ==> actions == [] && repeats == report.repeats && cycles == repeats + 1
      invariant i > 0 ==> Sounding(report) && FinalLevel(before, actions) == OFF && cycles == repeats + 1 - i
      invariant i > 0 && report.delay == 0 ==> repeats == 0
      invariant i > 0 ==> Motors(level) in actions
      invariant elapsed == |Signal(before, actions)|
      invariant OnTrack(before, report, actions, Rest(report, FinalLevel(before, actions), cycles), cutoff)
      decreases repeats + 1 - i
    {
      if report.duration == 0 || level == OFF {
        actions := actions + [Motors(OFF)];
        return;
      }
      var interrupted;
      ghost var merged := report.delay == 0 && repeats != 0;
      actions, elapsed, interrupted := PlayDelay(before, report, actions, elapsed, cutoff, cycles);
      if interrupted {
        return;
      }
      ghost var start := actions + [Motors(level)];
      actions, elapsed, repeats, interrupted :=
        PlayDuration(before, report, actions, elapsed, repeats, cutoff, cycles);
      assert actions[..|start|] == start && start[|start| - 1] == Motors(level);
      if interrupted {
        return;
      }
      cycles := if merged then 0 else cycles - 1;
      i := i + 1;
    }
    assert Signal(before, actions) + [] == Signal(before, actions);
    PlainLength(before, level, report.delay, report.duration, report.repeats + 1);
  }
}
