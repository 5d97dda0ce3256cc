/**
 Scroll reports of the mouse.  While the host has not enabled the resolution multiplier of an
 axis, scroll input in 1/120 of a detent is gathered until it makes whole ticks.
 */
module MouseScroll {
  import opened Win32

  const WHEEL_DELTA: int := 120

  type Short = x: int | -0x8000 <= x < 0x8000

  /** The scroll fields of the input report. */
  datatype Scroll = Scroll(vertical: Short, horizontal: Short)

  datatype Axes = Axes(multiplier: Byte, vertical: Byte, horizontal: Byte)
  {
    function Accumulator(horizontally: bool): Byte { if horizontally then horizontal else vertical }

    /** The resolution multiplier of the axis is off: two bits of the feature report each. */
    predicate LowResolution(horizontally: bool)
    {
      (if horizontally then multiplier / 4 % 4 else multiplier % 4) == 0
    }
  }

  /** C division and remainder round towards zero. */
  function Ticks(sum: int): int
  {
    if sum >= 0 then sum / WHEEL_DELTA else -(-sum / WHEEL_DELTA)
  }

  function Remainder(sum: int): int
  {
    sum - WHEEL_DELTA * Ticks(sum)
  }

  /** What the host or the caller does. */
  datatype Event = Wheel(value: Short, horizontally: bool) | SetMultiplier(bits: Byte)

  /** The step loses its sign: the remainder is negative and is stored in an unsigned byte. */
  predicate Wraps(s: Axes, e: Event)
  {
    && e.Wheel? && s.LowResolution(e.horizontally)
    && e.value + s.Accumulator(e.horizontally) as int < 0
    && (e.value + s.Accumulator(e.horizontally) as int) % WHEEL_DELTA != 0
  }

  /** Two bits of the multiplier belong to each axis: the lowest ones to the vertical, the next to the horizontal. */
  lemma MultiplierBits(vertical: nat, horizontal: nat, rest: nat, s: Axes)
    requires vertical < 4 && horizontal < 4 && s.multiplier == vertical + 4 * horizontal + 16 * rest
    ensures s.LowResolution(false) <==> vertical == 0
    ensures s.LowResolution(true) <==> horizontal == 0
  {
    assert s.multiplier / 4 == horizontal + 4 * rest;
  }

  class Mouse {
    var ResolutionMultiplier: Byte
    var AccumulatedVScroll: Byte
    var AccumulatedHScroll: Byte

    function State(): Axes
      reads this
    {
      Axes(ResolutionMultiplier, AccumulatedVScroll, AccumulatedHScroll)
    }

    constructor ()
      ensures State() == Axes(0, 0, 0)
    {
      ResolutionMultiplier, AccumulatedVScroll, AccumulatedHScroll := 0, 0, 0;
    }

    /** A write to feature report 18; shorter writes and other reports are refused. */
    method WriteFeature(reportId: Byte, data: seq<Byte>) returns (ok: bool)
      modifies this`ResolutionMultiplier
      ensures ok <==> reportId == 18 && |data| >= 2
      ensures ok ==> State() == NextAxes(old(State()), SetMultiplier(data[1]))
      ensures ResolutionMultiplier == if ok then data[1] else old(ResolutionMultiplier)
    {
      if reportId != 18 || |data| < 2 {
        return false;
      }
      ResolutionMultiplier := data[1];
      return true;
    }

    method ReportScroll(scrollValue: Short, horizontal: bool) returns (report: Scroll)
      modifies this`AccumulatedVScroll, this`AccumulatedHScroll
      ensures State() == NextAxes(old(State()), Wheel(scrollValue, horizontal))
      ensures report == Reported(old(State()), Wheel(scrollValue, horizontal))
      ensures (if horizontal then report.vertical else report.horizontal) == 0
      ensures (if horizontal then ResolutionMultiplier / 4 % 4 else ResolutionMultiplier % 4) != 0 ==>
                && (if horizontal then report.horizontal else report.vertical) == scrollValue
                && State() == old(State())
    {
      report := Scroll(0, 0);
      if horizontal {
        if ResolutionMultiplier / 4 % 4 != 0 {
          report := report.(horizontal := scrollValue);
        } else {
          var sum := scrollValue + AccumulatedHScroll as int;
          report := report.(horizontal := Ticks(sum));
          AccumulatedHScroll := Remainder(sum) % TWO_TO_8;
        }
      } else {
        if ResolutionMultiplier % 4 != 0 {
          report := report.(vertical := scrollValue);
        } else {
          var sum := scrollValue + AccumulatedVScroll as int;
          report := report.(vertical := Ticks(sum));
          AccumulatedVScroll := Remainder(sum) % TWO_TO_8;
        }
      }
    }
  }

  // ---------------------------------------------------------------- runs

  function NextAxes(s: Axes, e: Event): Axes
  {
    match e
    case SetMultiplier(value) => s.(multiplier := value)
    case Wheel(value, horizontally) =>
      if !s.LowResolution(horizontally) then s
      else
        var left := Remainder(value + s.Accumulator(horizontally) as int) % TWO_TO_8;
        if horizontally then s.(horizontal := left) else s.(vertical := left)
  }

  /** In full resolution the value itself, otherwise whole ticks, always within a SHORT. */
  function Reported(s: Axes, e: Event): Scroll
    requires e.Wheel?
  {
    var field: Short := if s.LowResolution(e.horizontally)
                        then Ticks(e.value + s.Accumulator(e.horizontally) as int) else e.value;
    if e.horizontally then Scroll(0, field) else Scroll(field, 0)
  }

  function After(s: Axes, events: seq<Event>): Axes
  {
    if events == [] then s else NextAxes(After(s, events[..|events| - 1]), events[|events| - 1])
  }

  /** The event moves this axis while its multiplier is off. */
  predicate Gathers(s: Axes, e: Event, horizontally: bool)
  {
    e.Wheel? && e.horizontally == horizontally && s.LowResolution(horizontally)
  }

  /** Sum of the inputs that were gathered into ticks. */
  function Input(s: Axes, events: seq<Event>, horizontally: bool): int
  {
    if events == [] then 0
    else
      var before, e := events[..|events| - 1], events[|events| - 1];
      Input(s, before, horizontally) +
      if Gathers(After(s, before), e, horizontally) then e.value else 0
  }

  /** Sum of the ticks reported for them. */
  function Output(s: Axes, events: seq<Event>, horizontally: bool): int
  {
    if events == [] then 0
    else
      var before, e := events[..|events| - 1], events[|events| - 1];
      Output(s, before, horizontally) +
      if !Gathers(After(s, before), e, horizontally) then 0
      else if horizontally then Reported(After(s, before), e).horizontal
      else Reported(After(s, before), e).vertical
  }

  /** Steps on this axis that wrapped. */
  function WrapCount(s: Axes, events: seq<Event>, horizontally: bool): nat
  {
    if events == [] then 0
    else
      var before, e := events[..|events| - 1], events[|events| - 1];
      WrapCount(s, before, horizontally) +
      if Gathers(After(s, before), e, horizontally) && Wraps(After(s, before), e) then 1 else 0
  }

  lemma OneStep(accumulator: Byte, value: Short)
    ensures var sum := value + accumulator as int;
            && -0x8000 <= Ticks(sum) < 0x8000
            && WHEEL_DELTA * Ticks(sum) + Remainder(sum) % TWO_TO_8
            == sum + if sum < 0 && sum % WHEEL_DELTA != 0 then TWO_TO_8 else 0
  {
  }

  /**
   Over any run on either axis, whatever the other axis and the host do: ticks given out and the
   accumulator account for all input, plus 256 for every step that wrapped.
   */
  lemma {:induction false} Conservation(s: Axes, events: seq<Event>, horizontally: bool)
    ensures 120 * Output(s, events, horizontally) + After(s, events).Accumulator(horizontally)
         == Input(s, events, horizontally) + s.Accumulator(horizontally)
            + 256 * WrapCount(s, events, horizontally)
  {
    if events == [] {
    } else {
      var before, e := events[..|events| - 1], events[|events| - 1];
      Conservation(s, before, horizontally);
      if e.Wheel? {
        OneStep(After(s, before).Accumulator(horizontally), e.value);
      }
    }
  }

  /** No step of a run wraps on this axis. */
  ghost predicate NeverWraps(s: Axes, events: seq<Event>, horizontally: bool)
  {
    forall k | 0 <= k < |events| ::
      Gathers(After(s, events[..k]), events[k], horizontally) ==> !Wraps(After(s, events[..k]), events[k])
  }

  /** One more event does not wrap on this axis. */
  predicate StaysExact(s: Axes, e: Event, horizontally: bool)
  {
    Gathers(s, e, horizontally) ==> !Wraps(s, e)
  }

  lemma NeverWrapsStep(s: Axes, before: seq<Event>, e: Event, horizontally: bool)
    ensures NeverWraps(s, before + [e], horizontally) <==>
            NeverWraps(s, before, horizontally) && StaysExact(After(s, before), e, horizontally)
  {
    var events := before + [e];
    assert events[..|before|] == before;
    assert forall k | 0 <= k < |before| :: before[..k] == events[..k] && before[k] == events[k];
  }

  lemma {:induction false} WrapCountZero(s: Axes, events: seq<Event>, horizontally: bool)
    ensures WrapCount(s, events, horizontally) == 0 <==> NeverWraps(s, events, horizontally)
  {
    if events == [] {
    } else {
      var before, e := events[..|events| - 1], events[|events| - 1];
      WrapCountZero(s, before, horizontally);
      NeverWrapsStep(s, before, e, horizontally);
      assert events == before + [e];
    }
  }

  /** Nothing is lost or invented exactly when no step ends below zero between two ticks. */
  lemma ExactlyConserved(s: Axes, events: seq<Event>, horizontally: bool)
    ensures (120 * Output(s, events, horizontally) + After(s, events).Accumulator(horizontally)
             == Input(s, events, horizontally) + s.Accumulator(horizontally))
            <==> NeverWraps(s, events, horizontally)
  {
    Conservation(s, events, horizontally);
    WrapCountZero(s, events, horizontally);
  }

  lemma StepBelowTick(s: Axes, e: Event, horizontally: bool)
    requires s.Accumulator(horizontally) < WHEEL_DELTA
    requires StaysExact(s, e, horizontally)
    ensures NextAxes(s, e).Accumulator(horizontally) < WHEEL_DELTA
  {
    if Gathers(s, e, horizontally) {
      OneStep(s.Accumulator(horizontally), e.value);
    }
  }

  /** Then the accumulator stays below one tick. */
  lemma {:induction false} AccumulatorBelowTick(s: Axes, events: seq<Event>, horizontally: bool)
    requires s.Accumulator(horizontally) < 120 && NeverWraps(s, events, horizontally)
    ensures After(s, events).Accumulator(horizontally) < 120
  {
    if events == [] {
    } else {
      var before, e := events[..|events| - 1], events[|events| - 1];
      assert events == before + [e];
      NeverWrapsStep(s, before, e, horizontally);
      AccumulatorBelowTick(s, before, horizontally);
      StepBelowTick(After(s, before), e, horizontally);
    }
  }

  /** The smallest failure: one step back on a new mouse gives two ticks forward later. */
  lemma ScrollBackGoesForward()
    ensures var s := Axes(0, 0, 0);
            var events := [Wheel(-1, false), Wheel(0, false)];
            Input(s, events, false) == -1 && Output(s, events, false) == 2
  {
    var s, first := Axes(0, 0, 0), [Wheel(-1, false)];
    var events := [Wheel(-1, false), Wheel(0, false)];
    assert events[..1] == first && first[..0] == [];
    assert After(s, first) == Axes(0, 255, 0);
    assert Input(s, first, false) == -1 && Output(s, first, false) == 0;
  }
}
