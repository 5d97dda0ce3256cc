/**
 The output reports of the PS4 gamepad and the light bar that its LED thread shows.  A report may
 set the colour, the blink times, both or neither; the thread shows the merged state, blinking
 until the next one comes.
 */
module Ps4Led {
  import opened Arithmetic
  import opened LightBar
  import opened Win32

  /** How long the light is on and off, in units of 10 ms. */
  datatype Blink = Blink(on: Byte, off: Byte)

  datatype LedState = LedState(colour: Led, blink: Blink)

  datatype Rumble = Rumble(left: Byte, right: Byte)

  /** The fields of an output report that its flags mark as valid. */
  datatype Output = Output(rumble: Option<Rumble>, colour: Option<Led>, blink: Option<Blink>)

  const STEADY: Blink := Blink(0, 0)

  const EFFECTS_REPORT: Byte := 5
  const OUTPUT_REPORT_SIZE: nat := 10

  // ---------------------------------------------------------------- the report

  /**
   PS4_OUTPUT_REPORT in memory.  Its six reserved bits do not fit into the byte of the three
   flags, so they start the second one.
   */
  function Decode(r: Bytes): Output
    requires |r| >= OUTPUT_REPORT_SIZE
  {
    Output(if r[0] % 2 == 1 then Some(Rumble(r[4], r[3])) else None,
           if r[0] / 2 % 2 == 1 then Some(Led(r[5], r[6], r[7])) else None,
           if r[0] / 4 % 2 == 1 then Some(Blink(r[8], r[9])) else None)
  }

  /** The report of a host, with zeros in every field that its flags leave out. */
  function Written(o: Output): Bytes
  {
    var motors, led := OrElse(o.rumble, Rumble(0, 0)), OrElse(o.colour, DARK);
    var blink := OrElse(o.blink, STEADY);
    [(if o.rumble.Some? then 1 else 0) + (if o.colour.Some? then 2 else 0) + (if o.blink.Some? then 4 else 0),
     0, 0, motors.right, motors.left, led.red, led.green, led.blue, blink.on, blink.off]
  }

  lemma DecodeUndoesWriting(o: Output)
    ensures |Written(o)| == OUTPUT_REPORT_SIZE && Decode(Written(o)) == o
  {
    var flags := Written(o)[0];
    assert flags % 2 == 1 <==> o.rumble.Some?;
    assert flags / 2 % 2 == 1 <==> o.colour.Some?;
    assert flags / 4 % 2 == 1 <==> o.blink.Some?;
  }

  /** All fields marked as valid, byte by byte. */
  lemma FieldPositions(left: Byte, right: Byte, led: Led, on: Byte, off: Byte)
    ensures Decode([7, 0, 0, right, left, led.red, led.green, led.blue, on, off])
         == Output(Some(Rumble(left, right)), Some(led), Some(Blink(on, off)))
  {
  }

  // ---------------------------------------------------------------- merging the reports

  function LatestColour(outputs: seq<Output>): Led
  {
    if outputs == [] then DARK
    else OrElse(outputs[|outputs| - 1].colour, LatestColour(outputs[..|outputs| - 1]))
  }

  function LatestBlink(outputs: seq<Output>): Blink
  {
    if outputs == [] then STEADY
    else OrElse(outputs[|outputs| - 1].blink, LatestBlink(outputs[..|outputs| - 1]))
  }

  /** What the rumble callback is told: every valid motor state, in order. */
  function Rumbles(outputs: seq<Output>): seq<Rumble>
  {
    if outputs == [] then []
    else
      var o := outputs[|outputs| - 1];
      Rumbles(outputs[..|outputs| - 1]) + AsSeq(o.rumble)
  }

  /** How often the LED thread is told of a new state. */
  function Announcements(outputs: seq<Output>): nat
  {
    if outputs == [] then 0
    else
      var o := outputs[|outputs| - 1];
      Announcements(outputs[..|outputs| - 1]) + if o.colour.Some? || o.blink.Some? then 1 else 0
  }

  /** The merged state is the last valid colour with the last valid blink times, whichever reports they came in. */
  lemma {:induction false} LatestField(outputs: seq<Output>, k: nat)
    requires k < |outputs|
    ensures outputs[k].colour.Some? && (forall j | k < j < |outputs| :: outputs[j].colour.None?)
            ==> LatestColour(outputs) == outputs[k].colour.value
    ensures outputs[k].blink.Some? && (forall j | k < j < |outputs| :: outputs[j].blink.None?)
            ==> LatestBlink(outputs) == outputs[k].blink.value
  {
    if k == |outputs| - 1 {
    } else {
      LatestField(outputs[..|outputs| - 1], k);
    }
  }

  lemma OneMoreReport(outputs: seq<Output>, o: Output)
    ensures LatestColour(outputs + [o]) == OrElse(o.colour, LatestColour(outputs))
    ensures LatestBlink(outputs + [o]) == OrElse(o.blink, LatestBlink(outputs))
    ensures Rumbles(outputs + [o]) == Rumbles(outputs) + AsSeq(o.rumble)
    ensures Announcements(outputs + [o]) == Announcements(outputs) + if o.colour.Some? || o.blink.Some? then 1 else 0
  {
    assert (outputs + [o])[..|outputs|] == outputs;
  }

  class Gamepad {
    const hasLedThread: bool
    const hasRumbleCallback: bool
    var State: LedState
    /** Calls of SetEvent on LedUpdatedEvent, and of the rumble callback. */
    var Announced: nat
    var Rumbled: seq<Rumble>
    ghost var Accepted: seq<Output>

    ghost predicate Valid()
      reads this
    {
      && State == (if hasLedThread then LedState(LatestColour(Accepted), LatestBlink(Accepted))
                   else LedState(DARK, STEADY))
      && Announced == (if hasLedThread then Announcements(Accepted) else 0)
      && Rumbled == if hasRumbleCallback then Rumbles(Accepted) else []
    }

    constructor (ledThread: bool, rumbleCallback: bool)
      ensures Valid() && hasLedThread == ledThread && hasRumbleCallback == rumbleCallback && Accepted == []
    {
      hasLedThread, hasRumbleCallback := ledThread, rumbleCallback;
      State, Announced, Rumbled, Accepted := LedState(DARK, STEADY), 0, [], [];
    }

    /** Passes new LED data to the thread, if there is one. */
    method UpdateLed(o: Output)
      modifies `State, `Announced
      ensures State == if hasLedThread
                       then LedState(OrElse(o.colour, old(State.colour)), OrElse(o.blink, old(State.blink)))
                       else old(State)
      ensures Announced == old(Announced) + if hasLedThread && (o.colour.Some? || o.blink.Some?) then 1 else 0
    {
      if hasLedThread && (o.colour.Some? || o.blink.Some?) {
        if o.colour.Some? {
          State := State.(colour := o.colour.value);
        }
        if o.blink.Some? {
          State := State.(blink := o.blink.value);
        }
        Announced := Announced + 1;
      }
    }

    /** A report that has passed the checks. */
    method Accept(o: Output)
      requires Valid()
      modifies this
      ensures Valid() && Accepted == old(Accepted) + [o]
      ensures Rumbled == old(Rumbled) + (if o.rumble.Some? && hasRumbleCallback then [o.rumble.value] else [])
      ensures State.colour == (if o.colour.Some? && hasLedThread then o.colour.value else old(State.colour))
      ensures State.blink == (if o.blink.Some? && hasLedThread then o.blink.value else old(State.blink))
      ensures Announced > old(Announced) <==> hasLedThread && (o.colour.Some? || o.blink.Some?)
    {
      OneMoreReport(Accepted, o);
      UpdateLed(o);
      if o.rumble.Some? && hasRumbleCallback {
        Rumbled := Rumbled + [o.rumble.value];
      }
      Accepted := Accepted + [o];
    }

    /** A write to the device; `data` starts with the report ID byte. */
    method OutputReport(reportId: Byte, data: Bytes) returns (ok: bool)
      requires Valid()
      modifies this
      ensures Valid()
      ensures ok <==> reportId == EFFECTS_REPORT && |data| >= 1 + OUTPUT_REPORT_SIZE
      ensures Accepted == if ok then old(Accepted) + [Decode(data[1..])] else old(Accepted)
      ensures !ok ==> State == old(State) && Announced == old(Announced) && Rumbled == old(Rumbled)
      ensures ok ==>
                var o := Decode(data[1..]);
                && Rumbled == old(Rumbled) + (if o.rumble.Some? && hasRumbleCallback then [o.rumble.value] else [])
                && State.colour == (if o.colour.Some? && hasLedThread then o.colour.value else old(State.colour))
                && State.blink == (if o.blink.Some? && hasLedThread then o.blink.value else old(State.blink))
                && (Announced > old(Announced) <==> hasLedThread && (o.colour.Some? || o.blink.Some?))
    {
      if reportId != EFFECTS_REPORT || |data| < 1 + OUTPUT_REPORT_SIZE {
        return false;
      }
      Accept(Decode(data[1..]));
      ok := true;
    }
  }

  // ---------------------------------------------------------------- blinking

  /** A callback of the LED thread; times are in milliseconds. */
  datatype Call = Call(time: nat, led: Led)

  /** The light at time `t`: that of the last callback made until then. */
  function Shown(calls: seq<Call>, t: nat): Led
  {
    if calls == [] then DARK
    else
      var last := calls[|calls| - 1];
      if last.time <= t then last.led else Shown(calls[..|calls| - 1], t)
  }

  function OnTime(b: Blink): nat
  {
    10 * b.on
  }

  function OffTime(b: Blink): nat
  {
    10 * b.off
  }

  function Period(b: Blink): nat
  {
    OnTime(b) + OffTime(b)
  }

  /** What the state asks for at time `t`: steady light, or a square wave that begins at `start`. */
  function Wave(s: LedState, start: nat, t: nat): Led
  {
    if t < start then DARK
    else if s.blink == STEADY || (t - start) % Period(s.blink) < OnTime(s.blink) then s.colour
    else DARK
  }

  function PeriodStart(s: LedState, start: nat, k: nat): nat
  {
    NonNegative(k, Period(s.blink));
    start + k * Period(s.blink)
  }

  lemma WaveInPeriod(s: LedState, start: nat, k: nat, x: nat)
    requires s.blink != STEADY && x < Period(s.blink)
    ensures Wave(s, start, PeriodStart(s, start, k) + x) == if x < OnTime(s.blink) then s.colour else DARK
  {
    var period := Period(s.blink);
    NonNegative(k, period);
    DivUnique(k * period + x, period, k, x);
  }

  /** From `start` on and before `until` the callbacks show what was asked for. */
  ghost predicate Follows(s: LedState, start: nat, calls: seq<Call>, until: nat)
  {
    forall t: nat | start <= t < until :: Shown(calls, t) == Wave(s, start, t)
  }

  /** One more callback, when the wave keeps its colour from then until `until`. */
  lemma FollowsOn(s: LedState, start: nat, calls: seq<Call>, now: nat, led: Led, until: nat)
    requires start <= now && Follows(s, start, calls, now)
    requires forall t: nat | now <= t < until :: Wave(s, start, t) == led
    ensures Follows(s, start, calls + [Call(now, led)], until)
  {
    var calls' := calls + [Call(now, led)];
    assert calls'[..|calls|] == calls;
    forall t: nat | start <= t < until ensures Shown(calls', t) == Wave(s, start, t) {
      assert Shown(calls', t) == if now <= t then led else Shown(calls, t);
    }
  }

  /** Where the lit or the dark half of period `k` begins, and how long it is. */
  function HalfStart(s: LedState, start: nat, k: nat, lit: bool): nat
  {
    PeriodStart(s, start, k) + if lit then 0 else OnTime(s.blink)
  }

  function HalfTime(b: Blink, lit: bool): nat
  {
    if lit then OnTime(b) else OffTime(b)
  }

  /** One half of a period: the callback at its start, of a light that lasts until its end. */
  lemma HalfPeriod(s: LedState, start: nat, calls: seq<Call>, k: nat, lit: bool, until: nat)
    requires s.blink != STEADY && Follows(s, start, calls, HalfStart(s, start, k, lit))
    requires until <= HalfStart(s, start, k, lit) + HalfTime(s.blink, lit)
    ensures Follows(s, start, calls + [Call(HalfStart(s, start, k, lit), if lit then s.colour else DARK)], until)
  {
    var now, led := HalfStart(s, start, k, lit), if lit then s.colour else DARK;
    forall t: nat | now <= t < until ensures Wave(s, start, t) == led {
      WaveInPeriod(s, start, k, t - PeriodStart(s, start, k));
    }
    FollowsOn(s, start, calls, now, led, until);
  }

  /** No callback but the first is made once the next request is there. */
  predicate Stops(calls: seq<Call>, start: nat, cutoff: nat)
  {
    forall k | 0 <= k < |calls| :: calls[k].time == start || calls[k].time < cutoff
  }

  /**
   The LED thread with a state it has taken up at `start`, until the event for the next one is set
   at `cutoff`; at a tie with the end of a wait the event wins.  Until then the light is at every
   moment the one that the state asks for.
   */
  method Show(s: LedState, start: nat, cutoff: nat) returns (calls: seq<Call>)
    ensures Follows(s, start, calls, cutoff)
    ensures forall t: nat | start <= t < cutoff ::
              var on, off := 10 * s.blink.on as nat, 10 * s.blink.off as nat;
              Shown(calls, t) == if on + off == 0 || (t - start) % (on + off) < on then s.colour else Led(0, 0, 0)
    ensures Stops(calls, start, cutoff)
    ensures s.blink == STEADY ==> calls == [Call(start, s.colour)]
  {
    calls := [];
    if s.blink == STEADY {
      FollowsOn(s, start, calls, start, s.colour, cutoff);
      calls := calls + [Call(start, s.colour)];
      return;
    }
    var now := start;
    ghost var k: nat := 0;
    while true
      invariant now == PeriodStart(s, start, k) && (now < cutoff || now == start)
      invariant Follows(s, start, calls, now)
      invariant Stops(calls, start, cutoff)
      decreases cutoff - now
    {
      HalfPeriod(s, start, calls, k, true, Min(cutoff, now + OnTime(s.blink)));
      calls := calls + [Call(now, s.colour)];
      if cutoff <= now + OnTime(s.blink) {
        return;
      }
      now := now + OnTime(s.blink);
      HalfPeriod(s, start, calls, k, false, Min(cutoff, now + OffTime(s.blink)));
      calls := calls + [Call(now, DARK)];
      if cutoff <= now + OffTime(s.blink) {
        return;
      }
      now := now + OffTime(s.blink);
      assert (k + 1) * Period(s.blink) == k * Period(s.blink) + Period(s.blink);
      k := k + 1;
    }
  }

  function Min(a: nat, b: nat): nat
  {
    if a <= b then a else b
  }
}
