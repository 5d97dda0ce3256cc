/**
 The change-only feedback feed of the PS5 gamepad: output reports of the host become callbacks,
 and a callback is made only when a value differs from the last one reported.
 */
module Ps5Feedback {
  import opened LightBar
  import opened Sequences
  import opened Win32

  datatype MotorState = MotorState(right: Byte, left: Byte)

  /** A trigger effect is its type followed by ten bytes of data. */
  type Effect = Bytes

  const NO_EFFECT: Effect := [0, 0, 0, 0, 0, 0, 0, 0, 0, 0, 0]

  /** The fields of an output report that its flags mark as valid. */
  datatype Output = Output(
    lightBar: Option<Led>, player: Option<Byte>, motors: Option<MotorState>, compatible2: bool,
    right: Option<Effect>, left: Option<Effect>, mic: Option<Byte>)

  const EFFECTS_REPORT: Byte := 2
  const OUTPUT_REPORT_SIZE: nat := 47

  predicate Bit(b: Byte, weight: nat)
    requires weight > 0
  {
    b / weight % 2 == 1
  }

  /** PS5_OUTPUT_REPORT, as it is laid out in memory. */
  function Decode(r: Bytes): Output
    requires |r| >= OUTPUT_REPORT_SIZE
  {
    Output(
      if Bit(r[1], 4) then Some(Led(r[44], r[45], r[46])) else None,
      if Bit(r[1], 16) then Some(r[43]) else None,
      if Bit(r[0], 1) || Bit(r[38], 4) then Some(MotorState(r[2], r[3])) else None,
      Bit(r[38], 4),
      if Bit(r[0], 4) then Some(r[10..21]) else None,
      if Bit(r[0], 8) then Some(r[21..32]) else None,
      if Bit(r[1], 1) then Some(r[8]) else None)
  }

  function Flag(raised: bool, weight: Byte): Byte
  {
    if raised then weight else 0
  }

  function Flags0(o: Output): Byte
  {
    Flag(o.motors.Some? && !o.compatible2, 1) + Flag(o.right.Some?, 4) + Flag(o.left.Some?, 8)
  }

  function Flags1(o: Output): Byte
  {
    Flag(o.mic.Some?, 1) + Flag(o.lightBar.Some?, 4) + Flag(o.player.Some?, 16)
  }

  /** What a report can say: the second vibration flag makes the motors valid, and effects have eleven bytes. */
  predicate Sayable(o: Output)
  {
    && (o.compatible2 ==> o.motors.Some?)
    && |OrElse(o.right, NO_EFFECT)| == |OrElse(o.left, NO_EFFECT)| == |NO_EFFECT|
  }

  /** The report of a host, with zeros in every field that its flags leave out. */
  function Written(o: Output): (r: Bytes)
    requires Sayable(o)
    ensures |r| == OUTPUT_REPORT_SIZE
  {
    var motors, led := OrElse(o.motors, MotorState(0, 0)), OrElse(o.lightBar, DARK);
    [Flags0(o), Flags1(o), motors.right, motors.left, 0, 0, 0, 0, OrElse(o.mic, 0), 0] +
    OrElse(o.right, NO_EFFECT) + OrElse(o.left, NO_EFFECT) +
    [0, 0, 0, 0, 0, 0, Flag(o.compatible2, 4), 0, 0, 0, 0, OrElse(o.player, 0), led.red, led.green, led.blue]
  }

  lemma FlagsRead(o: Output)
    ensures Bit(Flags0(o), 1) <==> o.motors.Some? && !o.compatible2
    ensures Bit(Flags0(o), 4) <==> o.right.Some?
    ensures Bit(Flags0(o), 8) <==> o.left.Some?
    ensures Bit(Flags1(o), 1) <==> o.mic.Some?
    ensures Bit(Flags1(o), 4) <==> o.lightBar.Some?
    ensures Bit(Flags1(o), 16) <==> o.player.Some?
  {
  }

  lemma WrittenEffects(o: Output)
    requires Sayable(o)
    ensures Written(o)[10..21] == OrElse(o.right, NO_EFFECT)
    ensures Written(o)[21..32] == OrElse(o.left, NO_EFFECT)
  {
  }

  /** The layout of the report is read as it is written. */
  lemma DecodeUndoesWriting(o: Output)
    requires Sayable(o)
    ensures Decode(Written(o)) == o
  {
    FlagsRead(o);
    WrittenEffects(o);
    var r := Written(o);
    assert r[38] == Flag(o.compatible2, 4);
  }

  /** Which callbacks were registered. */
  datatype Registered = Registered(lightBar: bool, player: bool, rumble: bool, trigger: bool, mic: bool)

  datatype Call =
    | LightBar(led: Led)
    | PlayerLed(value: Byte)
    | Rumble(left: Byte, right: Byte)
    | Trigger(leftEffect: Option<Effect>, rightEffect: Option<Effect>) // None is a NULL pointer
    | MicLed(state: Byte)

  datatype Feedback = Feedback(led: Led, player: Byte, motors: MotorState, right: Effect, left: Effect, mic: Byte)

  const NOTHING: Feedback := Feedback(DARK, 0, MotorState(0, 0), NO_EFFECT, NO_EFFECT, 0)

  /** The amplitude of a motor: legacy reports are shifted by one bit, within a byte. */
  function Amplitude(motor: Byte, compatible2: bool): Byte
  {
    if compatible2 then motor else motor * 2 % TWO_TO_8
  }

  function Level(m: MotorState, compatible2: bool): MotorState
  {
    MotorState(Amplitude(m.right, compatible2), Amplitude(m.left, compatible2))
  }

  predicate NewTrigger(last: Feedback, o: Output)
  {
    (o.right.Some? && o.right.value != last.right) || (o.left.Some? && o.left.value != last.left)
  }

  function LightBarCall(reg: Registered, last: Feedback, o: Output): seq<Call>
  {
    if reg.lightBar && o.lightBar.Some? && o.lightBar.value != last.led then [LightBar(o.lightBar.value)] else []
  }

  function PlayerCall(reg: Registered, last: Feedback, o: Output): seq<Call>
  {
    if reg.player && o.player.Some? && o.player.value != last.player then [PlayerLed(o.player.value)] else []
  }

  function RumbleCall(reg: Registered, last: Feedback, o: Output): seq<Call>
  {
    if reg.rumble && o.motors.Some? && o.motors.value != last.motors
    then [Rumble(Amplitude(o.motors.value.left, o.compatible2), Amplitude(o.motors.value.right, o.compatible2))]
    else []
  }

  function TriggerCall(reg: Registered, last: Feedback, o: Output): seq<Call>
  {
    if reg.trigger && NewTrigger(last, o) then [Trigger(o.left, o.right)] else []
  }

  function MicCall(reg: Registered, last: Feedback, o: Output): seq<Call>
  {
    if reg.mic && o.mic.Some? && o.mic.value != last.mic then [MicLed(o.mic.value)] else []
  }

  /** The callbacks for one report, in the order in which they are made. */
  function Calls(reg: Registered, last: Feedback, o: Output): seq<Call>
  {
    LightBarCall(reg, last, o) + PlayerCall(reg, last, o) + RumbleCall(reg, last, o) +
    TriggerCall(reg, last, o) + MicCall(reg, last, o)
  }

  /** The remembered values: those of the reports that had a callback to tell. */
  function Remember(reg: Registered, last: Feedback, o: Output): Feedback
  {
    Feedback(
      if reg.lightBar then OrElse(o.lightBar, last.led) else last.led,
      if reg.player then OrElse(o.player, last.player) else last.player,
      if reg.rumble then OrElse(o.motors, last.motors) else last.motors,
      if reg.trigger then OrElse(o.right, last.right) else last.right,
      if reg.trigger then OrElse(o.left, last.left) else last.left,
      if reg.mic then OrElse(o.mic, last.mic) else last.mic)
  }

  function LastAfter(reg: Registered, outputs: seq<Output>): Feedback
  {
    if outputs == [] then NOTHING else Remember(reg, LastAfter(reg, Init(outputs)), Last(outputs))
  }

  /** The whole feed for a run of reports on a new gamepad. */
  function Feed(reg: Registered, outputs: seq<Output>): seq<Call>
  {
    if outputs == [] then []
    else Feed(reg, Init(outputs)) + Calls(reg, LastAfter(reg, Init(outputs)), Last(outputs))
  }

  lemma Regroup<T>(s: seq<T>, a: seq<T>, b: seq<T>, c: seq<T>, d: seq<T>, e: seq<T>)
    ensures s + a + b + c + d + e == s + (a + b + c + d + e)
  {
  }

  lemma OneMoreReport(reg: Registered, outputs: seq<Output>, o: Output)
    ensures LastAfter(reg, outputs + [o]) == Remember(reg, LastAfter(reg, outputs), o)
    ensures Feed(reg, outputs + [o]) == Feed(reg, outputs) + Calls(reg, LastAfter(reg, outputs), o)
  {
    assert Init(outputs + [o]) == outputs;
  }

  class Gamepad {
    const registered: Registered
    var LastLedState: Led
    var LastPlayerLedState: Byte
    var LastMotorState: MotorState
    var LastRightTriggerEffect: Effect
    var LastLeftTriggerEffect: Effect
    var LastMicLedState: Byte
    /** The callbacks made so far, and the reports accepted so far. */
    var Made: seq<Call>
    ghost var Accepted: seq<Output>

    function Remembered(): Feedback
      reads this
    {
      Feedback(LastLedState, LastPlayerLedState, LastMotorState,
               LastRightTriggerEffect, LastLeftTriggerEffect, LastMicLedState)
    }

    ghost predicate Valid()
      reads this
    {
      Remembered() == LastAfter(registered, Accepted) && Made == Feed(registered, Accepted)
    }

    constructor (reg: Registered)
      ensures Valid() && registered == reg && Accepted == []
    {
      registered, Made, Accepted := reg, [], [];
      LastLedState, LastPlayerLedState, LastMotorState := DARK, 0, MotorState(0, 0);
      LastRightTriggerEffect, LastLeftTriggerEffect, LastMicLedState := NO_EFFECT, NO_EFFECT, 0;
    }

    method TellLightBar(o: Output)
      modifies `LastLedState, `Made
      ensures LastLedState == if registered.lightBar then OrElse(o.lightBar, old(LastLedState)) else old(LastLedState)
      ensures Made == old(Made) + LightBarCall(registered, old(Remembered()), o)
    {
      if registered.lightBar && o.lightBar.Some? && o.lightBar.value != LastLedState {
        Made := Made + [LightBar(o.lightBar.value)];
        LastLedState := o.lightBar.value;
      }
    }

    method TellPlayer(o: Output)
      modifies `LastPlayerLedState, `Made
      ensures LastPlayerLedState == if registered.player then OrElse(o.player, old(LastPlayerLedState))
                                    else old(LastPlayerLedState)
      ensures Made == old(Made) + PlayerCall(registered, old(Remembered()), o)
    {
      if registered.player && o.player.Some? && o.player.value != LastPlayerLedState {
        Made := Made + [PlayerLed(o.player.value)];
        LastPlayerLedState := o.player.value;
      }
    }

    method TellRumble(o: Output)
      modifies `LastMotorState, `Made
      ensures LastMotorState == if registered.rumble then OrElse(o.motors, old(LastMotorState)) else old(LastMotorState)
      ensures Made == old(Made) + RumbleCall(registered, old(Remembered()), o)
    {
      if registered.rumble && o.motors.Some? && o.motors.value != LastMotorState {
        Made := Made + [Rumble(Amplitude(o.motors.value.left, o.compatible2),
                               Amplitude(o.motors.value.right, o.compatible2))];
        LastMotorState := o.motors.value;
      }
    }

    method TellTrigger(o: Output)
      modifies `LastRightTriggerEffect, `LastLeftTriggerEffect, `Made
      ensures LastRightTriggerEffect == if registered.trigger then OrElse(o.right, old(LastRightTriggerEffect))
                                        else old(LastRightTriggerEffect)
      ensures LastLeftTriggerEffect == if registered.trigger then OrElse(o.left, old(LastLeftTriggerEffect))
                                       else old(LastLeftTriggerEffect)
      ensures Made == old(Made) + TriggerCall(registered, old(Remembered()), o)
    {
      if registered.trigger &&
         ((o.right.Some? && o.right.value != LastRightTriggerEffect) ||
          (o.left.Some? && o.left.value != LastLeftTriggerEffect)) {
        Made := Made + [Trigger(o.left, o.right)];
        if o.right.Some? {
          LastRightTriggerEffect := o.right.value;
        }
        if o.left.Some? {
          LastLeftTriggerEffect := o.left.value;
        }
      }
    }

    method TellMic(o: Output)
      modifies `LastMicLedState, `Made
      ensures LastMicLedState == if registered.mic then OrElse(o.mic, old(LastMicLedState)) else old(LastMicLedState)
      ensures Made == old(Made) + MicCall(registered, old(Remembered()), o)
    {
      if registered.mic && o.mic.Some? && o.mic.value != LastMicLedState {
        Made := Made + [MicLed(o.mic.value)];
        LastMicLedState := o.mic.value;
      }
    }

    method Tell(o: Output)
      modifies this
      ensures Remembered() == Remember(registered, old(Remembered()), o)
      ensures Made == old(Made) + Calls(registered, old(Remembered()), o)
      ensures Accepted == old(Accepted)
    {
      ghost var before, last := Made, Remembered();
      TellLightBar(o);
      TellPlayer(o);
      TellRumble(o);
      TellTrigger(o);
      TellMic(o);
      Regroup(before, LightBarCall(registered, last, o), PlayerCall(registered, last, o),
              RumbleCall(registered, last, o), TriggerCall(registered, last, o), MicCall(registered, last, o));
    }

    /** A write to the device; `data` starts with the report ID byte. */
    method OutputReport(reportId: Byte, data: Bytes) returns (ok: bool)
      requires Valid()
      modifies this
      ensures Valid()
      ensures ok <==> reportId == EFFECTS_REPORT && |data| >= 1 + OUTPUT_REPORT_SIZE
      ensures !ok ==> Remembered() == old(Remembered()) && Made == old(Made) && Accepted == old(Accepted)
      ensures ok ==> Accepted == old(Accepted) + [Decode(data[1..])]
    {
      if reportId != EFFECTS_REPORT || |data| < 1 + OUTPUT_REPORT_SIZE {
        return false;
      }
      var o := Decode(data[1..]);
      OneMoreReport(registered, Accepted, o);
      Tell(o);
      Accepted := Accepted + [o];
      ok := true;
    }
  }

  // ---------------------------------------------------------------- runs

  /** The state that the host has asked for: every valid field of every report. */
  function Wanted(outputs: seq<Output>): Feedback
  {
    if outputs == [] then NOTHING
    else
      var w, o := Wanted(Init(outputs)), Last(outputs);
      Feedback(OrElse(o.lightBar, w.led), OrElse(o.player, w.player), OrElse(o.motors, w.motors),
               OrElse(o.right, w.right), OrElse(o.left, w.left), OrElse(o.mic, w.mic))
  }

  /** What a listener knows who applies each callback; a NULL trigger side means no change. */
  function Heard(s: Feedback, c: Call): Feedback
  {
    match c
    case LightBar(led) => s.(led := led)
    case PlayerLed(value) => s.(player := value)
    case Rumble(left, right) => s.(motors := MotorState(right, left))
    case Trigger(left, right) => s.(left := OrElse(left, s.left), right := OrElse(right, s.right))
    case MicLed(state) => s.(mic := state)
  }

  function Replay(s: Feedback, calls: seq<Call>): Feedback
  {
    if calls == [] then s else Heard(Replay(s, Init(calls)), Last(calls))
  }

  lemma {:induction false} ReplayAppend(s: Feedback, calls: seq<Call>, more: seq<Call>)
    ensures Replay(s, calls + more) == Replay(Replay(s, calls), more)
  {
    if more == [] {
      assert calls + more == calls;
    } else {
      ReplayAppend(s, calls, Init(more));
      assert Init(calls + more) == calls + Init(more);
    }
  }

  lemma ReplayOne(s: Feedback, c: Call)
    ensures Replay(s, [c]) == Heard(s, c)
  {
    assert Replay(s, []) == s;
  }

  lemma ReplayShort(s: Feedback, calls: seq<Call>)
    requires |calls| <= 1
    ensures Replay(s, calls) == if calls == [] then s else Heard(s, calls[0])
  {
    if calls != [] {
      ReplayOne(s, calls[0]);
      assert calls == [calls[0]];
    }
  }

  lemma ReplayFive(s: Feedback, a: seq<Call>, b: seq<Call>, c: seq<Call>, d: seq<Call>, e: seq<Call>)
    ensures Replay(s, a + b + c + d + e) == Replay(Replay(Replay(Replay(Replay(s, a), b), c), d), e)
  {
    ReplayAppend(s, a + b + c + d, e);
    ReplayAppend(s, a + b + c, d);
    ReplayAppend(s, a + b, c);
    ReplayAppend(s, a, b);
  }

  /** What a listener knows after the callbacks of one report. */
  function Updated(reg: Registered, last: Feedback, o: Output, s: Feedback): Feedback
  {
    Feedback(
      if LightBarCall(reg, last, o) != [] then o.lightBar.value else s.led,
      if PlayerCall(reg, last, o) != [] then o.player.value else s.player,
      if RumbleCall(reg, last, o) != [] then Level(o.motors.value, o.compatible2) else s.motors,
      if TriggerCall(reg, last, o) != [] then OrElse(o.right, s.right) else s.right,
      if TriggerCall(reg, last, o) != [] then OrElse(o.left, s.left) else s.left,
      if MicCall(reg, last, o) != [] then o.mic.value else s.mic)
  }

  lemma ReplayEach(reg: Registered, last: Feedback, o: Output, s: Feedback)
    ensures Replay(s, LightBarCall(reg, last, o)) == s.(led := Updated(reg, last, o, s).led)
    ensures Replay(s, PlayerCall(reg, last, o)) == s.(player := Updated(reg, last, o, s).player)
    ensures Replay(s, RumbleCall(reg, last, o)) == s.(motors := Updated(reg, last, o, s).motors)
    ensures Replay(s, MicCall(reg, last, o)) == s.(mic := Updated(reg, last, o, s).mic)
  {
    ReplayShort(s, LightBarCall(reg, last, o));
    ReplayShort(s, PlayerCall(reg, last, o));
    ReplayShort(s, RumbleCall(reg, last, o));
    ReplayShort(s, MicCall(reg, last, o));
  }

  lemma ReplayTrigger(reg: Registered, last: Feedback, o: Output, s: Feedback)
    ensures var u := Updated(reg, last, o, s);
            Replay(s, TriggerCall(reg, last, o)) == s.(right := u.right, left := u.left)
  {
    ReplayShort(s, TriggerCall(reg, last, o));
  }

  lemma ReplayCalls(reg: Registered, last: Feedback, o: Output, s: Feedback)
    ensures Replay(s, Calls(reg, last, o)) == Updated(reg, last, o, s)
  {
    var a, b, c := LightBarCall(reg, last, o), PlayerCall(reg, last, o), RumbleCall(reg, last, o);
    var d, e := TriggerCall(reg, last, o), MicCall(reg, last, o);
    ReplayFive(s, a, b, c, d, e);
    var u := Updated(reg, last, o, s);
    var s1 := s.(led := u.led);
    var s2 := s1.(player := u.player);
    var s3 := s2.(motors := u.motors);
    var s4 := s3.(right := u.right, left := u.left);
    ReplayEach(reg, last, o, s);
    ReplayEach(reg, last, o, s1);
    ReplayEach(reg, last, o, s2);
    ReplayTrigger(reg, last, o, s3);
    ReplayEach(reg, last, o, s4);
  }

  /** The callbacks of one report tell a listener who was up to date all that changed. */
  lemma UpdatedIsRemembered(reg: Registered, last: Feedback, o: Output, s: Feedback)
    requires reg.lightBar ==> s.led == last.led
    requires reg.player ==> s.player == last.player
    requires reg.trigger ==> s.right == last.right && s.left == last.left
    requires reg.mic ==> s.mic == last.mic
    ensures var s', next := Updated(reg, last, o, s), Remember(reg, last, o);
            && (reg.lightBar ==> s'.led == next.led)
            && (reg.player ==> s'.player == next.player)
            && (reg.trigger ==> s'.right == next.right && s'.left == next.left)
            && (reg.mic ==> s'.mic == next.mic)
  {
  }

  /**
   The feed is lossless: over any run of reports, replaying the callbacks gives the lightbar,
   player LED, trigger effects and microphone LED that the host has asked for, for every
   registered callback.
   */
  lemma {:induction false} FeedIsLossless(reg: Registered, outputs: seq<Output>)
    ensures var heard, wanted, last := Replay(NOTHING, Feed(reg, outputs)), Wanted(outputs), LastAfter(reg, outputs);
            && (reg.lightBar ==> heard.led == last.led == wanted.led)
            && (reg.player ==> heard.player == last.player == wanted.player)
            && (reg.trigger ==> heard.right == last.right == wanted.right && heard.left == last.left == wanted.left)
            && (reg.mic ==> heard.mic == last.mic == wanted.mic)
  {
    if outputs == [] {
    } else {
      var before, o := Init(outputs), Last(outputs);
      var last := LastAfter(reg, before);
      FeedIsLossless(reg, before);
      ReplayAppend(NOTHING, Feed(reg, before), Calls(reg, last, o));
      var s := Replay(NOTHING, Feed(reg, before));
      ReplayCalls(reg, last, o, s);
      UpdatedIsRemembered(reg, last, o, s);
    }
  }

  // ---------------------------------------------------------------- no repeats

  /** `values` without those equal to the one before, the first being compared with `start`. */
  function Changes<T(==)>(start: T, values: seq<T>): seq<T>
  {
    if values == [] then []
    else
      var before := Init(values);
      Changes(start, before) +
      if Last(values) == (if before == [] then start else Last(before)) then [] else [Last(values)]
  }

  /** The channels of a single value, and the values they carry. */
  datatype Channel = LedChannel | PlayerChannel | MicChannel

  datatype Value = Colour(led: Led) | State(state: Byte)

  /** What a callback says on a channel. */
  function Told(ch: Channel, c: Call): Option<Value>
  {
    if ch.LedChannel? && c.LightBar? then Some(Colour(c.led))
    else if ch.PlayerChannel? && c.PlayerLed? then Some(State(c.value))
    else if ch.MicChannel? && c.MicLed? then Some(State(c.state))
    else None
  }

  /** What a report asks for on a channel. */
  function Asked(ch: Channel, o: Output): Option<Value>
  {
    match ch
    case LedChannel => if o.lightBar.Some? then Some(Colour(o.lightBar.value)) else None
    case PlayerChannel => if o.player.Some? then Some(State(o.player.value)) else None
    case MicChannel => if o.mic.Some? then Some(State(o.mic.value)) else None
  }

  function Current(ch: Channel, s: Feedback): Value
  {
    match ch
    case LedChannel => Colour(s.led)
    case PlayerChannel => State(s.player)
    case MicChannel => State(s.mic)
  }

  predicate Listens(ch: Channel, reg: Registered)
  {
    match ch
    case LedChannel => reg.lightBar
    case PlayerChannel => reg.player
    case MicChannel => reg.mic
  }

  /** Everything said on a channel. */
  function Trace(ch: Channel, calls: seq<Call>): seq<Value>
  {
    if calls == [] then [] else Trace(ch, Init(calls)) + AsSeq(Told(ch, Last(calls)))
  }

  lemma {:induction false} TraceAppend(ch: Channel, calls: seq<Call>, more: seq<Call>)
    ensures Trace(ch, calls + more) == Trace(ch, calls) + Trace(ch, more)
  {
    if more == [] {
      assert calls + more == calls;
    } else {
      TraceAppend(ch, calls, Init(more));
      assert Init(calls + more) == calls + Init(more);
      var t, u, v := Trace(ch, calls), Trace(ch, Init(more)), AsSeq(Told(ch, Last(more)));
      assert t + u + v == t + (u + v);
    }
  }

  lemma TraceShort(ch: Channel, calls: seq<Call>)
    requires |calls| <= 1
    ensures Trace(ch, calls) == if calls == [] then [] else AsSeq(Told(ch, calls[0]))
  {
    if calls != [] {
      assert Trace(ch, Init(calls)) == [];
    }
  }

  lemma TraceFive(ch: Channel, a: seq<Call>, b: seq<Call>, c: seq<Call>, d: seq<Call>, e: seq<Call>)
    ensures Trace(ch, a + b + c + d + e) == Trace(ch, a) + Trace(ch, b) + Trace(ch, c) + Trace(ch, d) + Trace(ch, e)
  {
    TraceAppend(ch, a + b + c + d, e);
    TraceAppend(ch, a + b + c, d);
    TraceAppend(ch, a + b, c);
    TraceAppend(ch, a, b);
  }

  /** What one report adds to a channel that is listened to. */
  function News(ch: Channel, last: Feedback, o: Output): seq<Value>
  {
    if Asked(ch, o) == Some(Current(ch, last)) then [] else AsSeq(Asked(ch, o))
  }

  lemma TraceOfLightBar(ch: Channel, reg: Registered, last: Feedback, o: Output)
    requires Listens(ch, reg)
    ensures Trace(ch, LightBarCall(reg, last, o)) == if ch.LedChannel? then News(ch, last, o) else []
  {
    TraceShort(ch, LightBarCall(reg, last, o));
  }

  lemma TraceOfPlayer(ch: Channel, reg: Registered, last: Feedback, o: Output)
    requires Listens(ch, reg)
    ensures Trace(ch, PlayerCall(reg, last, o)) == if ch.PlayerChannel? then News(ch, last, o) else []
  {
    TraceShort(ch, PlayerCall(reg, last, o));
  }

  lemma TraceOfMic(ch: Channel, reg: Registered, last: Feedback, o: Output)
    requires Listens(ch, reg)
    ensures Trace(ch, MicCall(reg, last, o)) == if ch.MicChannel? then News(ch, last, o) else []
  {
    TraceShort(ch, MicCall(reg, last, o));
  }

  lemma TraceOfOther(ch: Channel, reg: Registered, last: Feedback, o: Output)
    ensures Trace(ch, RumbleCall(reg, last, o)) == []
    ensures Trace(ch, TriggerCall(reg, last, o)) == []
  {
    TraceShort(ch, RumbleCall(reg, last, o));
    TraceShort(ch, TriggerCall(reg, last, o));
  }

  lemma TraceOfCalls(ch: Channel, reg: Registered, last: Feedback, o: Output)
    requires Listens(ch, reg)
    ensures Trace(ch, Calls(reg, last, o)) == News(ch, last, o)
  {
    TraceOfLightBar(ch, reg, last, o);
    TraceOfPlayer(ch, reg, last, o);
    TraceOfMic(ch, reg, last, o);
    TraceOfOther(ch, reg, last, o);
    TraceFive(ch, LightBarCall(reg, last, o), PlayerCall(reg, last, o), RumbleCall(reg, last, o),
              TriggerCall(reg, last, o), MicCall(reg, last, o));
  }

  /** The values that a channel takes in those reports that mark it valid. */
  function ValidValues(ch: Channel, outputs: seq<Output>): seq<Value>
  {
    if outputs == [] then [] else ValidValues(ch, Init(outputs)) + AsSeq(Asked(ch, Last(outputs)))
  }

  /** The value before the next one: the last of `values`, or `start`. */
  function Latest<T>(start: T, values: seq<T>): T
  {
    if values == [] then start else Last(values)
  }

  lemma ChangesSnoc<T>(start: T, values: seq<T>, next: Option<T>)
    ensures Changes(start, values + AsSeq(next))
         == Changes(start, values) + if next == Some(Latest(start, values)) then [] else AsSeq(next)
    ensures Latest(start, values + AsSeq(next)) == OrElse(next, Latest(start, values))
  {
    if next.Some? {
      assert Init(values + [next.value]) == values;
    } else {
      assert values + AsSeq(next) == values;
    }
  }

  lemma TraceStep(ch: Channel, reg: Registered, last: Feedback, feed: seq<Call>, o: Output)
    requires Listens(ch, reg)
    ensures Trace(ch, feed + Calls(reg, last, o)) == Trace(ch, feed) + News(ch, last, o)
  {
    TraceAppend(ch, feed, Calls(reg, last, o));
    TraceOfCalls(ch, reg, last, o);
  }

  lemma RememberLatest(ch: Channel, reg: Registered, last: Feedback, o: Output)
    requires Listens(ch, reg)
    ensures Current(ch, Remember(reg, last, o)) == OrElse(Asked(ch, o), Current(ch, last))
  {
  }

  /**
   On each channel of a single value the callbacks are the valid values of the run with
   consecutive duplicates removed, the first being compared with zero.
   */
  lemma {:induction false} TraceIsChanges(ch: Channel, reg: Registered, outputs: seq<Output>)
    requires Listens(ch, reg)
    ensures Trace(ch, Feed(reg, outputs)) == Changes(Current(ch, NOTHING), ValidValues(ch, outputs))
    ensures Current(ch, LastAfter(reg, outputs)) == Latest(Current(ch, NOTHING), ValidValues(ch, outputs))
  {
    if outputs == [] {
    } else {
      var before, o := Init(outputs), Last(outputs);
      var last := LastAfter(reg, before);
      TraceIsChanges(ch, reg, before);
      TraceStep(ch, reg, last, Feed(reg, before), o);
      RememberLatest(ch, reg, last, o);
      ChangesSnoc(Current(ch, NOTHING), ValidValues(ch, before), Asked(ch, o));
    }
  }

  /** Only registered callbacks are called. */
  lemma OnlyRegistered(reg: Registered, last: Feedback, o: Output, c: Call)
    requires c in Calls(reg, last, o)
    ensures match c
            case LightBar(_) => reg.lightBar
            case PlayerLed(_) => reg.player
            case Rumble(_, _) => reg.rumble
            case Trigger(_, _) => reg.trigger
            case MicLed(_) => reg.mic
  {
  }

  /** The trigger callback is called exactly when a valid side differs from the effect last told for it. */
  lemma TriggerToldIff(reg: Registered, last: Feedback, o: Output)
    requires reg.trigger
    ensures (exists c :: c in Calls(reg, last, o) && c.Trigger?) <==>
            (o.left.Some? && o.left.value != last.left) || (o.right.Some? && o.right.value != last.right)
  {
    var c := Trigger(o.left, o.right);
    if NewTrigger(last, o) {
      assert c in TriggerCall(reg, last, o);
      assert c in Calls(reg, last, o);
    }
  }

  // ---------------------------------------------------------------- rumble

  /** The vibration mode of the last report that marks the motors valid. */
  function ModeAsked(outputs: seq<Output>): bool
  {
    if outputs == [] then true
    else if Last(outputs).motors.Some? then Last(outputs).compatible2
    else ModeAsked(Init(outputs))
  }

  /** The vibration mode of the last report whose motor bytes differ from those before it. */
  function ModeOfChange(outputs: seq<Output>): bool
  {
    if outputs == [] then true
    else
      var o := Last(outputs);
      if o.motors.Some? && o.motors.value != Wanted(Init(outputs)).motors then o.compatible2
      else ModeOfChange(Init(outputs))
  }

  lemma {:induction false} RumbleHeard(reg: Registered, outputs: seq<Output>)
    requires reg.rumble
    ensures LastAfter(reg, outputs).motors == Wanted(outputs).motors
    ensures Replay(NOTHING, Feed(reg, outputs)).motors == Level(Wanted(outputs).motors, ModeOfChange(outputs))
  {
    if outputs == [] {
    } else {
      var before, o := Init(outputs), Last(outputs);
      var last := LastAfter(reg, before);
      RumbleHeard(reg, before);
      ReplayAppend(NOTHING, Feed(reg, before), Calls(reg, last, o));
      ReplayCalls(reg, last, o, Replay(NOTHING, Feed(reg, before)));
    }
  }

  lemma AmplitudeModes(motor: Byte)
    ensures Amplitude(motor, true) == Amplitude(motor, false) <==> motor == 0
    ensures Amplitude(motor, false) == 2 * motor <==> motor < 128
    ensures motor >= 128 ==> Amplitude(motor, false) == 2 * motor - 256
    ensures Amplitude(motor, true) == motor
  {
    if motor < 128 {
      assert motor * 2 % TWO_TO_8 == motor * 2;
    } else {
      assert motor * 2 == (motor * 2 - TWO_TO_8) + 1 * TWO_TO_8;
    }
  }

  /**
   Rumble is not lossless, for the comparison with the last report ignores the mode: what a
   listener hears is the level that the host asked for exactly when the mode asked for is the one
   in force when the motor bytes last changed, or both motors are off.
   */
  lemma RumbleFaithfulIff(reg: Registered, outputs: seq<Output>)
    requires reg.rumble
    ensures Replay(NOTHING, Feed(reg, outputs)).motors == Level(Wanted(outputs).motors, ModeAsked(outputs))
       <==> ModeAsked(outputs) == ModeOfChange(outputs) || Wanted(outputs).motors == MotorState(0, 0)
  {
    RumbleHeard(reg, outputs);
    AmplitudeModes(Wanted(outputs).motors.left);
    AmplitudeModes(Wanted(outputs).motors.right);
  }

  /** A run in which the switch from the legacy mode is lost. */
  lemma ModeSwitchLost(reg: Registered)
    requires reg.rumble
    ensures var legacy := Output(None, None, Some(MotorState(10, 10)), false, None, None, None);
            var outputs := [legacy, legacy.(compatible2 := true)];
            && Replay(NOTHING, Feed(reg, outputs)).motors == MotorState(20, 20)
            && Level(Wanted(outputs).motors, ModeAsked(outputs)) == MotorState(10, 10)
  {
    var legacy := Output(None, None, Some(MotorState(10, 10)), false, None, None, None);
    var outputs := [legacy, legacy.(compatible2 := true)];
    assert Init(outputs) == [legacy] && Init([legacy]) == [];
    RumbleHeard(reg, outputs);
  }
}
