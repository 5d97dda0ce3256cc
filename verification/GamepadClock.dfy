/**
 The sensor timestamps and sequence numbers of the PS4 and PS5 gamepads: each submission adds the
 time since the last one, in a fixed unit and rounded down, to a counter that wraps around.
 */
module GamepadClock {
  import opened Arithmetic
  import opened Sequences
  import opened Win32

  const NANOS: int := 1_000_000_000
  const TWO_TO_63: int := 0x8000_0000_0000_0000
  const TWO_TO_64: int := 0x1_0000_0000_0000_0000

  /** Nanoseconds in a timestamp unit, and the number of timestamps: USHORT for PS4, UINT for PS5. */
  datatype Model = Model(unit: nat, modulus: nat)

  const PS4: Model := Model(5333, TWO_TO_16)
  const PS5: Model := Model(333, TWO_TO_32)

  /** The value of a 64-bit signed product. */
  function Wrap64(x: int): int
  {
    (x + TWO_TO_63) % TWO_TO_64 - TWO_TO_63
  }

  /** C division, which rounds towards zero. */
  function Quotient(a: int, b: int): int
    requires b > 0
  {
    if a >= 0 then a / b else -(-a / b)
  }

  /** Timestamp units that one submission adds, as the code computes them. */
  function Increment(delta: int, frequency: int, unit: int): int
    requires frequency > 0 && unit > 0
  {
    Quotient(Quotient(Wrap64(delta * NANOS), frequency), unit)
  }

  /** A delay that the code can multiply without overflow. */
  predicate Fits(delta: int)
  {
    0 <= delta && delta * NANOS < TWO_TO_63
  }

  /** Then one submission adds exactly the whole units that fit into the delay. */
  lemma IncrementExact(delta: int, frequency: int, unit: int)
    requires Fits(delta) && frequency > 0 && unit > 0
    ensures frequency * unit > 0
    ensures Increment(delta, frequency, unit) == delta * NANOS / (frequency * unit)
  {
    assert Wrap64(delta * NANOS) == delta * NANOS;
    NestedDivision(delta * NANOS, frequency, unit);
  }

  lemma SmallerQuotient(a: int, b: int, d: int)
    requires d > 0 && a + d <= b
    ensures a / d < b / d
  {
    DivMod(a, d);
    DivMod(b, d);
    if a / d >= b / d {
      Difference(a / d, b / d, d);
      NonNegative(a / d - b / d, d);
    }
  }

  lemma NegativeQuotient(a: int, b: int)
    requires a <= 0 && b > 0
    ensures Quotient(a, b) <= 0
  {
  }

  /** And only then: a product that wraps around never gives the right number of units. */
  lemma IncrementExactOnlyIfFits(delta: int, frequency: int, unit: int)
    requires delta >= 0 && frequency > 0 && unit > 0 && frequency * unit <= TWO_TO_63
    ensures Increment(delta, frequency, unit) == delta * NANOS / (frequency * unit) <==> Fits(delta)
  {
    var x, w, d := delta * NANOS, Wrap64(delta * NANOS), frequency * unit;
    NestedDivision(x, frequency, unit);
    if Fits(delta) {
      IncrementExact(delta, frequency, unit);
    } else if w < 0 {
      NegativeQuotient(w, frequency);
      NegativeQuotient(Quotient(w, frequency), unit);
      SmallerQuotient(0, x, d);
    } else {
      NestedDivision(w, frequency, unit);
      SmallerQuotient(w, x, d);
    }
  }

  /**
   Beyond that the clock runs backwards: with a 10 MHz counter a pause of 923 seconds takes the
   timestamp of a PS5 back instead of forward.
   */
  lemma LongPauseRunsBackwards()
    ensures !Fits(9_230_000_000)
    ensures Increment(9_230_000_000, 10_000_000, 333) < 0
  {
    assert Wrap64(9_230_000_000 * NANOS) == 9_230_000_000 * NANOS - TWO_TO_64;
  }

  // ---------------------------------------------------------------- a run of submissions

  class Gamepad {
    const model: Model
    const QpcFrequency: int
    var LastInputReportTime: int
    var Timestamp: nat
    var SequenceNumber: Byte // PS5 only
    /** The times of all submissions so far, starting with the creation of the gamepad. */
    ghost var times: seq<int>

    ghost predicate Valid()
      reads this
    {
      && (model == PS4 || model == PS5) && QpcFrequency > 0
      && |times| > 0 && LastInputReportTime == times[|times| - 1]
      && Timestamp == Total(times, QpcFrequency, model.unit) % model.modulus
      && SequenceNumber == (|times| - 1) % TWO_TO_8
    }

    constructor (m: Model, frequency: int, now: int)
      requires (m == PS4 || m == PS5) && frequency > 0
      ensures Valid() && times == [now] && model == m && QpcFrequency == frequency
      ensures model == Model(5333, 0x1_0000) || model == Model(333, 0x1_0000_0000)
    {
      model, QpcFrequency, LastInputReportTime, Timestamp, SequenceNumber := m, frequency, now, 0, 0;
      times := [now];
    }

    /** PrepareInputReportForSubmission; returns the timestamp and sequence number of the report. */
    method PrepareInputReport(now: int) returns (timestamp: nat, sequence: Byte)
      requires Valid()
      modifies this
      ensures Valid() && times == old(times) + [now]
      ensures timestamp == Total(times, QpcFrequency, model.unit) % model.modulus
      ensures sequence == (|times| - 2) % TWO_TO_8
    {
      var deltaNs := now - LastInputReportTime;
      deltaNs := Wrap64(deltaNs * NANOS);
      deltaNs := Quotient(deltaNs, QpcFrequency);
      var step := Quotient(deltaNs, model.unit);
      TotalStep(times, now, QpcFrequency, model.unit);
      WrappedSum(Total(times, QpcFrequency, model.unit), step, model.modulus);
      Timestamp := AddWrapped(Timestamp, step, model.modulus);
      LastInputReportTime := now;
      times := times + [now];
      timestamp := Timestamp;
      sequence := SequenceNumber;
      WrappedSum(|times| - 2, 1, TWO_TO_8);
      SequenceNumber := AddWrapped(SequenceNumber, 1, TWO_TO_8);
    }
  }

  /** Adding a value that is cast to the counter's width. */
  function AddWrapped(counter: int, step: int, modulus: int): int
    requires modulus > 0
  {
    (counter + step % modulus) % modulus
  }

  /** The unwrapped timestamp: the sum of what each submission added. */
  function Total(times: seq<int>, frequency: int, unit: int): int
    requires |times| > 0 && frequency > 0 && unit > 0
  {
    if |times| == 1 then 0
    else
      Total(Init(times), frequency, unit) +
      Increment(times[|times| - 1] - times[|times| - 2], frequency, unit)
  }

  lemma TotalStep(times: seq<int>, now: int, frequency: int, unit: int)
    requires |times| > 0 && frequency > 0 && unit > 0
    ensures Total(times + [now], frequency, unit)
         == Total(times, frequency, unit) + Increment(now - times[|times| - 1], frequency, unit)
  {
    assert Init(times + [now]) == times;
  }

  ghost predicate AllFit(times: seq<int>)
  {
    forall k | 0 <= k < |times| - 1 :: Fits(times[k + 1] - times[k])
  }

  /** Elapsed nanosecond ticks that `total` units of length `d` have not accounted for. */
  function Behind(elapsed: int, total: int, d: int): int
  {
    elapsed * NANOS - total * d
  }

  /** Within one unit per submission, and exact before the first. */
  predicate WithinDrift(behind: int, n: nat, d: int)
  {
    0 <= behind && (if n == 0 then behind == 0 else behind < n * d)
  }

  lemma DriftStep(elapsed: int, total: int, delta: int, n: nat, d: int)
    requires d > 0 && WithinDrift(Behind(elapsed, total, d), n, d)
    ensures WithinDrift(Behind(elapsed + delta, total + delta * NANOS / d, d), n + 1, d)
  {
    var step := delta * NANOS / d;
    DivMod(delta * NANOS, d);
    Difference(total, -step, d);
    Difference(n, -1, d);
  }

  /**
   Rounding down at each submission never gets ahead of the elapsed time and never loses a whole
   unit per submission: elapsed units minus the unwrapped timestamp lies in [0, n).
   */
  lemma {:induction false} DriftBounded(times: seq<int>, frequency: int, unit: int)
    requires |times| > 0 && frequency > 0 && unit > 0 && AllFit(times)
    ensures frequency * unit > 0
    ensures var n := |times| - 1;
            WithinDrift(Behind(times[n] - times[0], Total(times, frequency, unit), frequency * unit),
                        n, frequency * unit)
  {
    var n := |times| - 1;
    NestedDivision(0, frequency, unit);
    if n == 0 {
    } else {
      var earlier, delta := Init(times), times[n] - times[n - 1];
      assert forall k | 0 <= k < |earlier| - 1 :: earlier[k + 1] - earlier[k] == times[k + 1] - times[k];
      DriftBounded(earlier, frequency, unit);
      assert Fits(delta);
      IncrementExact(delta, frequency, unit);
      DriftStep(times[n - 1] - times[0], Total(earlier, frequency, unit), delta, n - 1, frequency * unit);
    }
  }
}
