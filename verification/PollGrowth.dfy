/**
 The buffer of WinUHidPollEvent.  Any number of threads poll; each grows its own buffer when the
 driver says that it is too small, and they share a size hint.  What stops the growth lies in the
 driver: it clamps event lengths to the table of the descriptor parser.
 */
module PollGrowth {
  import opened Win32
  import opened HidItems
  import opened DriverProtocol

  const FIRST_EXPONENT: nat := 7
  const LAST_EXPONENT: nat := 30
  const MAX_EVENT: nat := EVENT_DATA_OFFSET + MAX_REPORT_BYTES

  function Pow2(e: nat): (r: nat)
    ensures r >= 1
  {
    if e == 0 then 1 else 2 * Pow2(e - 1)
  }

  lemma Pow2Values()
    ensures Pow2(7) == 128 && Pow2(29) == 0x2000_0000 && Pow2(30) == 0x4000_0000
  {
    assert Pow2(10) == 1024;
    assert Pow2(20) == 1024 * 1024;
    assert Pow2(29) == 512 * 1024 * 1024;
  }

  lemma {:induction false} Pow2Ordered(a: nat, b: nat)
    requires a <= b
    ensures Pow2(a) <= Pow2(b) && (a < b ==> Pow2(a) < Pow2(b))
  {
    if a == b {
    } else {
      Pow2Ordered(a, b - 1);
    }
  }

  /** `size` is 2^e for some e from `low` to 30. */
  ghost predicate PowerFrom(size: nat, low: nat)
  {
    exists e: nat :: low <= e <= LAST_EXPONENT && size == Pow2(e)
  }

  /** A power of two below what some event needs can be doubled without leaving the range. */
  lemma DoublePower(size: nat, low: nat)
    requires PowerFrom(size, low) && size < MAX_EVENT
    ensures PowerFrom(2 * size, low + 1) && 2 * size < TWO_TO_32
  {
    var e: nat :| low <= e <= LAST_EXPONENT && size == Pow2(e);
    Pow2Values();
    Pow2Ordered(e, LAST_EXPONENT);
    if e == LAST_EXPONENT {
      assert false;
    }
    Pow2Ordered(e + 1, LAST_EXPONENT);
    assert 2 * size == Pow2(e + 1);
  }

  lemma LargerPower(size: nat, low: nat, hint: nat)
    requires PowerFrom(size, low) && PowerFrom(hint, FIRST_EXPONENT) && size <= hint
    ensures PowerFrom(hint, low)
  {
    var e: nat :| low <= e <= LAST_EXPONENT && size == Pow2(e);
    var f: nat :| FIRST_EXPONENT <= f <= LAST_EXPONENT && hint == Pow2(f);
    if f < e {
      Pow2Ordered(f, e);
      assert false;
    }
  }

  // ---------------------------------------------------------------- any number of pollers

  /** One polling thread: outside a call, with a buffer in use, or about to take the lock to grow. */
  datatype Poller =
    | Idle
    | Polling(size: nat, retries: nat)
    | Growing(size: nat, retries: nat)

  datatype Polls = Polls(hint: nat, pollers: seq<Poller>)

  datatype Step =
    | Start(p: nat)
    | TooSmall(p: nat, driver: Driver)
    | Grow(p: nat)
    | Return(p: nat)

  ghost predicate Enabled(s: Polls, step: Step)
  {
    && step.p < |s.pollers|
    && match step
       case Start(p) => s.pollers[p].Idle?
       // The driver refused: its first waiting event does not fit the buffer.
       case TooSmall(p, driver) =>
         && s.pollers[p].Polling?
         && Inv(driver) && TableBounded(driver.sizes) && driver.waiting != []
         && s.pollers[p].size < EventNeeds(driver.ops[driver.waiting[0]])
       case Grow(p) => s.pollers[p].Growing?
       case Return(p) => s.pollers[p].Polling?
  }

  function Apply(s: Polls, step: Step): Polls
    requires step.p < |s.pollers|
    requires step.TooSmall? ==> s.pollers[step.p].Polling?
    requires step.Grow? ==> s.pollers[step.p].Growing?
  {
    match step
    case Start(p) => s.(pollers := s.pollers[p := Polling(s.hint, 0)])
    case TooSmall(p, _) =>
      // The doubling is done in a 32-bit DWORD.
      s.(pollers := s.pollers[p := Growing(2 * s.pollers[p].size % TWO_TO_32, s.pollers[p].retries + 1)])
    case Grow(p) =>
      var Growing(size, retries) := s.pollers[p];
      if s.hint < size then Polls(size, s.pollers[p := Polling(size, retries)])
      else s.(pollers := s.pollers[p := Polling(s.hint, retries)])
    case Return(p) => s.(pollers := s.pollers[p := Idle])
  }

  ghost predicate SizeInv(p: Poller)
  {
    p.Polling? || p.Growing? ==> PowerFrom(p.size, FIRST_EXPONENT + p.retries)
  }

  ghost predicate PollInv(s: Polls)
  {
    && PowerFrom(s.hint, FIRST_EXPONENT)
    && forall p | 0 <= p < |s.pollers| :: SizeInv(s.pollers[p])
  }

  ghost predicate Next(s: Polls, s': Polls)
  {
    exists step :: Enabled(s, step) && s' == Apply(s, step)
  }

  ghost predicate IsRun(run: seq<Polls>)
  {
    && |run| > 0 && run[0].hint == 128
    && (forall p | 0 <= p < |run[0].pollers| :: run[0].pollers[p].Idle?)
    && forall i | 0 <= i < |run| - 1 :: Next(run[i], run[i + 1])
  }

  lemma WeakerPower(size: nat, low: nat)
    requires PowerFrom(size, low) && low >= FIRST_EXPONENT
    ensures PowerFrom(size, FIRST_EXPONENT)
  {
    var e: nat :| low <= e <= LAST_EXPONENT && size == Pow2(e);
  }

  /** A refused buffer is below the largest event of a parsed descriptor. */
  lemma RefusedSize(driver: Driver, size: nat)
    requires Inv(driver) && TableBounded(driver.sizes) && driver.waiting != []
    requires driver.waiting[0] < |driver.ops| && size < EventNeeds(driver.ops[driver.waiting[0]])
    ensures size < MAX_EVENT
  {
    assert driver.waiting[0] in driver.waiting;
    EventNeedsBounded(driver, driver.waiting[0]);
  }

  lemma UpdateKeepsPollInv(s: Polls, p: nat, q: Poller, hint: nat)
    requires PollInv(s) && p < |s.pollers| && SizeInv(q) && PowerFrom(hint, FIRST_EXPONENT)
    ensures PollInv(Polls(hint, s.pollers[p := q]))
  {
  }

  lemma TooSmallKeepsPollInv(s: Polls, step: Step)
    requires step.TooSmall? && PollInv(s) && Enabled(s, step)
    ensures PollInv(Apply(s, step))
    ensures Apply(s, step).pollers[step.p].size == 2 * s.pollers[step.p].size
  {
    var p := s.pollers[step.p];
    assert SizeInv(p);
    RefusedSize(step.driver, p.size);
    DoublePower(p.size, FIRST_EXPONENT + p.retries);
    assert 2 * p.size % TWO_TO_32 == 2 * p.size;
    UpdateKeepsPollInv(s, step.p, Growing(2 * p.size, p.retries + 1), s.hint);
  }

  lemma GrowKeepsPollInv(s: Polls, step: Step)
    requires step.Grow? && PollInv(s) && Enabled(s, step)
    ensures PollInv(Apply(s, step))
    ensures Apply(s, step).pollers[step.p].size >= s.pollers[step.p].size
  {
    var p := s.pollers[step.p];
    assert SizeInv(p);
    if s.hint < p.size {
      WeakerPower(p.size, FIRST_EXPONENT + p.retries);
      UpdateKeepsPollInv(s, step.p, Polling(p.size, p.retries), p.size);
    } else {
      LargerPower(p.size, FIRST_EXPONENT + p.retries, s.hint);
      UpdateKeepsPollInv(s, step.p, Polling(s.hint, p.retries), s.hint);
    }
  }

  lemma StepKeepsPollInv(s: Polls, step: Step)
    requires PollInv(s) && Enabled(s, step)
    ensures PollInv(Apply(s, step))
    ensures step.TooSmall? ==> Apply(s, step).pollers[step.p].size == 2 * s.pollers[step.p].size
    ensures step.Grow? ==> Apply(s, step).pollers[step.p].size >= s.pollers[step.p].size
    ensures step.Grow? ==> Apply(s, step).pollers[step.p].size == Apply(s, step).hint
    ensures step.Start? ==> Apply(s, step).pollers[step.p] == Polling(s.hint, 0)
    ensures s.hint <= Apply(s, step).hint
  {
    match step
    case TooSmall(_, _) => TooSmallKeepsPollInv(s, step);
    case Grow(_) => GrowKeepsPollInv(s, step);
    case Start(p) => UpdateKeepsPollInv(s, p, Polling(s.hint, 0), s.hint);
    case Return(p) => UpdateKeepsPollInv(s, p, Idle, s.hint);
  }

  lemma NextKeepsPollInv(s: Polls, s': Polls)
    requires PollInv(s) && Next(s, s')
    ensures PollInv(s')
  {
    var step :| Enabled(s, step) && s' == Apply(s, step);
    StepKeepsPollInv(s, step);
  }

  lemma InitialPollInv(s: Polls)
    requires s.hint == 128 && forall p | 0 <= p < |s.pollers| :: s.pollers[p].Idle?
    ensures PollInv(s)
  {
    Pow2Values();
  }

  lemma {:induction false} RunPollInv(run: seq<Polls>, i: nat)
    requires IsRun(run) && i < |run|
    ensures PollInv(run[i])
  {
    if i == 0 {
      InitialPollInv(run[0]);
    } else {
      RunPollInv(run, i - 1);
      assert Next(run[i - 1], run[i - 1 + 1]);
      NextKeepsPollInv(run[i - 1], run[i]);
    }
  }

  /**
   In every run, however many threads poll: the hint and every buffer size are powers of two
   from 2^7 to 2^30, and no call has retried more than 23 times.
   */
  lemma GrowthBounded(run: seq<Polls>, i: nat, p: nat)
    requires IsRun(run) && i < |run| && p < |run[i].pollers|
    ensures PowerFrom(run[i].hint, 7) && run[i].hint <= 0x4000_0000
    ensures !run[i].pollers[p].Idle? ==>
              && PowerFrom(run[i].pollers[p].size, 7) && run[i].pollers[p].size <= 0x4000_0000
              && run[i].pollers[p].retries <= 23
              && run[i].pollers[p].size >= Pow2(7 + run[i].pollers[p].retries)
  {
    RunPollInv(run, i);
    InvBounds(run[i], p);
  }

  lemma InvBounds(s: Polls, p: nat)
    requires PollInv(s) && p < |s.pollers|
    ensures PowerFrom(s.hint, 7) && s.hint <= 0x4000_0000
    ensures !s.pollers[p].Idle? ==>
              && PowerFrom(s.pollers[p].size, 7) && s.pollers[p].size <= 0x4000_0000
              && s.pollers[p].retries <= 23
              && s.pollers[p].size >= Pow2(7 + s.pollers[p].retries)
  {
    AtMostLast(s.hint);
    if !s.pollers[p].Idle? {
      SizeFacts(s.pollers[p]);
      AtMostLast(s.pollers[p].size);
    }
  }

  lemma AtMostLast(size: nat)
    requires PowerFrom(size, FIRST_EXPONENT)
    ensures size <= 0x4000_0000
  {
    var e: nat :| FIRST_EXPONENT <= e <= LAST_EXPONENT && size == Pow2(e);
    Pow2Ordered(e, LAST_EXPONENT);
    Pow2Values();
  }

  lemma SizeFacts(p: Poller)
    requires SizeInv(p) && !p.Idle?
    ensures PowerFrom(p.size, FIRST_EXPONENT)
    ensures p.retries <= LAST_EXPONENT - FIRST_EXPONENT && p.size >= Pow2(FIRST_EXPONENT + p.retries)
  {
    WeakerPower(p.size, FIRST_EXPONENT + p.retries);
    var e: nat :| FIRST_EXPONENT + p.retries <= e <= LAST_EXPONENT && p.size == Pow2(e);
    Pow2Ordered(FIRST_EXPONENT + p.retries, e);
  }

  /** The table of an accepted descriptor is bounded, which is what the growth relies on. */
  lemma ParsedTableBounded(d: seq<Byte>, sizes: seq<HidReportSize>)
    requires Verdict(d) == StatusSuccess && |sizes| == 256
    requires forall id: Byte :: RowOf(d, id, sizes[id])
    ensures TableBounded(sizes)
  {
    forall row | row in sizes
      ensures row.input <= MAX_REPORT_BYTES && row.output <= MAX_REPORT_BYTES && row.feature <= MAX_REPORT_BYTES
    {
      var k :| 0 <= k < |sizes| && sizes[k] == row;
      RowBound(d, k, sizes[k]);
    }
  }

  /** The exponent of a power of two beyond 2^e. */
  lemma Exponent(size: nat, e: nat) returns (f: nat)
    requires PowerFrom(size, e + 1)
    ensures e < f <= LAST_EXPONENT && size == Pow2(f)
  {
    f :| e + 1 <= f <= LAST_EXPONENT && size == Pow2(f);
  }

  // ---------------------------------------------------------------- one call

  class Device {
    var EventBufferSizeHint: nat

    ghost predicate Valid()
      reads this
    {
      PowerFrom(EventBufferSizeHint, FIRST_EXPONENT)
    }

    constructor ()
      ensures Valid() && EventBufferSizeHint == 128
    {
      EventBufferSizeHint := 128;
      Pow2Values();
    }

    /** The growth section under the exclusive lock. */
    method Grow(size: nat) returns (grown: nat)
      requires Valid() && PowerFrom(size, FIRST_EXPONENT)
      modifies this
      ensures Valid()
      ensures grown == EventBufferSizeHint == if old(EventBufferSizeHint) < size then size else old(EventBufferSizeHint)
    {
      if EventBufferSizeHint < size {
        EventBufferSizeHint := size;
        grown := size;
      } else {
        grown := EventBufferSizeHint;
      }
    }

    /** What other threads may have done to the hint meanwhile. */
    method Interference(exponent: nat)
      requires Valid() && FIRST_EXPONENT <= exponent <= LAST_EXPONENT
      modifies this
      ensures Valid()
    {
      if EventBufferSizeHint < Pow2(exponent) {
        EventBufferSizeHint := Pow2(exponent);
      }
    }

    /** One retry: the local size doubles, then the larger of it and the hint is used. */
    method Retry(size: nat, other: nat, ghost e: nat) returns (grown: nat, ghost f: nat)
      requires Valid() && FIRST_EXPONENT <= other <= LAST_EXPONENT
      requires FIRST_EXPONENT <= e <= LAST_EXPONENT && size == Pow2(e) && size < MAX_EVENT
      modifies this
      ensures Valid()
      ensures e < f <= LAST_EXPONENT && grown == Pow2(f)
      ensures size < grown == EventBufferSizeHint
    {
      DoublePower(size, e);
      grown := size * 2 % TWO_TO_32;
      ghost var doubled := grown;
      assert doubled == 2 * size;
      Interference(other);
      WeakerPower(doubled, e + 1);
      grown := Grow(grown);
      LargerPower(doubled, e + 1, grown);
      f := Exponent(grown, e);
    }

    /**
     The retry loop of one call.  Attempt k ends the call without an event if `ends(k)` says so: the
     device is not started, the timeout ran out or the request failed.  Otherwise the driver's event
     needs `needs(k)` bytes; if that is too much, the other threads have raised the hint to at least
     2^others(k) before this call takes the lock, and `memory(k)` says whether the buffer could grow.
     */
    method PollEvent(ends: nat -> bool, needs: nat -> nat, others: nat -> nat, memory: nat -> bool)
      returns (event: bool, size: nat, attempts: nat)
      requires Valid()
      requires forall k :: needs(k) <= MAX_EVENT
      requires forall k :: FIRST_EXPONENT <= others(k) <= LAST_EXPONENT
      modifies this
      ensures Valid()
      ensures attempts <= 23 && PowerFrom(size, FIRST_EXPONENT)
      ensures size >= old(EventBufferSizeHint) && (attempts == 0 ==> size == old(EventBufferSizeHint))
      ensures EventBufferSizeHint >= size
      ensures event <==> !ends(attempts) && needs(attempts) <= size
      ensures !event && !ends(attempts) ==> !memory(attempts)
      ensures forall k | 0 <= k < attempts :: !ends(k) && memory(k) && needs(k) > Pow2(FIRST_EXPONENT + k)
    {
      size, attempts := EventBufferSizeHint, 0;
      ghost var e: nat :| FIRST_EXPONENT <= e <= LAST_EXPONENT && size == Pow2(e);
      while true
        invariant Valid()
        invariant FIRST_EXPONENT + attempts <= e <= LAST_EXPONENT && size == Pow2(e)
        invariant old(EventBufferSizeHint) <= size <= EventBufferSizeHint
        invariant attempts == 0 ==> size == old(EventBufferSizeHint)
        invariant forall k | 0 <= k < attempts :: !ends(k) && memory(k) && needs(k) > Pow2(FIRST_EXPONENT + k)
        decreases LAST_EXPONENT - e
      {
        if ends(attempts) {
          return false, size, attempts;
        }
        if needs(attempts) <= size {
          return true, size, attempts;
        }
        Pow2Ordered(FIRST_EXPONENT + attempts, e);
        assert size < MAX_EVENT;
        var grown;
        ghost var f;
        grown, f := Retry(size, others(attempts), e);
        if !memory(attempts) {
          return false, size, attempts;
        }
        size, e, attempts := grown, f, attempts + 1;
      }
    }
  }
}
