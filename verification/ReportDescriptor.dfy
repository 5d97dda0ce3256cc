/**
 The driver's report descriptor parser and the setup requests that store its result.

 The parser is the driver's one-pass loop over a byte cursor, a fixed array of 32 state frames
 and the 256-row size table.  Its contract speaks only of the meaning in HidItems.
 */
module ReportDescriptor {
  import opened HidItems
  import opened Sequences
  import opened Win32

  const MAX_FRAMES: int := 32
  const MAX_DESCRIPTOR: int := 0xFFFF

  /** One parser state frame. */
  datatype Frame = Frame(reportId: Byte, reportCount: ULong, reportSize: ULong)

  /** The frame seen once `skip` frames are popped after `items`. */
  ghost predicate IsFrame(f: Frame, items: seq<Item>, skip: nat)
  {
    && f.reportId == InForce(items, REPORT_ID, skip)
    && f.reportCount == InForce(items, REPORT_COUNT, skip)
    && f.reportSize == InForce(items, REPORT_SIZE, skip)
  }

  /** The used frames, oldest first, hold exactly the values in force. */
  ghost predicate FramesMatch(frames: seq<Frame>, items: seq<Item>)
  {
    && |frames| == Depth(items) + 1
    && forall k | 0 <= k < |frames| :: IsFrame(frames[k], items, |frames| - 1 - k)
  }

  ghost predicate BitsMatch(row: HidReportSize, items: seq<Item>, id: Byte)
  {
    && row.input == ReportBits(items, INPUT, id)
    && row.output == ReportBits(items, OUTPUT, id)
    && row.feature == ReportBits(items, FEATURE, id)
  }

  ghost predicate TableMatches(rows: seq<HidReportSize>, items: seq<Item>)
  {
    && |rows| == 256
    && forall id: Byte :: BitsMatch(rows[id], items, id)
  }

  lemma {:induction false} FirstErrorDecides(items: seq<Item>, rest: seq<Item>)
    requires ItemsStatus(items) != StatusSuccess
    ensures ItemsStatus(items + rest) == ItemsStatus(items)
    decreases rest
  {
    if rest == [] {
      assert items + rest == items;
    } else {
      FirstErrorDecides(items, Init(rest));
      assert Init(items + rest) == items + Init(rest);
    }
  }

  lemma ItemsStatusStep(before: seq<Item>, x: Item)
    requires ItemsStatus(before) == StatusSuccess
    ensures ItemsStatus(before + [x]) == ItemStatus(before, x)
  {
    InitLast(before, x);
  }

  /** `items` are the items found before position `i`. */
  ghost predicate CutAt(d: seq<Byte>, items: seq<Item>, i: nat)
  {
    && i <= |d|
    && Items(d, 0) == items + Items(d, i)
    && (WellFormed(d, 0) <==> WellFormed(d, i))
  }

  lemma CutStep(d: seq<Byte>, items: seq<Item>, i: nat)
    requires CutAt(d, items, i) && i < |d| && NextToken(d, i).Some?
    ensures CutAt(d, items + AsSeq(NextToken(d, i).value.item), NextToken(d, i).value.next)
  {
    var Token(item, next) := NextToken(d, i).value;
    assert items + (AsSeq(item) + Items(d, next)) == items + AsSeq(item) + Items(d, next);
  }

  lemma CutShort(d: seq<Byte>, items: seq<Item>, i: nat)
    requires CutAt(d, items, i) && i < |d| && NextToken(d, i).None?
    requires ItemsStatus(items) == StatusSuccess
    ensures Verdict(d) == StatusInvalidParameter
  {
    assert items + Items(d, i) == items;
  }

  lemma RefusedItem(d: seq<Byte>, items: seq<Item>, x: Item, next: nat)
    requires ItemsStatus(items) == StatusSuccess && ItemStatus(items, x) != StatusSuccess
    requires CutAt(d, items + [x], next)
    ensures Verdict(d) == ItemStatus(items, x)
  {
    ItemsStatusStep(items, x);
    FirstErrorDecides(items + [x], Items(d, next));
  }

  /** How one accepted item changes the used frames. */
  predicate FramesAfter(frames: seq<Frame>, x: Item, frames': seq<Frame>)
    requires |frames| > 0
  {
    var top := frames[|frames| - 1];
    if x.IsGlobal(PUSH) then frames' == frames + [top]
    else if x.IsGlobal(POP) then |frames| > 1 && frames' == frames[..|frames| - 1]
    else if x.IsGlobal(REPORT_ID) then x.data <= 255 && frames' == frames[|frames| - 1 := top.(reportId := x.data)]
    else if x.IsGlobal(REPORT_COUNT) then frames' == frames[|frames| - 1 := top.(reportCount := x.data)]
    else if x.IsGlobal(REPORT_SIZE) then frames' == frames[|frames| - 1 := top.(reportSize := x.data)]
    else frames' == frames
  }

  /** That keeps every used frame at the values in force at its depth. */
  lemma FramesStep(frames: seq<Frame>, before: seq<Item>, x: Item, frames': seq<Frame>)
    requires FramesMatch(frames, before) && |frames| > 0 && FramesAfter(frames, x, frames')
    ensures FramesMatch(frames', before + [x])
  {
    var items := before + [x];
    InitLast(before, x);
    forall k | 0 <= k < |frames'| ensures IsFrame(frames'[k], items, |frames'| - 1 - k) {
      var skip := |frames'| - 1 - k;
      if x.IsGlobal(PUSH) {
        assert IsFrame(frames[if k == |frames| then k - 1 else k], before, if skip > 0 then skip - 1 else 0);
      } else if x.IsGlobal(POP) {
        assert IsFrame(frames[k], before, skip + 1);
      } else {
        assert IsFrame(frames[k], before, skip);
      }
    }
  }

  /** The table after one more item, given the row and column it adds to. */
  lemma TableStep(rows: seq<HidReportSize>, before: seq<Item>, x: Item, rows': seq<HidReportSize>)
    requires TableMatches(rows, before) && InForce(before, REPORT_ID, 0) <= 255
    requires var id: Byte, bits := InForce(before, REPORT_ID, 0), FieldBits(before);
             if x.kind == MAIN && x.tag == INPUT then
               rows[id].input + bits < TWO_TO_32 && rows' == rows[id := rows[id].(input := rows[id].input + bits)]
             else if x.kind == MAIN && x.tag == OUTPUT then
               rows[id].output + bits < TWO_TO_32 && rows' == rows[id := rows[id].(output := rows[id].output + bits)]
             else if x.kind == MAIN && x.tag == FEATURE then
               rows[id].feature + bits < TWO_TO_32 && rows' == rows[id := rows[id].(feature := rows[id].feature + bits)]
             else rows' == rows
    ensures TableMatches(rows', before + [x])
  {
    InitLast(before, x);
    forall id: Byte ensures BitsMatch(rows'[id], before + [x], id) {
      assert BitsMatch(rows[id], before, id);
    }
  }

  /** WINUHID_DEVICE_INFO without its interface version, which the driver ignores. */
  datatype DeviceInfo = DeviceInfo(
    supportedEvents: ULong, vendorId: nat, productId: nat, versionNumber: nat, containerId: seq<Byte>)

  const ALL_EVENTS: ULong := 0xF

  /** The VHF callbacks for get and set feature, write report, and the two for read report. */
  datatype Callbacks = Callbacks(getFeature: bool, setFeature: bool, writeReport: bool, readReport: bool)

  const NO_CALLBACKS: Callbacks := Callbacks(false, false, false, false)

  /** The flags of the events that have a callback. */
  function EventFlags(c: Callbacks): ULong
  {
    (if c.getFeature then 1 else 0) + (if c.setFeature then 2 else 0) +
    (if c.writeReport then 4 else 0) + (if c.readReport then 8 else 0)
  }

  /** The callbacks for the events of these flags. */
  function CallbacksFor(events: ULong): Callbacks
  {
    Callbacks(events % 2 == 1, events / 2 % 2 == 1, events / 4 % 2 == 1, events / 8 % 2 == 1)
  }

  lemma CallbackFlags(events: ULong)
    requires events <= ALL_EVENTS
    ensures CallbacksFor(events).getFeature <==> events in {1, 3, 5, 7, 9, 11, 13, 15}
    ensures CallbacksFor(events).setFeature <==> events in {2, 3, 6, 7, 10, 11, 14, 15}
    ensures CallbacksFor(events).writeReport <==> events in {4, 5, 6, 7, 12, 13, 14, 15}
    ensures CallbacksFor(events).readReport <==> events in {8, 9, 10, 11, 12, 13, 14, 15}
  {
  }

  lemma FlagsInverse(events: ULong)
    requires events <= ALL_EVENTS
    ensures EventFlags(CallbacksFor(events)) == events
  {
  }

  lemma GlobalKeepsTable(rows: seq<HidReportSize>, before: seq<Item>, x: Item)
    requires TableMatches(rows, before) && ItemsStatus(before) == StatusSuccess && x.kind == GLOBAL
    ensures TableMatches(rows, before + [x])
  {
    AcceptedBounds(before, 0, INPUT, 0);
    TableStep(rows, before, x, rows);
  }

  /** Each column of the row is the size of what the items give to that report. */
  ghost predicate RowHolds(row: HidReportSize, items: seq<Item>, id: Byte)
  {
    && HoldsBits(row.input, ReportBits(items, 0x8, id), Numbered(items))
    && HoldsBits(row.output, ReportBits(items, 0x9, id), Numbered(items))
    && HoldsBits(row.feature, ReportBits(items, 0xB, id), Numbered(items))
  }

  lemma RowMeaning(d: seq<Byte>, id: Byte, row: HidReportSize)
    ensures RowOf(d, id, row) <==> RowHolds(row, Items(d, 0), id)
  {
    var items := Items(d, 0);
    ReportBytesLeast(ReportBits(items, 0x8, id), Numbered(items), row.input);
    ReportBytesLeast(ReportBits(items, 0x9, id), Numbered(items), row.output);
    ReportBytesLeast(ReportBits(items, 0xB, id), Numbered(items), row.feature);
  }

  lemma NumberedMeaning(items: seq<Item>)
    ensures Numbered(items) <==> exists k :: 0 <= k < |items| && items[k].kind == 1 && items[k].tag == 0x8
  {
    if Numbered(items) {
      var k :| 0 <= k < |items| && items[k].IsGlobal(REPORT_ID);
      assert items[k].kind == 1 && items[k].tag == 0x8;
    }
    if k :| 0 <= k < |items| && items[k].kind == 1 && items[k].tag == 0x8 {
      assert items[k].IsGlobal(REPORT_ID);
    }
  }

  class FileContext {
    var DeviceInfoSet: bool
    /** What VHF will be told of the device, without its supported events. */
    var VendorID: nat
    var ProductID: nat
    var VersionNumber: nat
    var ContainerID: seq<Byte>
    var Registered: Callbacks
    /** The stored descriptor; empty while none is set. */
    var ReportDescriptor: seq<Byte>
    const ReportSizes: array<HidReportSize>
    var NumberedReports: bool
    /** Whether the child device exists. */
    var VhfHandle: bool

    /** A stored descriptor was accepted and the table is its table; a device has a descriptor. */
    ghost predicate Valid()
      reads this, ReportSizes
    {
      && ReportSizes.Length == 256
      && |ReportDescriptor| <= MAX_DESCRIPTOR
      && (VhfHandle ==> ReportDescriptor != [] && DeviceInfoSet)
      && (!DeviceInfoSet ==> Registered == NO_CALLBACKS)
      && (ReportDescriptor != [] ==> TableOf(ReportDescriptor))
    }

    /** The size table and the numbering flag are those of the accepted descriptor `d`. */
    ghost predicate TableOf(d: seq<Byte>)
      requires ReportSizes.Length == 256
      reads this, ReportSizes
    {
      && Verdict(d) == StatusSuccess
      && (NumberedReports <==> Numbered(Items(d, 0)))
      && forall id: Byte :: RowOf(d, id, ReportSizes[id])
    }

    constructor ()
      ensures Valid() && fresh(ReportSizes)
      ensures !DeviceInfoSet && ReportDescriptor == [] && !VhfHandle
    {
      DeviceInfoSet, ReportDescriptor, NumberedReports, VhfHandle := false, [], false, false;
      VendorID, ProductID, VersionNumber, ContainerID, Registered := 0, 0, 0, [], NO_CALLBACKS;
      ReportSizes := new HidReportSize[256](_ => HidReportSize(0, 0, 0));
    }

    /** Everything the parse loop knows once it has consumed `items`. */
    ghost predicate Consumed(frames: array<Frame>, currentFrame: nat, items: seq<Item>)
      reads this, ReportSizes, frames
    {
      && frames.Length == MAX_FRAMES && currentFrame < MAX_FRAMES
      && ItemsStatus(items) == StatusSuccess
      && FramesMatch(frames[..currentFrame + 1], items)
      && TableMatches(ReportSizes[..], items)
      && (NumberedReports <==> Numbered(items))
    }

    /** Reads the item at `i`, as the parse loop does before it looks at the item's type. */
    method ReadItem(i: nat) returns (inBounds: bool, item: Option<Item>, next: nat)
      requires i < |ReportDescriptor| <= MAX_DESCRIPTOR
      ensures inBounds <==> NextToken(ReportDescriptor, i).Some?
      ensures inBounds ==> NextToken(ReportDescriptor, i) == Some(Token(item, next))
    {
      var d := ReportDescriptor;
      var header := d[i];
      next := i + 1;
      var tag: Byte, kind: Byte, size: Byte := header / 16 % 16, header / 4 % 4, header % 4;
      item := None;
      if tag == 0xF {
        if next + 2 > |d| {
          return false, None, next;
        }
        size := d[next];
        tag := d[next + 1];
        next := next + 2;
      } else if size == 3 {
        size := 4;
      }
      if next + size > |d| {
        return false, None, next;
      }
      var data := ReadData(d, next, size);
      item := if data.Some? then Some(Item(kind, tag, data.value)) else None;
      return true, item, next + size;
    }

    /** The value of 0, 1, 2 or 4 data bytes; a long item of another size has none. */
    static method ReadData(d: seq<Byte>, at: nat, size: nat) returns (data: Option<ULong>)
      requires at + size <= |d|
      ensures data == if size in {0, 1, 2, 4} then Some(LittleEndian(d[at..at + size])) else None
    {
      LittleEndianBound(if size in {0, 1, 2, 4} then d[at..at + size] else []);
      if size == 0 {
        data := Some(0);
      } else if size == 1 {
        data := Some(d[at]);
      } else if size == 2 {
        data := Some(d[at] as int + d[at + 1] as int * 0x100);
      } else if size == 4 {
        data := Some(d[at] as int + d[at + 1] as int * 0x100
                     + d[at + 2] as int * 0x1_0000 + d[at + 3] as int * 0x100_0000);
      } else {
        data := None;
      }
    }

    /** Sets a value in the current frame, or opens or closes a frame, within the array. */
    method UpdateFrames(frames: array<Frame>, currentFrame: nat, x: Item) returns (status: NtStatus, frame: nat)
      requires frames.Length == MAX_FRAMES && currentFrame < MAX_FRAMES && x.kind == GLOBAL
      modifies frames, this`NumberedReports
      ensures status == if x.tag == REPORT_ID && x.data > 0xFF then StatusInvalidParameter
                        else if x.tag == PUSH && currentFrame + 1 >= MAX_FRAMES then StatusNotImplemented
                        else if x.tag == POP && currentFrame == 0 then StatusInvalidParameter
                        else StatusSuccess
      ensures status == StatusSuccess ==>
                && frame < MAX_FRAMES
                && FramesAfter(old(frames[..currentFrame + 1]), x, frames[..frame + 1])
                && (NumberedReports <==> old(NumberedReports) || x.tag == REPORT_ID)
    {
      frame := currentFrame;
      ghost var was := frames[..currentFrame + 1];
      if x.tag == REPORT_SIZE {
        frames[frame] := frames[frame].(reportSize := x.data);
        assert frames[..frame + 1] == was[frame := was[frame].(reportSize := x.data)];
      } else if x.tag == REPORT_ID {
        if x.data > 0xFF {
          return StatusInvalidParameter, frame;
        }
        frames[frame] := frames[frame].(reportId := x.data);
        assert frames[..frame + 1] == was[frame := was[frame].(reportId := x.data)];
        NumberedReports := true;
      } else if x.tag == REPORT_COUNT {
        frames[frame] := frames[frame].(reportCount := x.data);
        assert frames[..frame + 1] == was[frame := was[frame].(reportCount := x.data)];
      } else if x.tag == PUSH {
        if currentFrame + 1 >= MAX_FRAMES {
          return StatusNotImplemented, frame;
        }
        frames[frame + 1] := frames[frame];
        frame := frame + 1;
        assert frames[..frame + 1] == was + [was[frame - 1]];
      } else if x.tag == POP {
        if currentFrame == 0 {
          return StatusInvalidParameter, frame;
        }
        frame := frame - 1;
        assert frames[..frame + 1] == was[..frame + 1];
      }
      status := StatusSuccess;
    }

    /** A global item: the frames, the table and the numbering flag stay those of the items. */
    method ApplyGlobal(frames: array<Frame>, currentFrame: nat, x: Item, ghost before: seq<Item>)
      returns (status: NtStatus, frame: nat)
      requires Consumed(frames, currentFrame, before) && x.kind == GLOBAL
      modifies frames, this`NumberedReports
      ensures status == ItemStatus(before, x)
      ensures status == StatusSuccess ==> Consumed(frames, frame, before + [x])
    {
      ghost var was := frames[..currentFrame + 1];
      status, frame := UpdateFrames(frames, currentFrame, x);
      if status == StatusSuccess {
        ItemsStatusStep(before, x);
        NumberedStep(before, x);
        GlobalKeepsTable(ReportSizes[..], before, x);
        FramesStep(was, before, x, frames[..frame + 1]);
      }
    }

    /** A main item: Input, Output and Feature add their bits to a row of the table. */
    method ApplyMain(frames: array<Frame>, currentFrame: nat, x: Item, ghost before: seq<Item>)
      returns (status: NtStatus)
      requires Consumed(frames, currentFrame, before) && x.kind == MAIN
      modifies ReportSizes
      ensures status == ItemStatus(before, x)
      ensures status == StatusSuccess ==> Consumed(frames, currentFrame, before + [x])
    {
      ghost var was := ReportSizes[..];
      var top := frames[currentFrame];
      assert IsFrame(frames[..currentFrame + 1][currentFrame], before, 0);
      assert BitsMatch(was[top.reportId], before, top.reportId);
      InitLast(before, x);
      var reportDataBits := MultiplyBits(top.reportSize, top.reportCount);
      assert reportDataBits == FieldBits(before);
      if reportDataBits >= TWO_TO_32 {
        return StatusIntegerOverflow;
      }
      var row := ReportSizes[top.reportId];
      if x.tag == INPUT {
        if row.input + reportDataBits >= TWO_TO_32 {
          return StatusIntegerOverflow;
        }
        ReportSizes[top.reportId] := row.(input := row.input + reportDataBits);
      } else if x.tag == OUTPUT {
        if row.output + reportDataBits >= TWO_TO_32 {
          return StatusIntegerOverflow;
        }
        ReportSizes[top.reportId] := row.(output := row.output + reportDataBits);
      } else if x.tag == FEATURE {
        if row.feature + reportDataBits >= TWO_TO_32 {
          return StatusIntegerOverflow;
        }
        ReportSizes[top.reportId] := row.(feature := row.feature + reportDataBits);
      }
      status := StatusSuccess;
      ItemsStatusStep(before, x);
      NumberedStep(before, x);
      TableStep(was, before, x, ReportSizes[..]);
      FramesStep(frames[..currentFrame + 1], before, x, frames[..currentFrame + 1]);
    }

    /** One item of any type. */
    method ApplyItem(frames: array<Frame>, currentFrame: nat, x: Item, ghost before: seq<Item>)
      returns (status: NtStatus, frame: nat)
      requires Consumed(frames, currentFrame, before)
      modifies frames, this`NumberedReports, ReportSizes
      ensures status == ItemStatus(before, x)
      ensures status == StatusSuccess ==> Consumed(frames, frame, before + [x])
    {
      status, frame := StatusSuccess, currentFrame;
      if x.kind == GLOBAL {
        status, frame := ApplyGlobal(frames, currentFrame, x, before);
      } else if x.kind == MAIN {
        status := ApplyMain(frames, currentFrame, x, before);
      } else {
        SkippedItem(frames, currentFrame, x, before);
      }
    }

    /** The parse loop: it stops at the first item it refuses. */
    method ParseItems() returns (status: NtStatus)
      requires ReportSizes.Length == 256 && |ReportDescriptor| <= MAX_DESCRIPTOR
      requires TableMatches(ReportSizes[..], []) && !NumberedReports
      modifies this`NumberedReports, ReportSizes
      ensures status == Verdict(ReportDescriptor)
      ensures status == StatusSuccess ==>
                && TableMatches(ReportSizes[..], Items(ReportDescriptor, 0))
                && (NumberedReports <==> Numbered(Items(ReportDescriptor, 0)))
    {
      var frames := new Frame[MAX_FRAMES](_ => Frame(0, 0, 0));
      var currentFrame: nat := 0;
      var i := 0;
      ghost var items: seq<Item> := [];
      while i < |ReportDescriptor|
        invariant fresh(frames)
        invariant CutAt(ReportDescriptor, items, i)
        invariant Consumed(frames, currentFrame, items)
      {
        var inBounds, item, next := ReadItem(i);
        if !inBounds {
          CutShort(ReportDescriptor, items, i);
          return StatusInvalidParameter;
        }
        CutStep(ReportDescriptor, items, i);
        if item.Some? {
          status, currentFrame := ApplyItem(frames, currentFrame, item.value, items);
          if status != StatusSuccess {
            RefusedItem(ReportDescriptor, items, item.value, next);
            return;
          }
          items := items + [item.value];
        } else {
          assert items + AsSeq(item) == items;
        }
        i := next;
      }
      assert items + Items(ReportDescriptor, i) == items;
      status := StatusSuccess;
    }

    /** Local and reserved items change nothing. */
    lemma SkippedItem(frames: array<Frame>, currentFrame: nat, x: Item, before: seq<Item>)
      requires Consumed(frames, currentFrame, before) && x.kind != GLOBAL && x.kind != MAIN
      ensures Consumed(frames, currentFrame, before + [x])
    {
      ItemsStatusStep(before, x);
      NumberedStep(before, x);
      AcceptedBounds(before, 0, INPUT, 0);
      TableStep(ReportSizes[..], before, x, ReportSizes[..]);
      FramesStep(frames[..currentFrame + 1], before, x, frames[..currentFrame + 1]);
    }

    /** Clears the table, runs the parse loop and turns each row from bits into bytes. */
    method ParseReportDescriptor() returns (status: NtStatus)
      requires ReportSizes.Length == 256 && |ReportDescriptor| <= MAX_DESCRIPTOR
      modifies this`NumberedReports, ReportSizes
      ensures status == Verdict(ReportDescriptor)
      ensures status == StatusSuccess ==> TableOf(ReportDescriptor)
      ensures status == StatusSuccess ==>
                var items := Items(ReportDescriptor, 0);
                var numbered := exists k :: 0 <= k < |items| && items[k].kind == 1 && items[k].tag == 0x8;
                && (NumberedReports <==> numbered)
                && (forall id: Byte :: HoldsBits(ReportSizes[id].input, ReportBits(items, 0x8, id), numbered))
                && (forall id: Byte :: HoldsBits(ReportSizes[id].output, ReportBits(items, 0x9, id), numbered))
                && (forall id: Byte :: HoldsBits(ReportSizes[id].feature, ReportBits(items, 0xB, id), numbered))
    {
      NumberedReports := false;
      forall k | 0 <= k < 256 {
        ReportSizes[k] := HidReportSize(0, 0, 0);
      }
      status := ParseItems();
      if status != StatusSuccess {
        return;
      }
      ghost var bits, items := ReportSizes[..], Items(ReportDescriptor, 0);
      for i := 0 to 256
        invariant ReportSizes[i..] == bits[i..]
        invariant NumberedReports <==> Numbered(items)
        invariant forall id: Byte | id < i :: RowOf(ReportDescriptor, id, ReportSizes[id])
      {
        assert ReportSizes[i] == ReportSizes[i..][0] == bits[i];
        assert BitsMatch(bits[i], items, i);
        AcceptedBounds(items, i, INPUT, 0);
        AcceptedBounds(items, i, OUTPUT, 0);
        AcceptedBounds(items, i, FEATURE, 0);
        var row := ReportSizes[i];
        if row.input != 0 {
          row := row.(input := PostProcessReportSize(row.input, NumberedReports));
        }
        if row.output != 0 {
          row := row.(output := PostProcessReportSize(row.output, NumberedReports));
        }
        if row.feature != 0 {
          row := row.(feature := PostProcessReportSize(row.feature, NumberedReports));
        }
        ReportSizes[i] := row;
        assert RowOf(ReportDescriptor, i, ReportSizes[i]);
      }
      forall id: Byte ensures RowHolds(ReportSizes[id], items, id) {
        RowMeaning(ReportDescriptor, id, ReportSizes[id]);
      }
      NumberedMeaning(items);
    }

    // -------------------------------------------------------------- setup requests

    function Info(): DeviceInfo
      reads this
    {
      DeviceInfo(EventFlags(Registered), VendorID, ProductID, VersionNumber, ContainerID)
    }

    method RegisterCallbacks(events: ULong)
      requires Registered == NO_CALLBACKS
      modifies this`Registered
      ensures Registered == CallbacksFor(events)
    {
      if events % 2 == 1 {
        Registered := Registered.(getFeature := true);
      }
      if events / 2 % 2 == 1 {
        Registered := Registered.(setFeature := true);
      }
      if events / 4 % 2 == 1 {
        Registered := Registered.(writeReport := true);
      }
      if events / 8 % 2 == 1 {
        Registered := Registered.(readReport := true);
      }
    }

    /** IOCTL_WINUHID_SET_DEVICE_INFO; `info` is None if the input buffer is too small. */
    method SetDeviceInfo(info: Option<DeviceInfo>) returns (status: NtStatus)
      requires Valid()
      modifies this`DeviceInfoSet, this`VendorID, this`ProductID, this`VersionNumber, this`ContainerID, this`Registered
      ensures Valid()
      ensures status == if old(DeviceInfoSet) || VhfHandle then StatusInvalidDeviceState
                        else if info.None? then StatusBufferTooSmall
                        else if info.value.supportedEvents > ALL_EVENTS then StatusNotSupported
                        else StatusSuccess
      ensures status == StatusSuccess ==> DeviceInfoSet && Info() == info.value
      ensures status == StatusSuccess ==>
                && (Registered.getFeature <==> info.value.supportedEvents in {1, 3, 5, 7, 9, 11, 13, 15})
                && (Registered.setFeature <==> info.value.supportedEvents in {2, 3, 6, 7, 10, 11, 14, 15})
                && (Registered.writeReport <==> info.value.supportedEvents in {4, 5, 6, 7, 12, 13, 14, 15})
                && (Registered.readReport <==> info.value.supportedEvents in {8, 9, 10, 11, 12, 13, 14, 15})
      ensures status != StatusSuccess ==> DeviceInfoSet == old(DeviceInfoSet) && Info() == old(Info())
    {
      if DeviceInfoSet || VhfHandle {
        return StatusInvalidDeviceState;
      }
      if info.None? {
        return StatusBufferTooSmall;
      }
      var i := info.value;
      if i.supportedEvents / 16 != 0 {
        return StatusNotSupported;
      }
      VendorID, ProductID, VersionNumber, ContainerID := i.vendorId, i.productId, i.versionNumber, i.containerId;
      RegisterCallbacks(i.supportedEvents);
      FlagsInverse(i.supportedEvents);
      CallbackFlags(i.supportedEvents);
      DeviceInfoSet := true;
      return StatusSuccess;
    }

    /** IOCTL_WINUHID_SET_REPORT_DESCRIPTOR; `memoryOk` says that the copy could be allocated. */
    method SetReportDescriptor(input: seq<Byte>, memoryOk: bool) returns (status: NtStatus)
      requires Valid()
      modifies this`ReportDescriptor, this`NumberedReports, ReportSizes
      ensures Valid()
      ensures status == if old(ReportDescriptor) != [] || VhfHandle then StatusInvalidDeviceState
                        else if input == [] then StatusBufferTooSmall
                        else if |input| > MAX_DESCRIPTOR then StatusInvalidParameter
                        else if !memoryOk then StatusInsufficientResources
                        else Verdict(input)
      ensures ReportDescriptor == if status == StatusSuccess then input else old(ReportDescriptor)
      ensures old(ReportDescriptor) != [] ==> ReportSizes[..] == old(ReportSizes[..])
    {
      if ReportDescriptor != [] || VhfHandle {
        return StatusInvalidDeviceState;
      }
      if |input| < 1 {
        return StatusBufferTooSmall;
      } else if |input| > MAX_DESCRIPTOR {
        return StatusInvalidParameter;
      }
      if !memoryOk {
        return StatusInsufficientResources;
      }
      ReportDescriptor := input;
      status := ParseReportDescriptor();
      if status != StatusSuccess {
        ReportDescriptor := [];
      }
    }

    /** IOCTL_WINUHID_CREATE_DEVICE; `vhfOk` says that VHF could create the child device. */
    method CreateDevice(vhfOk: bool) returns (status: NtStatus)
      requires Valid()
      modifies this`VhfHandle
      ensures Valid()
      ensures status == if old(VhfHandle) || ReportDescriptor == [] || !DeviceInfoSet then StatusInvalidDeviceState
                        else if !vhfOk then StatusUnsuccessful
                        else StatusSuccess
      ensures VhfHandle <==> old(VhfHandle) || status == StatusSuccess
      ensures VhfHandle ==> TableOf(ReportDescriptor)
    {
      if VhfHandle || |ReportDescriptor| == 0 || !DeviceInfoSet {
        return StatusInvalidDeviceState;
      }
      if !vhfOk {
        return StatusUnsuccessful;
      }
      VhfHandle := true;
      return StatusSuccess;
    }
  }

  function MultiplyBits(size: ULong, count: ULong): nat
  {
    assert size * count >= 0;
    size * count
  }

  /** Rounds bits up to bytes and adds the report ID byte. */
  function PostProcessReportSize(size: ULong, numberedReports: bool): (r: ULong)
    ensures size > 0 ==> r == ReportBytes(size, numberedReports) && HoldsBits(r, size, numberedReports)
  {
    var bytes := if size % 8 != 0 then size / 8 + 1 else size / 8;
    if numberedReports then bytes + 1 else bytes
  }
}
