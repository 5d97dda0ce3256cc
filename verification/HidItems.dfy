/**
 What a HID report descriptor means, stated without a parser.

 A descriptor is cut into items (Device Class Definition for HID 1.11, sections 6.2.2.2 and
 6.2.2.3).  The meaning of the item list needs no stack of state frames: the value of a global
 item in force at some point is found by reading backwards and skipping whatever lies between a
 Pop and its Push (section 6.2.2.7).
 */
module HidItems {
  import opened Sequences
  import opened Win32

  // Item types
  const MAIN: Byte := 0
  const GLOBAL: Byte := 1

  // Tags of global items
  const REPORT_SIZE: Byte := 0x7
  const REPORT_ID: Byte := 0x8
  const REPORT_COUNT: Byte := 0x9
  const PUSH: Byte := 0xA
  const POP: Byte := 0xB

  // Tags of main items
  const INPUT: Byte := 0x8
  const OUTPUT: Byte := 0x9
  const FEATURE: Byte := 0xB

  /** At most this many Push items may be open at once. */
  const MAX_DEPTH: int := 31

  datatype Item = Item(kind: Byte, tag: Byte, data: ULong)
  {
    predicate IsGlobal(t: Byte) { kind == GLOBAL && tag == t }

    /** A main item that adds bits to a report; Collection and End Collection do not. */
    predicate AddsBits() { kind == MAIN && (tag == INPUT || tag == OUTPUT || tag == FEATURE) }
  }

  // ---------------------------------------------------------------- meaning of an item list

  /** Number of Push items minus number of Pop items. */
  function Depth(items: seq<Item>): int
  {
    if items == [] then 0
    else
      Depth(Init(items)) +
      (if Last(items).IsGlobal(PUSH) then 1 else if Last(items).IsGlobal(POP) then -1 else 0)
  }

  /** The value of global item `tag` in force after `items`, once `skip` more frames are popped. */
  function InForce(items: seq<Item>, tag: Byte, skip: nat): ULong
  {
    if items == [] then 0
    else
      var x := Last(items);
      if x.IsGlobal(POP) then InForce(Init(items), tag, skip + 1)
      else if x.IsGlobal(PUSH) then InForce(Init(items), tag, if skip > 0 then skip - 1 else 0)
      else if skip == 0 && x.IsGlobal(tag) then x.data
      else InForce(Init(items), tag, skip)
  }

  /** Bits that a main item placed after `items` describes. */
  function FieldBits(items: seq<Item>): nat
  {
    var size, count := InForce(items, REPORT_SIZE, 0), InForce(items, REPORT_COUNT, 0);
    assert size * count >= 0;
    size * count
  }

  /** Total bits that the main items with tag `main` give to report `id`. */
  function ReportBits(items: seq<Item>, main: Byte, id: Byte): nat
  {
    if items == [] then 0
    else
      var before, x := Init(items), Last(items);
      ReportBits(before, main, id) +
      if x.kind == MAIN && x.tag == main && InForce(before, REPORT_ID, 0) == id
      then FieldBits(before) else 0
  }

  predicate Numbered(items: seq<Item>)
  {
    exists k :: 0 <= k < |items| && items[k].IsGlobal(REPORT_ID)
  }

  /** Whether item `x` is acceptable after `before`, and with which status it is refused if not. */
  function ItemStatus(before: seq<Item>, x: Item): NtStatus
  {
    if x.kind == GLOBAL then
      if x.tag == REPORT_ID && x.data > 255 then StatusInvalidParameter
      else if x.tag == PUSH && Depth(before) >= MAX_DEPTH then StatusNotImplemented
      else if x.tag == POP && Depth(before) <= 0 then StatusInvalidParameter
      else StatusSuccess
    else if x.kind == MAIN then
      var id := InForce(before, REPORT_ID, 0);
      if FieldBits(before) >= TWO_TO_32 then StatusIntegerOverflow
      else if x.AddsBits() && id <= 255 && ReportBits(before + [x], x.tag, id) >= TWO_TO_32 then StatusIntegerOverflow
      else StatusSuccess
    else StatusSuccess
  }

  /** Status of the first refused item, or success. */
  function ItemsStatus(items: seq<Item>): NtStatus
  {
    if items == [] then StatusSuccess
    else
      var earlier := ItemsStatus(Init(items));
      if earlier != StatusSuccess then earlier else ItemStatus(Init(items), Last(items))
  }

  // ---------------------------------------------------------------- cutting bytes into items

  /** One item and the position after it; `item` is None for a long item the driver skips. */
  datatype Token = Token(item: Option<Item>, next: nat)

  function LittleEndian(bytes: seq<Byte>): nat
  {
    if bytes == [] then 0 else bytes[0] + 0x100 * LittleEndian(bytes[1..])
  }

  lemma LittleEndianBound(bytes: seq<Byte>)
    requires |bytes| in {0, 1, 2, 4}
    ensures LittleEndian(bytes) < TWO_TO_32
    ensures |bytes| == 1 ==> LittleEndian(bytes) == bytes[0]
    ensures |bytes| == 2 ==> LittleEndian(bytes) == bytes[0] as int + 0x100 * bytes[1] as int
    ensures |bytes| == 4 ==>
              LittleEndian(bytes) == bytes[0] as int + 0x100 * bytes[1] as int
                                      + 0x1_0000 * bytes[2] as int + 0x100_0000 * bytes[3] as int
  {
    if |bytes| > 0 {
      assert LittleEndian(bytes) == bytes[0] + 0x100 * LittleEndian(bytes[1..]);
      if |bytes| > 1 {
        assert bytes[1..][1..] == bytes[2..];
        if |bytes| == 4 {
          assert bytes[2..][1..] == bytes[3..] && bytes[3..][1..] == [];
        } else {
          assert bytes[2..] == [];
        }
      } else {
        assert bytes[1..] == [];
      }
    }
  }

  /**
   The token that starts at `i`, or None when the descriptor ends inside it.  Any header whose
   tag nibble is 0xF starts a long item; its size and tag come from the next two bytes, its type
   still from the header.
   */
  function NextToken(d: seq<Byte>, i: nat): (t: Option<Token>)
    requires i < |d|
    ensures t.Some? ==> i < t.value.next <= |d|
  {
    var header := d[i];
    var kind := header / 4 % 4;
    if header / 16 == 0xF then
      if i + 3 > |d| then None else TokenWithData(d, i + 3, kind, d[i + 2], d[i + 1])
    else
      TokenWithData(d, i + 1, kind, header / 16, if header % 4 == 3 then 4 else header % 4)
  }

  function TokenWithData(d: seq<Byte>, start: nat, kind: Byte, tag: Byte, size: Byte): (t: Option<Token>)
    requires start <= |d|
    ensures t.Some? ==> t.value.next == start + size <= |d|
  {
    if start + size > |d| then None
    else if size in {0, 1, 2, 4} then
      LittleEndianBound(d[start..start + size]);
      Some(Token(Some(Item(kind, tag, LittleEndian(d[start..start + size]))), start + size))
    else Some(Token(None, start + size))
  }

  /** The items from position `i` on, up to the end or to the first truncated item. */
  function Items(d: seq<Byte>, i: nat): seq<Item>
    requires i <= |d|
    decreases |d| - i
  {
    if i == |d| || NextToken(d, i).None? then []
    else
      var Token(item, next) := NextToken(d, i).value;
      AsSeq(item) + Items(d, next)
  }

  /** No item is truncated from position `i` on. */
  predicate WellFormed(d: seq<Byte>, i: nat)
    requires i <= |d|
    decreases |d| - i
  {
    i == |d| || (NextToken(d, i).Some? && WellFormed(d, NextToken(d, i).value.next))
  }

  /** The verdict on a whole descriptor: the first refused item, else truncation, else success. */
  function Verdict(d: seq<Byte>): NtStatus
  {
    var status := ItemsStatus(Items(d, 0));
    if status != StatusSuccess then status
    else if WellFormed(d, 0) then StatusSuccess
    else StatusInvalidParameter
  }

  // ---------------------------------------------------------------- the report size table

  datatype HidReportSize = HidReportSize(input: ULong, output: ULong, feature: ULong)

  const MAX_REPORT_BYTES: int := 0x2000_0001 // 2^29 + 1

  /** Bytes needed for `bits` bits, with a leading report ID byte when reports are numbered. */
  function ReportBytes(bits: nat, numbered: bool): nat
  {
    if bits == 0 then 0 else (bits + 7) / 8 + if numbered then 1 else 0
  }

  /**
   `size` is the number of bytes that a report of `bits` bits takes: none for no bits, and otherwise
   the least number of bytes that holds them, with one more where reports have IDs.
   */
  predicate HoldsBits(size: int, bits: nat, numbered: bool)
  {
    if bits == 0 then size == 0
    else if numbered then 8 * (size - 2) < bits <= 8 * (size - 1)
    else 8 * (size - 1) < bits <= 8 * size
  }

  lemma ReportBytesLeast(bits: nat, numbered: bool, size: nat)
    ensures size == ReportBytes(bits, numbered) <==> HoldsBits(size, bits, numbered)
  {
  }

  /** `row` is what descriptor `d` says about the reports with this ID. */
  predicate RowOf(d: seq<Byte>, id: Byte, row: HidReportSize)
  {
    var items := Items(d, 0);
    && row.input == ReportBytes(ReportBits(items, INPUT, id), Numbered(items))
    && row.output == ReportBytes(ReportBits(items, OUTPUT, id), Numbered(items))
    && row.feature == ReportBytes(ReportBits(items, FEATURE, id), Numbered(items))
  }

  // ---------------------------------------------------------------- properties of the meaning

  /** An accepted item list is accepted item by item, and so are all its prefixes. */
  lemma {:induction false} AcceptedEverywhere(items: seq<Item>)
    ensures ItemsStatus(items) == StatusSuccess <==>
            forall k | 0 <= k < |items| :: ItemStatus(items[..k], items[k]) == StatusSuccess
  {
    if items == [] {
    } else {
      var before := Init(items);
      AcceptedEverywhere(before);
      assert forall k | 0 <= k < |before| :: before[..k] == items[..k] && before[k] == items[k];
      assert items[..|items| - 1] == before;
    }
  }

  /** An accepted list keeps the report ID in force a byte and every report below 2^32 bits. */
  lemma {:induction false} AcceptedBounds(items: seq<Item>, id: Byte, main: Byte, skip: nat)
    requires ItemsStatus(items) == StatusSuccess
    ensures InForce(items, REPORT_ID, skip) <= 255
    ensures main in {INPUT, OUTPUT, FEATURE} ==> ReportBits(items, main, id) < TWO_TO_32
    ensures 0 <= Depth(items) <= MAX_DEPTH
  {
    if items == [] {
    } else {
      var before, x := Init(items), Last(items);
      AcceptedBounds(before, id, main, skip);
      AcceptedBounds(before, id, main, skip + 1);
      AcceptedBounds(before, id, main, if skip > 0 then skip - 1 else 0);
      AcceptedBounds(before, id, main, 0);
      assert before + [x] == items;
    }
  }

  lemma NumberedStep(before: seq<Item>, x: Item)
    ensures Numbered(before + [x]) <==> Numbered(before) || x.IsGlobal(REPORT_ID)
  {
    var items := before + [x];
    if Numbered(before) {
      var k :| 0 <= k < |before| && before[k].IsGlobal(REPORT_ID);
      assert items[k].IsGlobal(REPORT_ID);
    }
    if x.IsGlobal(REPORT_ID) {
      assert items[|before|].IsGlobal(REPORT_ID);
    }
  }

  predicate PushPopsAccepted(items: seq<Item>)
  {
    forall k | 0 <= k < |items| && (items[k].IsGlobal(PUSH) || items[k].IsGlobal(POP)) ::
      ItemStatus(items[..k], items[k]) == StatusSuccess
  }

  predicate DepthInRange(items: seq<Item>)
  {
    forall k | 0 <= k <= |items| :: 0 <= Depth(items[..k]) <= MAX_DEPTH
  }

  lemma PushPopsAcceptedStep(before: seq<Item>, x: Item)
    ensures PushPopsAccepted(before + [x]) <==>
            PushPopsAccepted(before) &&
            (x.IsGlobal(PUSH) || x.IsGlobal(POP) ==> ItemStatus(before, x) == StatusSuccess)
  {
    var items := before + [x];
    assert items[..|before|] == before;
    assert forall k | 0 <= k < |before| :: before[..k] == items[..k] && before[k] == items[k];
  }

  lemma DepthInRangeStep(before: seq<Item>, x: Item)
    ensures DepthInRange(before + [x]) <==> DepthInRange(before) && 0 <= Depth(before + [x]) <= MAX_DEPTH
  {
    var items := before + [x];
    assert items[..|items|] == items;
    assert forall k | 0 <= k <= |before| :: before[..k] == items[..k];
  }

  /**
   The Push and Pop items of a list are all accepted exactly when no prefix has closed more
   frames than it opened, or holds more than 31 open ones.
   */
  lemma {:induction false} PushPopAccepted(items: seq<Item>)
    ensures PushPopsAccepted(items) <==> DepthInRange(items)
  {
    if items == [] {
    } else {
      var before, x := Init(items), Last(items);
      PushPopAccepted(before);
      assert before[..|before|] == before;
      assert items == before + [x];
      PushPopsAcceptedStep(before, x);
      DepthInRangeStep(before, x);
    }
  }

  /** Reading backwards over a segment that never closes an outer frame. */
  lemma {:induction false} ReadOver(pre: seq<Item>, body: seq<Item>, tag: Byte, skip: nat)
    requires forall k | 0 <= k <= |body| :: Depth(body[..k]) >= 0
    requires skip > Depth(body)
    ensures Depth(body) >= 0
    ensures InForce(pre + body, tag, skip) == InForce(pre, tag, skip - Depth(body))
  {
    assert body[..|body|] == body;
    if body == [] {
      assert pre + body == pre;
    } else {
      var before, x := Init(body), Last(body);
      assert Init(pre + body) == pre + before && Last(pre + body) == x;
      assert forall k | 0 <= k <= |before| :: before[..k] == body[..k];
      assert body[..|before|] == before;
      assert Depth(before) >= 0;
      ReadOver(pre, before, tag,
               if x.IsGlobal(POP) then skip + 1 else if x.IsGlobal(PUSH) then skip - 1 else skip);
    }
  }

  /**
   Push, a segment that never closes more frames than it opened and closes all it opened, Pop:
   every global value is what it was before, whatever the segment set.  Only the fact that a
   Report ID was seen survives.
   */
  lemma BalancedSegmentRestores(pre: seq<Item>, push: Item, body: seq<Item>, pop: Item, tag: Byte, skip: nat)
    requires push.IsGlobal(PUSH) && pop.IsGlobal(POP)
    requires forall k | 0 <= k <= |body| :: Depth(body[..k]) >= 0
    requires Depth(body) == 0
    ensures var after := pre + [push] + body + [pop];
            && InForce(after, tag, skip) == InForce(pre, tag, skip)
            && (Numbered(after) <==> Numbered(pre) || Numbered(body))
  {
    var frame := pre + [push];
    var after := frame + body + [pop];
    InitLast(frame + body, pop);
    InitLast(pre, push);
    ReadOver(frame, body, tag, skip + 1);
    if Numbered(pre) {
      var k :| 0 <= k < |pre| && pre[k].IsGlobal(REPORT_ID);
      assert after[k] == pre[k];
    }
    if Numbered(body) {
      var k :| 0 <= k < |body| && body[k].IsGlobal(REPORT_ID);
      assert after[|frame| + k] == body[k];
    }
    if Numbered(after) {
      var k :| 0 <= k < |after| && after[k].IsGlobal(REPORT_ID);
      if k < |pre| {
        assert pre[k] == after[k];
      } else if k > |pre| && k < |frame| + |body| {
        assert body[k - |frame|] == after[k];
      }
    }
  }

  /** `count` elements of `size` bits, one after the other. */
  function Elements(count: nat, size: nat): nat
  {
    if count == 0 then 0 else Elements(count - 1, size) + size
  }

  lemma {:induction false} ElementsProduct(count: nat, size: nat)
    ensures Elements(count, size) == size * count
  {
    if count == 0 {
    } else {
      ElementsProduct(count - 1, size);
      assert size * count == size * (count - 1) + size;
    }
  }

  /** A field has as many elements as the Report Count in force, each of the Report Size in force. */
  lemma FieldIsElements(items: seq<Item>)
    ensures FieldBits(items) == Elements(InForce(items, 0x9, 0), InForce(items, 0x7, 0))
  {
    ElementsProduct(InForce(items, 0x9, 0), InForce(items, 0x7, 0));
  }

  /** Which items are accepted, and the status of those that are not. */
  lemma ItemAcceptedIff(before: seq<Item>, x: Item)
    ensures var id := InForce(before, 0x8, 0);
            ItemStatus(before, x) == StatusSuccess <==>
            && (x.kind == 1 && x.tag == 0x8 ==> x.data <= 255)
            && (x.kind == 1 && x.tag == 0xA ==> Depth(before) < 31)
            && (x.kind == 1 && x.tag == 0xB ==> Depth(before) > 0)
            && (x.kind == 0 ==> FieldBits(before) <= 0xFFFF_FFFF)
            && (x.kind == 0 && (x.tag == 0x8 || x.tag == 0x9 || x.tag == 0xB) && id <= 255 ==>
                  ReportBits(before, x.tag, id) + FieldBits(before) <= 0xFFFF_FFFF)
    ensures ItemStatus(before, x) != StatusSuccess ==>
              ItemStatus(before, x) == if x.kind == 0 then StatusIntegerOverflow
                                       else if x.tag == 0xA then StatusNotImplemented
                                       else StatusInvalidParameter
  {
    InitLast(before, x);
  }

  /** Push items are accepted up to 31 of them, and a Pop without a Push never. */
  lemma {:induction false} PushLimit(n: nat)
    ensures Depth(seq(n, _ => Item(1, 0xA, 0))) == n
    ensures n <= 31 ==> ItemsStatus(seq(n, _ => Item(1, 0xA, 0))) == StatusSuccess
    ensures n == 32 ==> ItemsStatus(seq(n, _ => Item(1, 0xA, 0))) == StatusNotImplemented
  {
    if n == 0 {
    } else {
      PushLimit(n - 1);
      assert Init(seq(n, _ => Item(1, 0xA, 0))) == seq(n - 1, _ => Item(1, 0xA, 0));
    }
  }

  lemma PopNeedsPush(x: Item)
    requires x.kind == 1 && x.tag == 0xB
    ensures ItemsStatus([x]) == StatusInvalidParameter
  {
    InitLast([], x);
    assert [] + [x] == [x];
  }

  /** No report of an accepted descriptor needs more than 2^29 + 1 bytes. */
  lemma RowBound(d: seq<Byte>, id: Byte, row: HidReportSize)
    requires Verdict(d) == StatusSuccess
    requires RowOf(d, id, row)
    ensures row.input <= MAX_REPORT_BYTES && row.output <= MAX_REPORT_BYTES && row.feature <= MAX_REPORT_BYTES
  {
    AcceptedBounds(Items(d, 0), id, INPUT, 0);
    AcceptedBounds(Items(d, 0), id, OUTPUT, 0);
    AcceptedBounds(Items(d, 0), id, FEATURE, 0);
  }
}
