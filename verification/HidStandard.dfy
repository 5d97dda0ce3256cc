/**
 Where the driver's parser departs from the Device Class Definition for HID 1.11.

 Section 6.2.2.3 has one prefix for long items, 0xFE, and no long item means anything; the driver
 takes every prefix with tag nibble 0xF for one and acts upon those with 0, 1, 2 or 4 data bytes.
 And only Input, Output and Feature items describe fields, while the driver computes size times
 count, and refuses an overflow, for every main item.
 */
module HidStandard {
  import opened HidItems
  import opened Sequences
  import opened Win32

  // ---------------------------------------------------------------- the standard's items

  const LONG_PREFIX: Byte := 0xFE

  /** The token that starts at `i` by sections 6.2.2.2 and 6.2.2.3. */
  function StandardToken(d: seq<Byte>, i: nat): (t: Option<Token>)
    requires i < |d|
    ensures t.Some? ==> i < t.value.next <= |d|
  {
    if d[i] == LONG_PREFIX then
      if i + 3 > |d| || i + 3 + d[i + 1] > |d| then None else Some(Token(None, i + 3 + d[i + 1]))
    else
      TokenWithData(d, i + 1, d[i] / 4 % 4, d[i] / 16, if d[i] % 4 == 3 then 4 else d[i] % 4)
  }

  function StandardItems(d: seq<Byte>, i: nat): seq<Item>
    requires i <= |d|
    decreases |d| - i
  {
    if i == |d| || StandardToken(d, i).None? then []
    else
      var Token(item, next) := StandardToken(d, i).value;
      AsSeq(item) + StandardItems(d, next)
  }

  predicate StandardWellFormed(d: seq<Byte>, i: nat)
    requires i <= |d|
    decreases |d| - i
  {
    i == |d| || (StandardToken(d, i).Some? && StandardWellFormed(d, StandardToken(d, i).value.next))
  }

  // ---------------------------------------------------------------- items that have an effect

  /** A main item, or one of the global items that the parser knows. */
  predicate Tracked(x: Item)
  {
    || x.kind == MAIN
    || (x.kind == GLOBAL && REPORT_SIZE <= x.tag <= POP)
  }

  function TrackedItems(items: seq<Item>): seq<Item>
  {
    if items == [] then []
    else if Tracked(Last(items)) then TrackedItems(Init(items)) + [Last(items)]
    else TrackedItems(Init(items))
  }

  lemma {:induction false} TrackedAppend(items: seq<Item>, more: seq<Item>)
    ensures TrackedItems(items + more) == TrackedItems(items) + TrackedItems(more)
  {
    if more == [] {
      assert items + more == items;
    } else {
      TrackedAppend(items, Init(more));
      assert Init(items + more) == items + Init(more) && Last(items + more) == Last(more);
    }
  }

  lemma {:induction false} TrackedDepth(items: seq<Item>)
    ensures Depth(TrackedItems(items)) == Depth(items)
  {
    if items == [] {
    } else {
      TrackedDepth(Init(items));
      InitLast(TrackedItems(Init(items)), Last(items));
    }
  }

  lemma {:induction false} TrackedInForce(items: seq<Item>, tag: Byte, skip: nat)
    requires REPORT_SIZE <= tag <= REPORT_COUNT
    ensures InForce(TrackedItems(items), tag, skip) == InForce(items, tag, skip)
  {
    if items == [] {
    } else {
      var x := Last(items);
      InitLast(TrackedItems(Init(items)), x);
      TrackedInForce(Init(items), tag,
                     if x.IsGlobal(POP) then skip + 1 else if x.IsGlobal(PUSH) && skip > 0 then skip - 1 else skip);
    }
  }

  lemma TrackedFieldBits(items: seq<Item>)
    ensures FieldBits(TrackedItems(items)) == FieldBits(items)
  {
    TrackedInForce(items, REPORT_SIZE, 0);
    TrackedInForce(items, REPORT_COUNT, 0);
  }

  lemma {:induction false} TrackedReportBits(items: seq<Item>, main: Byte, id: Byte)
    ensures ReportBits(TrackedItems(items), main, id) == ReportBits(items, main, id)
  {
    if items == [] {
    } else {
      TrackedReportBits(Init(items), main, id);
      TrackedFieldBits(Init(items));
      TrackedInForce(Init(items), REPORT_ID, 0);
      InitLast(TrackedItems(Init(items)), Last(items));
    }
  }

  lemma {:induction false} TrackedNumbered(items: seq<Item>)
    ensures Numbered(TrackedItems(items)) <==> Numbered(items)
  {
    if items == [] {
    } else {
      var before, x := Init(items), Last(items);
      TrackedNumbered(before);
      assert items == before + [x];
      NumberedStep(before, x);
      NumberedStep(TrackedItems(before), x);
    }
  }

  lemma TrackedItemStatus(before: seq<Item>, x: Item)
    ensures ItemStatus(TrackedItems(before), x) == ItemStatus(before, x)
  {
    TrackedDepth(before);
    TrackedFieldBits(before);
    TrackedInForce(before, REPORT_ID, 0);
    if x.AddsBits() {
      var id := InForce(before, REPORT_ID, 0);
      if id <= 255 {
        TrackedReportBits(before + [x], x.tag, id);
        InitLast(before, x);
      }
    }
  }

  lemma {:induction false} TrackedItemsStatus(items: seq<Item>)
    ensures ItemsStatus(TrackedItems(items)) == ItemsStatus(items)
  {
    if items == [] {
    } else {
      var before, x := Init(items), Last(items);
      TrackedItemsStatus(before);
      TrackedItemStatus(before, x);
      InitLast(TrackedItems(before), x);
    }
  }

  // ---------------------------------------------------------------- exactly when both cut alike

  /** What a token does: where it ends, and its item if that has an effect. */
  function Effect(t: Token): Token
  {
    Token(if t.item.Some? && Tracked(t.item.value) then t.item else None, t.next)
  }

  /**
   The prefix at `i` does not mislead the driver: it does not have tag nibble 0xF, or it is 0xFE,
   or the driver's long item happens to end where the standard's short item does, and neither is a
   main item or a global item that the parser knows.
   */
  predicate Harmless(d: seq<Byte>, i: nat)
    requires i < |d|
  {
    || d[i] / 16 != 0xF
    || d[i] == LONG_PREFIX
    || (&& i + 3 <= |d|
        && ((d[i] % 4 == 2 && d[i + 1] == 0) || (d[i] % 4 == 3 && d[i + 1] == 2))
        && d[i] / 4 % 4 != MAIN
        && (d[i] / 4 % 4 == GLOBAL ==> !(REPORT_SIZE <= d[i + 2] <= POP)))
  }

  /**
   The same for the last prefix of a descriptor, where the driver runs out of bytes: so must the
   standard's short item.
   */
  predicate HarmlessEnd(d: seq<Byte>, i: nat)
    requires i < |d|
  {
    || d[i] / 16 != 0xF
    || d[i] == LONG_PREFIX
    || i + 1 + (if d[i] % 4 == 3 then 4 else d[i] % 4) > |d|
  }

  /** All prefixes that the driver finds are harmless. */
  predicate AllHarmless(d: seq<Byte>, i: nat)
    requires i <= |d|
    decreases |d| - i
  {
    || i == |d|
    || (if NextToken(d, i).Some? then Harmless(d, i) && AllHarmless(d, NextToken(d, i).value.next)
        else HarmlessEnd(d, i))
  }

  /** What the driver does with a descriptor, token by token. */
  function DriverCut(d: seq<Byte>, i: nat): seq<Token>
    requires i <= |d|
    decreases |d| - i
  {
    if i == |d| || NextToken(d, i).None? then []
    else [Effect(NextToken(d, i).value)] + DriverCut(d, NextToken(d, i).value.next)
  }

  /** What the standard asks for. */
  function StandardCut(d: seq<Byte>, i: nat): seq<Token>
    requires i <= |d|
    decreases |d| - i
  {
    if i == |d| || StandardToken(d, i).None? then []
    else [Effect(StandardToken(d, i).value)] + StandardCut(d, StandardToken(d, i).value.next)
  }

  lemma ShortSame(d: seq<Byte>, i: nat)
    requires i < |d| && d[i] / 16 != 0xF
    ensures StandardToken(d, i) == NextToken(d, i)
  {
  }

  /** 0xFE has type 3, which the parser ignores. */
  lemma LongSame(d: seq<Byte>, i: nat)
    requires i < |d| && d[i] == LONG_PREFIX
    ensures StandardToken(d, i).Some? <==> NextToken(d, i).Some?
    ensures NextToken(d, i).Some? ==> Effect(StandardToken(d, i).value) == Effect(NextToken(d, i).value)
  {
  }

  lemma MisreadDiffers(d: seq<Byte>, i: nat)
    requires i < |d| && d[i] / 16 == 0xF && d[i] != LONG_PREFIX && NextToken(d, i).Some?
    ensures (&& StandardToken(d, i).Some?
             && Effect(StandardToken(d, i).value) == Effect(NextToken(d, i).value)) <==> Harmless(d, i)
  {
    var code := if d[i] % 4 == 3 then 4 else d[i] % 4;
    if StandardToken(d, i).Some? && StandardToken(d, i).value.next == NextToken(d, i).value.next {
      assert code == 2 + d[i + 1] as int;
      LittleEndianBound(d[i + 1..i + 1 + code]);
      LittleEndianBound(d[i + 3..i + 3 + d[i + 1]]);
    }
  }

  /** Both take the same token at `i`, as far as effects go, or both run out of bytes. */
  predicate SameToken(d: seq<Byte>, i: nat)
    requires i < |d|
  {
    && (NextToken(d, i).Some? <==> StandardToken(d, i).Some?)
    && (NextToken(d, i).Some? ==> Effect(NextToken(d, i).value) == Effect(StandardToken(d, i).value))
  }

  lemma TokenIff(d: seq<Byte>, i: nat)
    requires i < |d|
    ensures SameToken(d, i) <==> if NextToken(d, i).Some? then Harmless(d, i) else HarmlessEnd(d, i)
  {
    if d[i] / 16 != 0xF {
      ShortSame(d, i);
    } else if d[i] == LONG_PREFIX {
      LongSame(d, i);
    } else if NextToken(d, i).Some? {
      MisreadDiffers(d, i);
    }
  }

  /** From `i` on the driver does what the standard asks for, and finds the end where it does. */
  predicate SameCut(d: seq<Byte>, i: nat)
    requires i <= |d|
  {
    DriverCut(d, i) == StandardCut(d, i) && (WellFormed(d, i) <==> StandardWellFormed(d, i))
  }

  lemma SameCutStep(d: seq<Byte>, i: nat)
    requires i < |d|
    ensures SameCut(d, i) <==> SameToken(d, i) && (NextToken(d, i).Some? ==> SameCut(d, NextToken(d, i).value.next))
  {
    if NextToken(d, i).Some? && StandardToken(d, i).Some? {
      var t, u := NextToken(d, i).value, StandardToken(d, i).value;
      assert DriverCut(d, i)[0] == Effect(t) && DriverCut(d, i)[1..] == DriverCut(d, t.next);
      assert StandardCut(d, i)[0] == Effect(u) && StandardCut(d, i)[1..] == StandardCut(d, u.next);
    }
  }

  lemma {:induction false} CutIff(d: seq<Byte>, i: nat)
    requires i <= |d|
    ensures SameCut(d, i) <==> AllHarmless(d, i)
    decreases |d| - i
  {
    if i == |d| {
    } else {
      TokenIff(d, i);
      SameCutStep(d, i);
      if NextToken(d, i).Some? {
        CutIff(d, NextToken(d, i).value.next);
      }
    }
  }

  /**
   For every byte string: the driver does what the standard asks for, token by token, and finds
   the descriptor complete or cut short as it is, exactly when every prefix it finds is harmless.
   */
  lemma CutAsStandardIff(d: seq<Byte>)
    ensures (DriverCut(d, 0) == StandardCut(d, 0) && (WellFormed(d, 0) <==> StandardWellFormed(d, 0)))
       <==> AllHarmless(d, 0)
  {
    CutIff(d, 0);
  }

  lemma TrackedOne(item: Option<Item>, rest: seq<Item>)
    ensures TrackedItems(AsSeq(item) + rest)
         == AsSeq(if item.Some? && Tracked(item.value) then item else None) + TrackedItems(rest)
  {
    TrackedAppend(AsSeq(item), rest);
    if item.Some? {
      InitLast([], item.value);
      assert [] + [item.value] == [item.value];
    }
  }

  lemma {:induction false} HarmlessTracked(d: seq<Byte>, i: nat)
    requires i <= |d| && AllHarmless(d, i)
    ensures TrackedItems(StandardItems(d, i)) == TrackedItems(Items(d, i))
    decreases |d| - i
  {
    if i == |d| {
    } else {
      TokenIff(d, i);
      if NextToken(d, i).Some? {
        var t, u := NextToken(d, i).value, StandardToken(d, i).value;
        HarmlessTracked(d, t.next);
        TrackedOne(t.item, Items(d, t.next));
        TrackedOne(u.item, StandardItems(d, u.next));
      }
    }
  }

  /** The verdict that the driver's rules for items give on the standard's items. */
  function StandardVerdict(d: seq<Byte>): NtStatus
  {
    var status := ItemsStatus(StandardItems(d, 0));
    if status != StatusSuccess then status
    else if StandardWellFormed(d, 0) then StatusSuccess
    else StatusInvalidParameter
  }

  /**
   Then its verdict is the one on the standard's items, and each row of the size table is the one
   that those items describe.
   */
  lemma HarmlessAsStandard(d: seq<Byte>, id: Byte, row: HidReportSize)
    requires AllHarmless(d, 0)
    ensures Verdict(d) == StandardVerdict(d)
    ensures var items := StandardItems(d, 0);
            RowOf(d, id, row) <==>
            && row.input == ReportBytes(ReportBits(items, INPUT, id), Numbered(items))
            && row.output == ReportBytes(ReportBits(items, OUTPUT, id), Numbered(items))
            && row.feature == ReportBytes(ReportBits(items, FEATURE, id), Numbered(items))
  {
    var ours, theirs := Items(d, 0), StandardItems(d, 0);
    CutIff(d, 0);
    HarmlessTracked(d, 0);
    TrackedItemsStatus(ours);
    TrackedItemsStatus(theirs);
    TrackedNumbered(ours);
    TrackedNumbered(theirs);
    SameReportBits(ours, theirs, INPUT, id);
    SameReportBits(ours, theirs, OUTPUT, id);
    SameReportBits(ours, theirs, FEATURE, id);
  }

  lemma SameReportBits(ours: seq<Item>, theirs: seq<Item>, main: Byte, id: Byte)
    requires TrackedItems(ours) == TrackedItems(theirs)
    ensures ReportBits(ours, main, id) == ReportBits(theirs, main, id)
  {
    TrackedReportBits(ours, main, id);
    TrackedReportBits(theirs, main, id);
  }

  const MISREAD: seq<Byte> := [0xF5, 1, 0x08, 0x08]

  /**
   The driver takes a Report ID out of four bytes in which the standard has three short items
   without any effect.
   */
  lemma ReportIdFromShortItem()
    ensures Items(MISREAD, 0) == [Item(1, 0x8, 8)]
    ensures StandardItems(MISREAD, 0) == [Item(1, 0xF, 1), Item(2, 0, 0), Item(2, 0, 0)]
    ensures WellFormed(MISREAD, 0) && StandardWellFormed(MISREAD, 0)
    ensures Numbered(Items(MISREAD, 0)) && !Numbered(StandardItems(MISREAD, 0))
  {
    var d := MISREAD;
    assert d[3..4] == [8] && d[1..2] == [1] && d[3..3] == [] && d[4..4] == [];
    LittleEndianBound([8]);
    LittleEndianBound([1]);
    assert NextToken(d, 0) == Some(Token(Some(Item(GLOBAL, REPORT_ID, 8)), 4));
    assert StandardToken(d, 0) == Some(Token(Some(Item(GLOBAL, 0xF, 1)), 2));
    assert StandardToken(d, 2) == Some(Token(Some(Item(2, 0, 0)), 3));
    assert StandardToken(d, 3) == Some(Token(Some(Item(2, 0, 0)), 4));
    assert StandardItems(d, 4) == [] && Items(d, 4) == [];
    assert StandardItems(d, 3) == [Item(2, 0, 0)];
    assert StandardItems(d, 2) == [Item(2, 0, 0), Item(2, 0, 0)];
    assert Items(d, 0)[0].IsGlobal(REPORT_ID);
  }

  /** A long item of the standard, with one byte of data: it has no item, and the driver's has no effect. */
  lemma LongItemSkipped(tag: Byte, data: Byte)
    ensures StandardItems([0xFE, 1, tag, data], 0) == [] && StandardWellFormed([0xFE, 1, tag, data], 0)
    ensures Items([0xFE, 1, tag, data], 0) == [Item(3, tag, data)] && AllHarmless([0xFE, 1, tag, data], 0)
  {
    var d := [0xFE, 1, tag, data];
    assert d[3..4] == [data];
    LittleEndianBound([data]);
    assert NextToken(d, 0) == Some(Token(Some(Item(3, tag, data)), 4));
    assert StandardToken(d, 0) == Some(Token(None, 4));
    assert Items(d, 4) == [] && StandardItems(d, 4) == [];
  }

  /** The driver turns down as cut short what the standard has as one short item. */
  lemma ShortItemRefused()
    ensures Verdict([0xF1, 5]) == StatusInvalidParameter
    ensures StandardVerdict([0xF1, 5]) == StatusSuccess
    ensures StandardItems([0xF1, 5], 0) == [Item(MAIN, 0xF, 5)]
  {
    var d := [0xF1, 5];
    assert d[1..2] == [5];
    LittleEndianBound([5]);
    assert StandardToken(d, 0) == Some(Token(Some(Item(MAIN, 0xF, 5)), 2));
    assert StandardItems(d, 2) == [];
    InitLast([], Item(MAIN, 0xF, 5));
    assert [] + [Item(MAIN, 0xF, 5)] == [Item(MAIN, 0xF, 5)];
  }

  // ---------------------------------------------------------------- the overflow check

  /** The status of an item when only items that describe fields are checked for an overflow. */
  function FieldItemStatus(before: seq<Item>, x: Item): NtStatus
  {
    if x.kind == MAIN && !x.AddsBits() then StatusSuccess else ItemStatus(before, x)
  }

  function FieldItemsStatus(items: seq<Item>): NtStatus
  {
    if items == [] then StatusSuccess
    else
      var earlier := FieldItemsStatus(Init(items));
      if earlier != StatusSuccess then earlier else FieldItemStatus(Init(items), Last(items))
  }

  /** A Collection, End Collection or reserved main item where size times count overflows. */
  predicate Oversized(before: seq<Item>, x: Item)
  {
    x.kind == MAIN && !x.AddsBits() && FieldBits(before) >= TWO_TO_32
  }

  predicate NoneOversized(items: seq<Item>)
  {
    items == [] || (NoneOversized(Init(items)) && !Oversized(Init(items), Last(items)))
  }

  /**
   The check of all main items turns down exactly those lists in which it finds an oversized item
   that describes no field; where there is none it makes no difference to the status.
   */
  lemma {:induction false} OverflowCheckIff(items: seq<Item>)
    ensures ItemsStatus(items) == StatusSuccess <==> FieldItemsStatus(items) == StatusSuccess && NoneOversized(items)
    ensures NoneOversized(items) ==> ItemsStatus(items) == FieldItemsStatus(items)
    ensures ItemsStatus(items) != FieldItemsStatus(items) ==> ItemsStatus(items) == StatusIntegerOverflow
  {
    if items == [] {
    } else {
      OverflowCheckIff(Init(items));
    }
  }

  /** Report Size 2^16, Report Count 2^16, Collection: refused only by that check. */
  lemma CollectionRefused()
    ensures var size, count := Item(GLOBAL, REPORT_SIZE, 0x1_0000), Item(GLOBAL, REPORT_COUNT, 0x1_0000);
            var items := [size, count, Item(MAIN, 0xA, 1)];
            ItemsStatus(items) == StatusIntegerOverflow && FieldItemsStatus(items) == StatusSuccess
  {
    var size, count := Item(GLOBAL, REPORT_SIZE, 0x1_0000), Item(GLOBAL, REPORT_COUNT, 0x1_0000);
    var collection := Item(MAIN, 0xA, 1);
    var one, two, three := [size], [size, count], [size, count, collection];
    assert Init(one) == [] && Init(two) == one && Init(three) == two;
    assert ItemsStatus(one) == FieldItemsStatus(one) == StatusSuccess;
    assert ItemsStatus(two) == FieldItemsStatus(two) == StatusSuccess;
    assert InForce(one, REPORT_SIZE, 0) == 0x1_0000;
    assert FieldBits(two) == TWO_TO_32;
  }
}
