/**
 The report descriptor of the mouse, as a whole: the parser accepts it, and the sizes that it finds
 are those of the reports that the mouse sends and answers.
 */
module MouseDescriptor {
  import opened HidEncoding
  import opened HidItems
  import opened Sequences
  import opened Win32

  /** A list of items from the front. */
  datatype Script = End | Then(first: WrittenItem, rest: Script)

  function Listed(s: Script): seq<WrittenItem>
  {
    match s
    case End => []
    case Then(first, rest) => [first] + Listed(rest)
  }

  /** Running sums over the mouse's two reports; `ok` says that no item was unexpected. */
  datatype Sums = Sums(size: nat, count: nat, id: nat, numbered: bool, basic: nat, resolution: nat, ok: bool)

  /** A legal short item with up to two bytes of data. */
  predicate Small(x: WrittenItem)
  {
    && x.Short? && x.kind < 4 && x.tag < 15
    && ((x.size == 0 && x.data == 0) || (x.size == 1 && x.data < 0x100) || (x.size == 2 && x.data < 0x1_0000))
  }

  /** The bits of a main item, small enough to stay away from every limit. */
  predicate Modest(s: Sums)
  {
    s.size < 0x100 && s.count < 0x100 && s.basic < 0x1_0000 && s.resolution < 0x1_0000
  }

  function Area(s: Sums): nat
  {
    assert s.size * s.count >= 0;
    s.size * s.count
  }

  /** One item of a descriptor without Push, Pop, long items or output reports. */
  function Step(s: Sums, x: WrittenItem): Sums
  {
    if !Small(x) || !Modest(s) || !s.ok then s.(ok := false)
    else if x.kind == 1 && x.tag == 0x7 then s.(size := x.data)
    else if x.kind == 1 && x.tag == 0x8 then s.(id := x.data, numbered := true, ok := x.data <= 255)
    else if x.kind == 1 && x.tag == 0x9 then s.(count := x.data)
    else if x.kind == 1 && (x.tag == 0xA || x.tag == 0xB) then s.(ok := false)
    else if x.kind == 0 && x.tag == 0x8 then
      s.(basic := s.basic + Area(s), ok := s.id == 1)
    else if x.kind == 0 && x.tag == 0xB then
      s.(resolution := s.resolution + Area(s), ok := s.id == 18)
    else s.(ok := x.kind != 0 || x.tag != 0x9)
  }

  function Total(s: Sums, script: Script): Sums
    decreases script
  {
    match script
    case End => s
    case Then(first, rest) => Total(Step(s, first), rest)
  }

  /** What the sums say about the items so far. */
  ghost predicate Matches(p: seq<Item>, s: Sums)
  {
    s.ok ==>
      && ItemsStatus(p) == StatusSuccess
      && InForce(p, 0x7, 0) == s.size && InForce(p, 0x9, 0) == s.count && InForce(p, 0x8, 0) == s.id
      && (Numbered(p) <==> s.numbered)
      && forall id: Byte ::
           && ReportBits(p, 0x8, id) == (if id == 1 then s.basic else 0)
           && ReportBits(p, 0x9, id) == 0
           && ReportBits(p, 0xB, id) == (if id == 18 then s.resolution else 0)
  }

  lemma ModestBits(size: nat, count: nat)
    requires size < 0x100 && count < 0x100
    ensures 0 <= size * count < 0x1_0000
  {
    assert size * count <= size * 0xFF;
  }

  /** What one item does to the meaning of the list. */
  lemma AfterItem(p: seq<Item>, x: Item, main: Byte, id: Byte)
    ensures ReportBits(p + [x], main, id)
         == ReportBits(p, main, id) +
            if x.kind == 0 && x.tag == main && InForce(p, 0x8, 0) == id then FieldBits(p) else 0
    ensures ItemsStatus(p + [x]) == if ItemsStatus(p) != StatusSuccess then ItemsStatus(p) else ItemStatus(p, x)
    ensures Numbered(p + [x]) <==> Numbered(p) || x.IsGlobal(0x8)
  {
    InitLast(p, x);
    NumberedStep(p, x);
  }

  lemma ValuesAfterItem(p: seq<Item>, x: Item, tag: Byte)
    requires !x.IsGlobal(0xA) && !x.IsGlobal(0xB) && 0x7 <= tag <= 0x9
    ensures InForce(p + [x], tag, 0) == if x.IsGlobal(tag) then x.data else InForce(p, tag, 0)
  {
    InitLast(p, x);
  }

  lemma MainAccepted(p: seq<Item>, s: Sums, x: Item)
    requires Matches(p, s) && s.ok && Modest(s) && x.kind == 0 && x.tag != 0x9
    requires x.tag == 0x8 ==> s.id == 1
    requires x.tag == 0xB ==> s.id == 18
    ensures FieldBits(p) == Area(s) && ItemStatus(p, x) == StatusSuccess
  {
    ModestBits(s.size, s.count);
    AfterItem(p, x, 0x8, 1);
    AfterItem(p, x, 0xB, 18);
  }

  lemma ItemMatches(p: seq<Item>, s: Sums, x: WrittenItem, item: Item)
    requires Matches(p, s) && Step(s, x).ok && x.Short? && item == Item(x.kind, x.tag, x.data)
    ensures Matches(p + [item], Step(s, x))
  {
    ValuesAfterItem(p, item, 0x7);
    ValuesAfterItem(p, item, 0x8);
    ValuesAfterItem(p, item, 0x9);
    forall main: Byte, id: Byte
      ensures ReportBits(p + [item], main, id)
           == ReportBits(p, main, id) +
              if x.kind == 0 && x.tag == main && InForce(p, 0x8, 0) == id then FieldBits(p) else 0
    {
      AfterItem(p, item, main, id);
    }
    AfterItem(p, item, 0x8, 0);
    if x.kind == 0 {
      MainAccepted(p, s, item);
    }
  }

  lemma {:induction false} TotalOk(s: Sums, script: Script)
    requires Total(s, script).ok
    ensures s.ok
    decreases script
  {
    match script
    case End =>
    case Then(first, rest) => TotalOk(Step(s, first), rest);
  }

  lemma SmallIsLegal(x: WrittenItem)
    requires Small(x)
    ensures x.Legal()
  {
    assert Capacity(1) == 0x100 && Capacity(2) == 0x1_0000;
  }

  lemma {:induction false} TotalLegal(s: Sums, script: Script)
    requires Total(s, script).ok
    ensures AllLegal(Listed(script))
    decreases script
  {
    match script
    case End =>
    case Then(x, rest) =>
      TotalOk(Step(s, x), rest);
      SmallIsLegal(x);
      TotalLegal(Step(s, x), rest);
  }

  lemma FirstMeaning(x: WrittenItem, rest: Script)
    requires x.Short? && x.Legal() && AllLegal(Listed(rest))
    ensures Meaning(Listed(Then(x, rest))) == [Item(x.kind, x.tag, x.data)] + Meaning(Listed(rest))
  {
    OneMoreItem(x, Listed(rest));
  }

  lemma Regroup(p: seq<Item>, item: Item, rest: seq<Item>)
    ensures p + ([item] + rest) == p + [item] + rest
  {
  }

  lemma {:induction false} TotalMatches(p: seq<Item>, s: Sums, script: Script)
    requires Matches(p, s) && Total(s, script).ok
    ensures Matches(p + Meaning(Listed(script)), Total(s, script))
    decreases script
  {
    match script
    case End => assert p + [] == p;
    case Then(x, rest) =>
      TotalLegal(s, script);
      TotalOk(Step(s, x), rest);
      SmallIsLegal(x);
      TotalLegal(Step(s, x), rest);
      FirstMeaning(x, rest);
      var item := Item(x.kind, x.tag, x.data);
      ItemMatches(p, s, x, item);
      Regroup(p, item, Meaning(Listed(rest)));
      TotalMatches(p + [item], Step(s, x), rest);
  }

  // ---------------------------------------------------------------- k_MouseReportDescriptor

  function Join(s: Script, more: Script): Script
  {
    match s
    case End => more
    case Then(first, rest) => Then(first, Join(rest, more))
  }

  lemma {:induction false} TotalJoin(s: Sums, script: Script, more: Script)
    ensures Total(s, Join(script, more)) == Total(Total(s, script), more)
    decreases script
  {
    match script
    case End =>
    case Then(first, rest) => TotalJoin(Step(s, first), rest, more);
  }

  function Part1(): Script
  {
    Then(Short(1, 0x0, 1, 1), Then(Short(2, 0x0, 1, 2), Then(Short(0, 0xA, 1, 1),
    Then(Short(1, 0x0, 1, 1), Then(Short(2, 0x0, 1, 2), Then(Short(0, 0xA, 1, 2),
    Then(Short(1, 0x8, 1, 1), Then(Short(2, 0x0, 1, 1), End))))))))
  }

  function Part2(): Script
  {
    Then(Short(0, 0xA, 1, 0), Then(Short(1, 0x0, 1, 9), Then(Short(2, 0x1, 1, 1),
    Then(Short(2, 0x2, 1, 5), Then(Short(1, 0x1, 1, 0), Then(Short(1, 0x2, 1, 1),
    Then(Short(1, 0x9, 1, 5), Then(Short(1, 0x7, 1, 1), End))))))))
  }

  function Part3(): Script
  {
    Then(Short(0, 0x8, 1, 2), Then(Short(1, 0x9, 1, 1), Then(Short(1, 0x7, 1, 3),
    Then(Short(0, 0x8, 1, 1), Then(Short(1, 0x0, 1, 1), Then(Short(2, 0x0, 1, 0x30),
    Then(Short(2, 0x0, 1, 0x31), Then(Short(1, 0x9, 1, 2), End))))))))
  }

  function Part4(): Script
  {
    Then(Short(1, 0x7, 1, 0x10), Then(Short(1, 0x1, 2, 0x8001), Then(Short(1, 0x2, 2, 0x7FFF),
    Then(Short(0, 0x8, 1, 6), Then(Short(0, 0xA, 1, 2), Then(Short(1, 0x8, 1, 0x12),
    Then(Short(2, 0x0, 1, 0x48), Then(Short(1, 0x9, 1, 1), End))))))))
  }

  function Part5(): Script
  {
    Then(Short(1, 0x7, 1, 2), Then(Short(1, 0x1, 1, 0), Then(Short(1, 0x2, 1, 1),
    Then(Short(1, 0x3, 1, 1), Then(Short(1, 0x4, 1, 0x78), Then(Short(0, 0xB, 1, 2),
    Then(Short(1, 0x8, 1, 1), Then(Short(2, 0x0, 1, 0x38), End))))))))
  }

  function Part6(): Script
  {
    Then(Short(1, 0x3, 1, 0), Then(Short(1, 0x4, 1, 0), Then(Short(1, 0x9, 1, 1),
    Then(Short(1, 0x7, 1, 0x10), Then(Short(1, 0x1, 2, 0x8001), Then(Short(1, 0x2, 2, 0x7FFF),
    Then(Short(0, 0x8, 1, 6), Then(Short(0, 0xC, 0, 0), End))))))))
  }

  function Part7(): Script
  {
    Then(Short(0, 0xA, 1, 2), Then(Short(1, 0x8, 1, 0x12), Then(Short(2, 0x0, 1, 0x48),
    Then(Short(1, 0x9, 1, 1), Then(Short(1, 0x7, 1, 2), Then(Short(1, 0x1, 1, 0),
    Then(Short(1, 0x2, 1, 1), Then(Short(1, 0x3, 1, 1), End))))))))
  }

  function Part8(): Script
  {
    Then(Short(1, 0x4, 1, 0x78), Then(Short(0, 0xB, 1, 2), Then(Short(1, 0x3, 1, 0),
    Then(Short(1, 0x4, 1, 0), Then(Short(1, 0x7, 1, 4), Then(Short(0, 0xB, 1, 1),
    Then(Short(1, 0x8, 1, 1), Then(Short(1, 0x0, 1, 0xC), End))))))))
  }

  function Part9(): Script
  {
    Then(Short(2, 0x0, 2, 0x238), Then(Short(1, 0x9, 1, 1), Then(Short(1, 0x7, 1, 0x10),
    Then(Short(1, 0x1, 2, 0x8001), Then(Short(1, 0x2, 2, 0x7FFF), Then(Short(0, 0x8, 1, 6),
    Then(Short(0, 0xC, 0, 0), Then(Short(0, 0xC, 0, 0), End))))))))
  }

  function Part10(): Script
  {
    Then(Short(0, 0xC, 0, 0), Then(Short(0, 0xC, 0, 0), End))
  }

  function From10(): Script
  {
    Part10()
  }

  function From9(): Script
  {
    Join(Part9(), From10())
  }

  function From8(): Script
  {
    Join(Part8(), From9())
  }

  function From7(): Script
  {
    Join(Part7(), From8())
  }

  function From6(): Script
  {
    Join(Part6(), From7())
  }

  function From5(): Script
  {
    Join(Part5(), From6())
  }

  function From4(): Script
  {
    Join(Part4(), From5())
  }

  function From3(): Script
  {
    Join(Part3(), From4())
  }

  function From2(): Script
  {
    Join(Part2(), From3())
  }

  function Mouse(): Script
  {
    Join(Part1(), From2())
  }

  lemma Sums1()
    ensures Total(Sums(0, 0, 0, false, 0, 0, true), Part1()) == Sums(0, 0, 1, true, 0, 0, true)
  {
  }

  lemma Sums2()
    ensures Total(Sums(0, 0, 1, true, 0, 0, true), Part2()) == Sums(1, 5, 1, true, 0, 0, true)
  {
  }

  lemma Sums3()
    ensures Total(Sums(1, 5, 1, true, 0, 0, true), Part3()) == Sums(3, 2, 1, true, 8, 0, true)
  {
  }

  lemma Sums4()
    ensures Total(Sums(3, 2, 1, true, 8, 0, true), Part4()) == Sums(16, 1, 18, true, 40, 0, true)
  {
  }

  lemma Sums5()
    ensures Total(Sums(16, 1, 18, true, 40, 0, true), Part5()) == Sums(2, 1, 1, true, 40, 2, true)
  {
  }

  lemma Sums6()
    ensures Total(Sums(2, 1, 1, true, 40, 2, true), Part6()) == Sums(16, 1, 1, true, 56, 2, true)
  {
  }

  lemma Sums7()
    ensures Total(Sums(16, 1, 1, true, 56, 2, true), Part7()) == Sums(2, 1, 18, true, 56, 2, true)
  {
  }

  lemma Sums8()
    ensures Total(Sums(2, 1, 18, true, 56, 2, true), Part8()) == Sums(4, 1, 1, true, 56, 8, true)
  {
  }

  lemma Sums9()
    ensures Total(Sums(4, 1, 1, true, 56, 8, true), Part9()) == Sums(16, 1, 1, true, 72, 8, true)
  {
  }

  lemma Totals10()
    ensures Total(Sums(16, 1, 1, true, 72, 8, true), From10()) == Sums(16, 1, 1, true, 72, 8, true)
  {
  }

  lemma Totals9()
    ensures Total(Sums(4, 1, 1, true, 56, 8, true), From9()) == Sums(16, 1, 1, true, 72, 8, true)
  {
    Sums9();
    Totals10();
    TotalJoin(Sums(4, 1, 1, true, 56, 8, true), Part9(), From10());
  }

  lemma Totals8()
    ensures Total(Sums(2, 1, 18, true, 56, 2, true), From8()) == Sums(16, 1, 1, true, 72, 8, true)
  {
    Sums8();
    Totals9();
    TotalJoin(Sums(2, 1, 18, true, 56, 2, true), Part8(), From9());
  }

  lemma Totals7()
    ensures Total(Sums(16, 1, 1, true, 56, 2, true), From7()) == Sums(16, 1, 1, true, 72, 8, true)
  {
    Sums7();
    Totals8();
    TotalJoin(Sums(16, 1, 1, true, 56, 2, true), Part7(), From8());
  }

  lemma Totals6()
    ensures Total(Sums(2, 1, 1, true, 40, 2, true), From6()) == Sums(16, 1, 1, true, 72, 8, true)
  {
    Sums6();
    Totals7();
    TotalJoin(Sums(2, 1, 1, true, 40, 2, true), Part6(), From7());
  }

  lemma Totals5()
    ensures Total(Sums(16, 1, 18, true, 40, 0, true), From5()) == Sums(16, 1, 1, true, 72, 8, true)
  {
    Sums5();
    Totals6();
    TotalJoin(Sums(16, 1, 18, true, 40, 0, true), Part5(), From6());
  }

  lemma Totals4()
    ensures Total(Sums(3, 2, 1, true, 8, 0, true), From4()) == Sums(16, 1, 1, true, 72, 8, true)
  {
    Sums4();
    Totals5();
    TotalJoin(Sums(3, 2, 1, true, 8, 0, true), Part4(), From5());
  }

  lemma Totals3()
    ensures Total(Sums(1, 5, 1, true, 0, 0, true), From3()) == Sums(16, 1, 1, true, 72, 8, true)
  {
    Sums3();
    Totals4();
    TotalJoin(Sums(1, 5, 1, true, 0, 0, true), Part3(), From4());
  }

  lemma Totals2()
    ensures Total(Sums(0, 0, 1, true, 0, 0, true), From2()) == Sums(16, 1, 1, true, 72, 8, true)
  {
    Sums2();
    Totals3();
    TotalJoin(Sums(0, 0, 1, true, 0, 0, true), Part2(), From3());
  }

  lemma MouseTotals()
    ensures Total(Sums(0, 0, 0, false, 0, 0, true), Mouse()) == Sums(16, 1, 1, true, 72, 8, true)
  {
    Sums1();
    Totals2();
    TotalJoin(Sums(0, 0, 0, false, 0, 0, true), Part1(), From2());
  }

  /** A descriptor with these sums has one 10-byte input report and one 2-byte feature report. */
  lemma ScriptReports(script: Script, id: Byte, row: HidReportSize)
    requires Total(Sums(0, 0, 0, false, 0, 0, true), script) == Sums(16, 1, 1, true, 72, 8, true)
    ensures AllLegal(Listed(script))
    ensures Verdict(Encode(Listed(script))) == StatusSuccess
    ensures RowOf(Encode(Listed(script)), id, row) <==>
            row == if id == 1 then HidReportSize(10, 0, 0) else if id == 18 then HidReportSize(0, 0, 2)
                   else HidReportSize(0, 0, 0)
  {
    TotalLegal(Sums(0, 0, 0, false, 0, 0, true), script);
    TotalMatches([], Sums(0, 0, 0, false, 0, 0, true), script);
    var items := Meaning(Listed(script));
    assert [] + items == items;
    FinalRows(items, id, row);
    EncodedDescriptor(Listed(script), id, row);
  }

  lemma FinalRows(items: seq<Item>, id: Byte, row: HidReportSize)
    requires Matches(items, Sums(16, 1, 1, true, 72, 8, true))
    ensures (&& row.input == ReportBytes(ReportBits(items, INPUT, id), Numbered(items))
             && row.output == ReportBytes(ReportBits(items, OUTPUT, id), Numbered(items))
             && row.feature == ReportBytes(ReportBits(items, FEATURE, id), Numbered(items))) <==>
            row == if id == 1 then HidReportSize(10, 0, 0) else if id == 18 then HidReportSize(0, 0, 2)
                   else HidReportSize(0, 0, 0)
  {
  }

  /**
   The descriptor of the mouse is accepted.  Its input report has ID 1 and 10 bytes, those of
   BASIC_REPORT with its ID, buttons and four 16-bit values; its feature report has ID 18 and the 2
   bytes with which the callback answers; and there is no other report.
   */
  lemma MouseReports(id: Byte, row: HidReportSize)
    ensures AllLegal(Listed(Mouse()))
    ensures Verdict(Encode(Listed(Mouse()))) == StatusSuccess
    ensures RowOf(Encode(Listed(Mouse())), id, row) <==>
            row == if id == 1 then HidReportSize(10, 0, 0) else if id == 18 then HidReportSize(0, 0, 2)
                   else HidReportSize(0, 0, 0)
  {
    MouseTotals();
    ScriptReports(Mouse(), id, row);
  }
}
