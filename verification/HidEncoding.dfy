/**
 The writing direction: items as bytes (Device Class Definition for HID 1.11, sections 6.2.2.2 and
 6.2.2.3).  Complete descriptors are exactly the encodings of lists of legal items, and each is
 the encoding of one list only.
 */
module HidEncoding {
  import opened Win32
  import opened HidItems

  /**
   A short item, or a long item with the low four bits of its prefix, of which two are the type
   that the driver acts upon.
   */
  datatype WrittenItem =
    | Short(kind: Byte, tag: Byte, size: Byte, data: ULong)
    | Long(low: Byte, longTag: Byte, bytes: seq<Byte>)
  {
    /**
     Two type bits, short tags up to 14, 0, 1, 2 or 4 bytes of short data, up to 255 bytes of
     long data.
     */
    predicate Legal()
    {
      match this
      case Short(_, _, _, _) => kind < 4 && tag < 15 && size in {0, 1, 2, 4} && data < Capacity(size)
      case Long(_, _, _) => low < 16 && |bytes| <= 255
    }

    /** The item that the driver acts upon, if any. */
    function Meaning(): Option<Item>
    {
      match this
      case Short(_, _, _, _) => Some(Item(kind, tag, data))
      case Long(_, _, _) =>
        if |bytes| in {0, 1, 2, 4} then
          LittleEndianBound(bytes);
          Some(Item(low / 4, longTag, LittleEndian(bytes)))
        else None
    }
  }

  predicate AllLegal(items: seq<WrittenItem>)
  {
    forall k | 0 <= k < |items| :: items[k].Legal()
  }

  /** Number of values that `size` bytes can hold. */
  function Capacity(size: nat): nat
  {
    if size == 0 then 1 else 0x100 * Capacity(size - 1)
  }

  function DataBytes(data: nat, size: nat): (bytes: seq<Byte>)
    ensures |bytes| == size
  {
    if size == 0 then [] else [data % 0x100] + DataBytes(data / 0x100, size - 1)
  }

  function EncodeItem(x: WrittenItem): seq<Byte>
    requires x.Legal()
  {
    match x
    case Short(kind, tag, size, data) =>
      [tag * 16 + kind * 4 + if size == 4 then 3 else size] + DataBytes(data, size)
    case Long(low, tag, bytes) => [0xF0 + low, |bytes|, tag] + bytes
  }

  function Encode(items: seq<WrittenItem>): seq<Byte>
    requires AllLegal(items)
  {
    if items == [] then [] else EncodeItem(items[0]) + Encode(items[1..])
  }

  /** The items that the driver acts upon. */
  function Meaning(items: seq<WrittenItem>): seq<Item>
  {
    if items == [] then [] else AsSeq(items[0].Meaning()) + Meaning(items[1..])
  }

  lemma OneMoreItem(x: WrittenItem, rest: seq<WrittenItem>)
    requires x.Legal() && AllLegal(rest)
    ensures AllLegal([x] + rest)
    ensures Encode([x] + rest) == EncodeItem(x) + Encode(rest)
    ensures Meaning([x] + rest) == AsSeq(x.Meaning()) + Meaning(rest)
  {
    assert ([x] + rest)[1..] == rest;
  }

  lemma {:induction false} DataBytesInverse(data: nat, size: nat)
    requires data < Capacity(size)
    ensures LittleEndian(DataBytes(data, size)) == data
  {
    if size == 0 {
    } else {
      DataBytesInverse(data / 0x100, size - 1);
    }
  }

  lemma LowByte(low: Byte, high: nat)
    ensures (low + 0x100 * high) % 0x100 == low && (low + 0x100 * high) / 0x100 == high
  {
  }

  lemma {:induction false} LittleEndianInverse(bytes: seq<Byte>)
    ensures LittleEndian(bytes) < Capacity(|bytes|)
    ensures DataBytes(LittleEndian(bytes), |bytes|) == bytes
  {
    if bytes == [] {
    } else {
      LittleEndianInverse(bytes[1..]);
      LowByte(bytes[0], LittleEndian(bytes[1..]));
    }
  }

  // ---------------------------------------------------------------- from items to bytes and back

  /** The item written at `i`. */
  function ItemAt(d: seq<Byte>, i: nat): WrittenItem
    requires i < |d| && NextToken(d, i).Some?
  {
    var Token(item, next) := NextToken(d, i).value;
    if d[i] / 16 == 0xF then Long(d[i] % 16, d[i + 2], d[i + 3..next])
    else Short(item.value.kind, item.value.tag, next - i - 1, item.value.data)
  }

  /** The list that a complete descriptor was written from. */
  function WrittenItems(d: seq<Byte>, i: nat): seq<WrittenItem>
    requires i <= |d| && WellFormed(d, i)
    decreases |d| - i
  {
    if i == |d| then [] else [ItemAt(d, i)] + WrittenItems(d, NextToken(d, i).value.next)
  }

  lemma ReadShort(d: seq<Byte>, i: nat, x: WrittenItem)
    requires x.Short? && x.Legal()
    requires i + 1 + x.size <= |d| && d[i..i + 1 + x.size] == EncodeItem(x)
    ensures NextToken(d, i) == Some(Token(x.Meaning(), i + 1 + x.size)) && ItemAt(d, i) == x
  {
    var code := if x.size == 4 then 3 else x.size;
    var header := x.tag * 16 + x.kind * 4 + code;
    assert d[i] == EncodeItem(x)[0] == header;
    assert header / 16 == x.tag && header / 4 % 4 == x.kind && header % 4 == code;
    assert d[i + 1..i + 1 + x.size] == EncodeItem(x)[1..] == DataBytes(x.data, x.size);
    DataBytesInverse(x.data, x.size);
  }

  lemma ReadLong(d: seq<Byte>, i: nat, x: WrittenItem)
    requires x.Long? && x.Legal()
    requires i + 3 + |x.bytes| <= |d| && d[i..i + 3 + |x.bytes|] == EncodeItem(x)
    ensures NextToken(d, i) == Some(Token(x.Meaning(), i + 3 + |x.bytes|)) && ItemAt(d, i) == x
  {
    var e := EncodeItem(x);
    assert d[i] == e[0] == 0xF0 + x.low && d[i + 1] == e[1] && d[i + 2] == e[2];
    assert d[i] / 16 == 0xF && d[i] / 4 % 4 == x.low / 4 && d[i] % 16 == x.low;
    assert d[i + 3..i + 3 + |x.bytes|] == e[3..] == x.bytes;
  }

  /** The encoding of a legal item is read as that item, ending where the encoding ends. */
  lemma ReadOneItem(d: seq<Byte>, i: nat, x: WrittenItem)
    requires x.Legal()
    requires i + |EncodeItem(x)| <= |d| && d[i..i + |EncodeItem(x)|] == EncodeItem(x)
    ensures i < i + |EncodeItem(x)|
    ensures NextToken(d, i) == Some(Token(x.Meaning(), i + |EncodeItem(x)|)) && ItemAt(d, i) == x
  {
    if x.Short? {
      ReadShort(d, i, x);
    } else {
      ReadLong(d, i, x);
    }
  }

  lemma CutHere(d: seq<Byte>, i: nat, first: seq<Byte>, rest: seq<Byte>)
    requires i <= |d| && d[i..] == first + rest
    ensures i + |first| <= |d| && d[i..i + |first|] == first && d[i + |first|..] == rest
  {
    assert d[i..i + |first|] == d[i..][..|first|];
    assert d[i + |first|..] == d[i..][|first|..];
  }

  lemma ReadOneMore(d: seq<Byte>, i: nat, next: nat, x: WrittenItem)
    requires x.Legal() && i <= next <= |d| && d[i..next] == EncodeItem(x)
    requires WellFormed(d, next)
    ensures WellFormed(d, i)
    ensures Items(d, i) == AsSeq(x.Meaning()) + Items(d, next)
    ensures WrittenItems(d, i) == [x] + WrittenItems(d, next)
  {
    ReadOneItem(d, i, x);
  }

  /** The encodings of the items stand one after the other from `i` to the end. */
  ghost predicate StandsAt(d: seq<Byte>, i: nat, items: seq<WrittenItem>)
    requires AllLegal(items)
    decreases items
  {
    if items == [] then i == |d|
    else
      var next := i + |EncodeItem(items[0])|;
      next <= |d| && d[i..next] == EncodeItem(items[0]) && StandsAt(d, next, items[1..])
  }

  lemma {:induction false} EncodedStands(d: seq<Byte>, i: nat, items: seq<WrittenItem>)
    requires AllLegal(items)
    requires i <= |d| && d[i..] == Encode(items)
    ensures StandsAt(d, i, items)
    decreases items
  {
    if items == [] {
    } else {
      var e, rest := EncodeItem(items[0]), items[1..];
      CutHere(d, i, e, Encode(rest));
      EncodedStands(d, i + |e|, rest);
    }
  }

  lemma {:induction false} StandingRead(d: seq<Byte>, i: nat, items: seq<WrittenItem>)
    requires AllLegal(items) && i <= |d| && StandsAt(d, i, items)
    ensures WellFormed(d, i) && Items(d, i) == Meaning(items) && WrittenItems(d, i) == items
    decreases items
  {
    if items == [] {
    } else {
      var next := i + |EncodeItem(items[0])|;
      StandingRead(d, next, items[1..]);
      ReadOneMore(d, i, next, items[0]);
    }
  }

  /** Reading what was written gives the list and its meaning back, wherever the writing starts. */
  lemma ReadBack(d: seq<Byte>, i: nat, items: seq<WrittenItem>)
    requires AllLegal(items)
    requires i <= |d| && d[i..] == Encode(items)
    ensures WellFormed(d, i) && Items(d, i) == Meaning(items) && WrittenItems(d, i) == items
  {
    EncodedStands(d, i, items);
    StandingRead(d, i, items);
  }

  /**
   An encoded list of legal items is judged by its meaning alone, and each row of the size table
   is the one that the list itself describes.
   */
  lemma EncodedDescriptor(items: seq<WrittenItem>, id: Byte, row: HidReportSize)
    requires AllLegal(items)
    ensures Verdict(Encode(items)) == ItemsStatus(Meaning(items))
    ensures RowOf(Encode(items), id, row) <==>
            && row.input == ReportBytes(ReportBits(Meaning(items), INPUT, id), Numbered(Meaning(items)))
            && row.output == ReportBytes(ReportBits(Meaning(items), OUTPUT, id), Numbered(Meaning(items)))
            && row.feature == ReportBytes(ReportBits(Meaning(items), FEATURE, id), Numbered(Meaning(items)))
  {
    assert Encode(items)[0..] == Encode(items);
    ReadBack(Encode(items), 0, items);
  }

  // ---------------------------------------------------------------- from bytes to items and back

  lemma HeaderInverse(header: Byte)
    ensures header == header / 16 * 16 + header / 4 % 4 * 4 + header % 4
    ensures header / 16 == 0xF ==> header == 0xF0 + header % 16
  {
  }

  lemma WriteShort(d: seq<Byte>, i: nat)
    requires i < |d| && d[i] / 16 != 0xF && NextToken(d, i).Some?
    ensures ItemAt(d, i).Legal() && EncodeItem(ItemAt(d, i)) == d[i..NextToken(d, i).value.next]
  {
    var next := NextToken(d, i).value.next;
    var x := ItemAt(d, i);
    var data := d[i + 1..next];
    assert |data| == x.size && x.data == LittleEndian(data);
    LittleEndianInverse(data);
    HeaderInverse(d[i]);
    assert d[i..next] == [d[i]] + data;
  }

  lemma WriteLong(d: seq<Byte>, i: nat)
    requires i < |d| && d[i] / 16 == 0xF && NextToken(d, i).Some?
    ensures ItemAt(d, i).Legal() && EncodeItem(ItemAt(d, i)) == d[i..NextToken(d, i).value.next]
  {
    var next := NextToken(d, i).value.next;
    HeaderInverse(d[i]);
    assert d[i..next] == [d[i], d[i + 1], d[i + 2]] + d[i + 3..next];
  }

  lemma WriteOneItem(d: seq<Byte>, i: nat)
    requires i < |d| && NextToken(d, i).Some?
    ensures ItemAt(d, i).Legal() && EncodeItem(ItemAt(d, i)) == d[i..NextToken(d, i).value.next]
    ensures ItemAt(d, i).Meaning() == NextToken(d, i).value.item
  {
    if d[i] / 16 == 0xF {
      WriteLong(d, i);
    } else {
      WriteShort(d, i);
    }
  }

  lemma WriteOneMore(d: seq<Byte>, i: nat, rest: seq<WrittenItem>)
    requires i < |d| && NextToken(d, i).Some?
    requires AllLegal(rest) && Encode(rest) == d[NextToken(d, i).value.next..]
    ensures AllLegal([ItemAt(d, i)] + rest)
    ensures Encode([ItemAt(d, i)] + rest) == d[i..]
    ensures Meaning([ItemAt(d, i)] + rest) == AsSeq(NextToken(d, i).value.item) + Meaning(rest)
  {
    var next := NextToken(d, i).value.next;
    WriteOneItem(d, i);
    OneMoreItem(ItemAt(d, i), rest);
    assert d[i..] == d[i..next] + d[next..];
  }

  /** Every complete descriptor is the encoding of legal items, and means what they mean. */
  lemma {:induction false} WriteBack(d: seq<Byte>, i: nat)
    requires i <= |d| && WellFormed(d, i)
    ensures AllLegal(WrittenItems(d, i))
    ensures Encode(WrittenItems(d, i)) == d[i..]
    ensures Meaning(WrittenItems(d, i)) == Items(d, i)
    decreases |d| - i
  {
    if i == |d| {
    } else {
      var next := NextToken(d, i).value.next;
      WriteBack(d, next);
      WriteOneMore(d, i, WrittenItems(d, next));
    }
  }

  /** A descriptor is complete exactly when it is the encoding of some list of legal items. */
  lemma CompleteIff(d: seq<Byte>)
    ensures WellFormed(d, 0) <==> exists items :: AllLegal(items) && Encode(items) == d
  {
    assert d[0..] == d;
    if WellFormed(d, 0) {
      WriteBack(d, 0);
    }
    if items :| AllLegal(items) && Encode(items) == d {
      ReadBack(d, 0, items);
    }
  }
}
