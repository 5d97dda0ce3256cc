/**
 WINUHID_EVENT in memory, packed: the type and the request ID in four bytes each, the report ID, the
 data length in four bytes, and the data.  The structure has room for one byte of data, so its header
 is 14 bytes long while the data starts at offset 13.
 */
module EventLayout {
  import opened DriverProtocol
  import opened HidEncoding
  import opened HidItems
  import opened Win32

  /** What the driver tells the DLL; write events carry the data of the report. */
  datatype Event = Event(kind: EventType, requestId: ULong, reportId: Byte, dataLength: nat, data: seq<Byte>)

  /** WINUHID_EVENT_TYPE. */
  function TypeCode(kind: EventType): Byte
  {
    match kind
    case GetFeature => 1
    case SetFeature => 2
    case WriteReport => 4
    case ReadReport => 8
  }

  predicate CarriesData(kind: EventType)
  {
    kind.SetFeature? || kind.WriteReport?
  }

  /** The header as the driver copies it; `pad` is what its one byte of data happens to be. */
  function Header(kind: EventType, requestId: ULong, reportId: Byte, dataLength: nat, pad: Byte): (h: Bytes)
    ensures |h| == 14
  {
    DataBytes(TypeCode(kind), 4) + DataBytes(requestId, 4) + [reportId] + DataBytes(dataLength, 4) + [pad]
  }

  /** What the DLL finds in a buffer. */
  predicate ReadsAs(buffer: Bytes, e: Event)
  {
    && |buffer| >= 14
    && LittleEndian(buffer[0..4]) == (match e.kind
                                      case GetFeature => 0x1
                                      case SetFeature => 0x2
                                      case WriteReport => 0x4
                                      case ReadReport => 0x8)
    && LittleEndian(buffer[4..8]) == e.requestId
    && buffer[8] == e.reportId
    && LittleEndian(buffer[9..13]) == e.dataLength
    && (CarriesData(e.kind) ==> |buffer| >= 13 + e.dataLength && buffer[13..13 + e.dataLength] == e.data)
    && (!CarriesData(e.kind) ==> e.data == [])
  }

  lemma FourBytes(n: nat)
    requires n < TWO_TO_32
    ensures LittleEndian(DataBytes(n, 4)) == n
  {
    assert Capacity(2) == 0x1_0000 && Capacity(4) == TWO_TO_32;
    DataBytesInverse(n, 4);
  }

  lemma HeaderParts(kind: EventType, requestId: ULong, reportId: Byte, dataLength: nat, pad: Byte)
    ensures var h := Header(kind, requestId, reportId, dataLength, pad);
            && h[0..4] == DataBytes(TypeCode(kind), 4) && h[4..8] == DataBytes(requestId, 4)
            && h[8] == reportId && h[9..13] == DataBytes(dataLength, 4)
  {
  }

  /** A buffer with the header, and for writes the data at offset 13, reads as the event. */
  lemma WrittenReads(buffer: Bytes, kind: EventType, requestId: ULong, reportId: Byte, data: Bytes, length: nat,
                     pad: Byte)
    requires length < TWO_TO_32 && |buffer| >= 14
    requires buffer[..13] == Header(kind, requestId, reportId, length, pad)[..13]
    requires CarriesData(kind) ==> |data| == length && |buffer| >= 13 + length && buffer[13..13 + length] == data
    requires !CarriesData(kind) ==> data == []
    ensures ReadsAs(buffer, Event(kind, requestId, reportId, length, data))
  {
    var h := Header(kind, requestId, reportId, length, pad);
    HeaderParts(kind, requestId, reportId, length, pad);
    FourBytes(TypeCode(kind));
    FourBytes(requestId);
    FourBytes(length);
    assert buffer[0..4] == buffer[..13][0..4] == h[0..4];
    assert buffer[4..8] == buffer[..13][4..8] == h[4..8];
    assert buffer[9..13] == buffer[..13][9..13] == h[9..13];
    assert buffer[8] == buffer[..13][8];
  }

  /** A buffer reads as one event only. */
  lemma ReadsOnce(buffer: Bytes, e: Event, f: Event)
    requires ReadsAs(buffer, e) && ReadsAs(buffer, f)
    ensures e == f
  {
  }
}
