/**
 The answer to a read request, from the SDK's WinUHidCompleteReadEvent to the transfer buffer of
 the HID client.  The SDK cuts the data to the requested length, the driver copies and pads it.
 */
module ReadReply {
  import opened Win32

  /** WINUHID_READ_EVENT_COMPLETE: ID 4, status 4, data length 4, at least one data byte. */
  const COMPLETE_DATA_OFFSET: nat := 12
  const COMPLETE_SIZE: nat := 13

  datatype ReadComplete = ReadComplete(requestId: ULong, success: bool, dataLength: nat, data: seq<Byte>)
  {
    predicate WellFormed() { dataLength <= |data| }
  }

  /** The first `length` bytes of `data`, filled up with zero bytes. */
  function Fitted(data: seq<Byte>, length: nat): (r: seq<Byte>)
    ensures |r| == length
  {
    seq(length, i => if 0 <= i < |data| then data[i] else 0)
  }

  /** WinUHidCompleteReadEvent: the message and the number of bytes that are sent of it. */
  method BuildReply(requestId: ULong, eventLength: nat, data: Option<Bytes>, memoryOk: bool)
    returns (message: ReadComplete, sent: nat)
    ensures message.WellFormed() && message.requestId == requestId
    ensures message.success <==> data.Some? && memoryOk
    ensures message.success ==>
              && message.dataLength == |message.data|
              && message.data <= data.value
              && |message.data| == if eventLength != 0 && |data.value| > eventLength then eventLength else |data.value|
    ensures !message.success ==> message.dataLength == 0
    ensures sent == if memoryOk then 12 + message.dataLength else 13
  {
    if !memoryOk {
      return ReadComplete(requestId, false, 0, []), COMPLETE_SIZE;
    }
    if data.None? {
      return ReadComplete(requestId, false, 0, []), COMPLETE_DATA_OFFSET;
    }
    var dataLength := |data.value|;
    if eventLength != 0 && dataLength > eventLength {
      dataLength := eventLength;
    }
    message := ReadComplete(requestId, true, dataLength, data.value[..dataLength]);
    sent := COMPLETE_DATA_OFFSET + dataLength;
  }

  /** The DLL's reply gets past the driver's length checks. */
  predicate ReachesDriver(data: Option<Bytes>, memoryOk: bool)
  {
    !memoryOk || (data.Some? && |data.value| >= 1)
  }

  /** The driver's copy into the transfer buffer of a real request of `length` bytes. */
  method FillTransferBuffer(message: ReadComplete, received: nat, transfer: array<Byte>, length: nat)
    returns (accepted: bool)
    requires message.WellFormed() && length <= transfer.Length
    modifies transfer
    ensures accepted <==> received >= 13 && received >= 12 + message.dataLength
    ensures transfer[..] == if accepted && message.success
                            then Fitted(message.data[..message.dataLength], length) + old(transfer[length..])
                            else old(transfer[..])
  {
    if received < COMPLETE_SIZE {
      return false;
    } else if received < COMPLETE_DATA_OFFSET + message.dataLength {
      return false;
    }
    accepted := true;
    if !message.success {
      return;
    }
    var copied := if message.dataLength < length then message.dataLength else length;
    forall i | 0 <= i < copied {
      transfer[i] := message.data[i];
    }
    if message.dataLength < length {
      forall i | message.dataLength <= i < length {
        transfer[i] := 0;
      }
    }
    assert transfer[..length] == Fitted(message.data[..message.dataLength], length);
    assert transfer[..] == transfer[..length] + transfer[length..];
    assert transfer[length..] == old(transfer[length..]);
  }

  /**
   End to end, for a request whose event announced `length` bytes: given at least one byte of
   data, the client sees exactly that data cut or zero-padded to `length`, and nothing beyond.
   The reply reaches the driver's queue if and only if there is at least one byte of data (or
   the SDK ran out of memory and sent its full-size failure message).
   */
  method AnswerRead(requestId: ULong, data: Option<Bytes>, memoryOk: bool, transfer: array<Byte>, length: nat)
    returns (accepted: bool, success: bool)
    requires length <= transfer.Length
    modifies transfer
    ensures accepted <==> !memoryOk || (data.Some? && |data.value| >= 1)
    ensures accepted && memoryOk ==>
              success && transfer[..] == Fitted(data.value, length) + old(transfer[length..])
    ensures !(accepted && memoryOk) ==> transfer[..] == old(transfer[..])
  {
    var message, sent := BuildReply(requestId, length, data, memoryOk);
    success := message.success;
    accepted := FillTransferBuffer(message, sent, transfer, length);
    if message.success {
      CutThenFit(data.value, |message.data|, length);
      assert message.data == data.value[..|message.data|];
      assert message.data[..message.dataLength] == message.data;
    }
  }

  /** Cutting at or beyond the requested length first makes no difference. */
  lemma CutThenFit(data: seq<Byte>, cut: nat, length: nat)
    requires cut <= |data| && (cut < |data| ==> cut >= length)
    ensures Fitted(data[..cut], length) == Fitted(data, length)
  {
  }

  /** What the client sees: a prefix of the data, then zeros. */
  lemma FittedMeaning(data: seq<Byte>, length: nat)
    ensures |data| >= length ==> Fitted(data, length) == data[..length]
    ensures |data| <= length ==> Fitted(data, length) == data + seq(length - |data|, i => 0)
  {
  }
}
