/**
 The driver's handlers over the file context: a method for each section that runs under the request
 lock and for each unlocked action, ready-for-read callbacks, failed dispatches and the synthetic
 re-issue included.  Every method is proved to be one step of DriverProtocol (a failed dispatch is
 two), so all that holds of its runs holds of any interleaving of these methods.
 */
module RequestQueues {
  import opened Win32
  import opened HidItems
  import opened DriverProtocol
  import opened EventLayout

  /** OPERATION_CONTEXT: what the driver stores for an operation. */
  datatype Context = Context(kind: EventType, requestId: ULong, hasHandle: bool, reportId: Byte, length: nat)

  function Stored(op: Operation): Context
  {
    Context(op.kind, op.requestId, !op.pseudo, op.reportId, op.length)
  }

  /**
   What VHF promises of a transfer buffer: it may announce more than it allocated, but it allocates
   the size of the report.
   */
  predicate BufferFits(op: Operation, sizes: seq<HidReportSize>, buffer: seq<Byte>)
    requires |sizes| == 256
  {
    op.length <= |buffer| || ReportSize(sizes[op.reportId], op.kind) <= |buffer|
  }

  /** One of these operations has the ID. */
  predicate HasId(us: seq<nat>, contexts: seq<Context>, requestId: ULong)
  {
    exists j :: 0 <= j < |us| && us[j] < |contexts| && contexts[us[j]].requestId == requestId
  }

  /** What is stored of the operations is what the protocol knows of them. */
  ghost predicate ContextsMatch(contexts: seq<Context>, ops: seq<Operation>)
  {
    |contexts| == |ops| && forall u: nat | u < |contexts| :: contexts[u] == Stored(ops[u])
  }

  ghost predicate BuffersFit(ops: seq<Operation>, sizes: seq<HidReportSize>, buffers: seq<seq<Byte>>)
  {
    && |sizes| == 256 && |buffers| == |ops|
    && forall u: nat | u < |buffers| :: BufferFits(ops[u], sizes, buffers[u])
  }

  class FileQueues {
    var VhfHandle: bool
    var NextRequestId: ULong
    var WaitingRequests: seq<nat>
    var OutstandingRequests: seq<nat>
    /** Operation contexts, by operation number. */
    var Operations: seq<Context>
    /** Their transfer buffers, as VHF filled them. */
    var Buffers: seq<seq<Byte>>
    /** The calls of VhfAsyncOperationComplete so far. */
    var Completions: seq<nat>
    const ReportSizes: seq<HidReportSize>
    ghost var Model: Driver

    ghost predicate Valid()
      reads this
    {
      && Inv(Model)
      && VhfHandle == Model.vhfHandle
      && NextRequestId == Model.counter % TWO_TO_32
      && WaitingRequests == Model.waiting
      && OutstandingRequests == Model.outstanding
      && ContextsMatch(Operations, Model.ops)
      && Completions == Model.completions
      && ReportSizes == Model.sizes
      && BuffersFit(Model.ops, Model.sizes, Buffers)
    }

    constructor (sizes: seq<HidReportSize>)
      requires |sizes| == 256
      ensures Valid() && Initial(Model) && Model.sizes == sizes
    {
      VhfHandle, NextRequestId, WaitingRequests, OutstandingRequests := true, 0, [], [];
      Operations, Buffers, Completions, ReportSizes := [], [], [], sizes;
      Model := Driver(true, 0, sizes, [], {}, [], [], {}, {}, [], [], []);
      new;
      InitialInv(Model);
    }

    /** A request of VHF enters DispatchAsyncOperation. */
    method BeginDispatch(kind: EventType, reportId: Byte, length: nat, buffer: seq<Byte>) returns (op: nat)
      requires Valid()
      requires BufferFits(Operation(kind, false, reportId, length, 0, 0), ReportSizes, buffer)
      modifies this
      ensures Enabled(old(Model), Arrive(kind, reportId, length))
      ensures Valid() && Model == Apply(old(Model), Arrive(kind, reportId, length))
      ensures op == |old(Operations)| && op in Model.arriving
      ensures Operations == old(Operations) + [Context(kind, 0, true, reportId, length)]
      ensures Buffers == old(Buffers) + [buffer]
    {
      PlacesKnown(Model);
      StepKeepsInv(Model, Arrive(kind, reportId, length));
      Model := Apply(Model, Arrive(kind, reportId, length));
      op := |Operations|;
      Operations := Operations + [Context(kind, 0, true, reportId, length)];
      Buffers := Buffers + [buffer];
    }

    /** A ready-for-read callback of VHF enters it: no handle, no packet, ID 0. */
    method BeginReadyForRead() returns (op: nat)
      requires Valid() && Enabled(Model, ArriveReady)
      modifies this
      ensures Valid() && Model == Apply(old(Model), ArriveReady)
      ensures op == |old(Operations)| && op in Model.arriving
      ensures Operations == old(Operations) + [Context(ReadReport, 0, false, 0, 0)]
      ensures Buffers == old(Buffers) + [[]]
    {
      StepKeepsInv(Model, ArriveReady);
      Model := Apply(Model, ArriveReady);
      op := |Operations|;
      Operations := Operations + [Context(ReadReport, 0, false, 0, 0)];
      Buffers := Buffers + [[]];
    }

    /** The operation object could not be created: the handle, if there is one, is completed at once. */
    method FailDispatch(op: nat)
      requires Valid() && Enabled(Model, GiveUp(op))
      modifies this
      ensures var givenUp := Apply(old(Model), GiveUp(op));
              Enabled(givenUp, Finish(op)) && Valid() && Model == Apply(givenUp, Finish(op))
      ensures Operations == old(Operations) && Buffers == old(Buffers)
    {
      StepKeepsInv(Model, GiveUp(op));
      PlacesKnown(Apply(Model, GiveUp(op)));
      Model := Apply(Model, GiveUp(op));
      CompleteOperation(op);
    }

    /** A ready-for-read completion with a failure status raises the callback again by itself. */
    method ReissueReadyForRead(op: nat) returns (again: nat)
      requires Valid() && Enabled(Model, Reissue(op))
      modifies this
      ensures Valid() && Model == Apply(old(Model), Reissue(op))
      ensures again == |old(Operations)| && again in Model.arriving && op !in Model.completing
      ensures Operations == old(Operations) + [Context(ReadReport, 0, false, 0, 0)]
      ensures Buffers == old(Buffers) + [[]] && Completions == old(Completions)
    {
      StepKeepsInv(Model, Reissue(op));
      Model := Apply(Model, Reissue(op));
      again := |Operations|;
      Operations := Operations + [Context(ReadReport, 0, false, 0, 0)];
      Buffers := Buffers + [[]];
    }

    /** The unlocked part of dispatch: a fresh ID, and the length clamp to the parsed size. */
    method PrepareRequest(op: nat) returns (known: bool)
      requires Valid() && Enabled(Model, Prepare(op))
      modifies this
      ensures Valid() && Model == Apply(old(Model), Prepare(op))
      ensures known <==> op in Model.arriving
      ensures !known <==> op in Model.completing
      ensures var row, before := ReportSizes[Operations[op].reportId], old(Operations)[op];
              var size := if before.kind.WriteReport? then row.output else if before.kind.ReadReport? then row.input
                          else row.feature;
              && (known <==> size != 0)
              && Operations[op] == before.(requestId := Operations[op].requestId,
                                           length := if size < before.length then size else before.length)
      ensures Operations[op].requestId >= TWO_TO_31 && Buffers == old(Buffers)
      ensures forall u: nat | u < |Operations| && u != op :: Operations[u] == old(Operations)[u]
    {
      ghost var next := PrepareStep(Model, op);
      PrepareOutcome(Model, op);
      NextRequestId := if NextRequestId == TWO_TO_32 - 1 then 0 else NextRequestId + 1;
      var requestId := if NextRequestId >= TWO_TO_31 then NextRequestId else NextRequestId + TWO_TO_31;
      var context := Operations[op];
      var row := ReportSizes[context.reportId];
      var reportSize := match context.kind
        case GetFeature => row.feature
        case SetFeature => row.feature
        case WriteReport => row.output
        case ReadReport => row.input;
      known := reportSize != 0;
      var length := context.length;
      if reportSize < length {
        length := reportSize;
      }
      Operations := Operations[op := context.(requestId := requestId, length := length)];
      Model := next;
    }

    /** The lock-held part of dispatch; `added` says whether the collection took the operation. */
    method QueueOperation(op: nat, added: bool) returns (queued: bool)
      requires Valid() && Enabled(Model, Enqueue(op, added))
      modifies this
      ensures Valid() && Model == Apply(old(Model), Enqueue(op, added))
      ensures queued <==> old(VhfHandle) && added
      ensures WaitingRequests == old(WaitingRequests) + if queued then [op] else []
      ensures !queued ==> op in Model.completing
      ensures Operations == old(Operations) && Buffers == old(Buffers)
    {
      StepKeepsInv(Model, Enqueue(op, added));
      Model := Apply(Model, Enqueue(op, added));
      if !VhfHandle {
        return false;
      }
      if added {
        WaitingRequests := WaitingRequests + [op];
      }
      return added;
    }

    /**
     Hands the first waiting operation to a get-next request and writes its event into the request's
     buffer.  False means that nothing waits and the request stays open; an event is returned exactly
     when the operation moved on, and otherwise the status says why not.
     */
    method TryCompleteGetNextEvent(output: array<Byte>, pad: Byte, moved: bool)
      returns (completeRequest: bool, status: NtStatus, event: Option<Event>, bytesTransferred: nat)
      requires Valid()
      modifies this, output
      ensures Enabled(old(Model), Deliver(output.Length, moved))
      ensures Valid() && Model == Apply(old(Model), Deliver(output.Length, moved))
      ensures completeRequest <==> old(WaitingRequests) != []
      ensures old(WaitingRequests) == [] <==> status == StatusPending
      ensures old(WaitingRequests) != [] ==>
                var op := Operations[old(WaitingRequests)[0]];
                status == if output.Length < 14 then StatusBufferTooSmall
                          else if (op.kind.SetFeature? || op.kind.WriteReport?) && output.Length < 13 + op.length
                          then StatusBufferTooSmall
                          else if !moved then StatusInsufficientResources
                          else StatusSuccess
      ensures event.Some? <==> status == StatusSuccess
      ensures event.None? ==> bytesTransferred == 0 && WaitingRequests == old(WaitingRequests)
                              && OutstandingRequests == old(OutstandingRequests)
      ensures Operations == old(Operations) && Buffers == old(Buffers)
      ensures event.Some? <==> Model != old(Model)
      ensures event.Some? ==>
                var u := old(WaitingRequests)[0];
                && EventOf(event.value, Operations[u], Buffers[u])
                && ReadsAs(output[..], event.value)
                && output[EndOf(Operations[u])..] == old(output[EndOf(Operations[u])..])
                && WaitingRequests == old(WaitingRequests)[1..]
                && OutstandingRequests == old(OutstandingRequests) + [u]
                && bytesTransferred == 14 + |event.value.data|
      ensures output.Length < 14 || old(WaitingRequests) == [] ==> output[..] == old(output[..])
    {
      ghost var step := Deliver(output.Length, moved);
      PlacesKnown(Model);
      StepKeepsInv(Model, step);
      FailedDelivery(Model, output.Length, moved);
      if |WaitingRequests| == 0 {
        return false, StatusPending, None, 0;
      }
      var op := WaitingRequests[0];
      var context := Operations[op];
      EventNeedsIff(Model.ops[op], output.Length);
      WaitingFits(Model, op, Buffers[op]);
      var written := WriteEvent(output, context, Buffers[op], pad);
      if !written {
        return true, StatusBufferTooSmall, None, 0;
      }
      if !moved {
        return true, StatusInsufficientResources, None, 0;
      }
      var data := if context.kind.IsWrite() then Buffers[op][..context.length] else [];
      Model := Apply(Model, step);
      OutstandingRequests := OutstandingRequests + [op];
      WaitingRequests := WaitingRequests[1..];
      event := Some(Event(context.kind, context.requestId, context.reportId, context.length, data));
      bytesTransferred := 14 + |data|;
      completeRequest, status := true, StatusSuccess;
    }

    /** The two copies into the buffer: the header, and for writes the data over its last byte. */
    method WriteEvent(output: array<Byte>, context: Context, buffer: seq<Byte>, pad: Byte) returns (written: bool)
      requires context.length < TWO_TO_32 && (CarriesData(context.kind) ==> context.length <= |buffer|)
      modifies output
      ensures written <==> FitsBuffer(context, output.Length)
      ensures written ==>
                && ReadsAs(output[..], Event(context.kind, context.requestId, context.reportId, context.length,
                                             if CarriesData(context.kind) then buffer[..context.length] else []))
                && output[EndOf(context)..] == old(output[EndOf(context)..])
      ensures output.Length < 14 ==> output[..] == old(output[..])
    {
      if output.Length < 14 {
        return false;
      }
      var header := Header(context.kind, context.requestId, context.reportId, context.length, pad);
      CopyInto(output, 0, header);
      assert output[..14] == header;
      if context.kind.IsWrite() {
        if output.Length < 13 + context.length {
          return false;
        }
        CopyInto(output, 13, buffer[..context.length]);
      }
      assert output[..][..13] == output[..13] == header[..13];
      WrittenReads(output[..], context.kind, context.requestId, context.reportId,
                   if CarriesData(context.kind) then buffer[..context.length] else [], context.length, pad);
      written := true;
    }

    /** WdfMemoryCopyFromBuffer, where the bytes fit. */
    static method CopyInto(output: array<Byte>, offset: nat, bytes: seq<Byte>)
      requires offset + |bytes| <= output.Length
      modifies output
      ensures output[..offset] == old(output[..offset])
      ensures output[offset..offset + |bytes|] == bytes
      ensures output[offset + |bytes|..] == old(output[offset + |bytes|..])
    {
      forall i | 0 <= i < |bytes| {
        output[offset + i] := bytes[i];
      }
    }

    /** Linear search for an outstanding operation; it is removed from the collection. */
    method TakeOutstandingRequestById(requestId: ULong) returns (op: Option<nat>)
      requires Valid()
      modifies this
      ensures Enabled(old(Model), Take(requestId))
      ensures Valid() && Model == Apply(old(Model), Take(requestId))
      ensures Operations == old(Operations) && Buffers == old(Buffers)
      ensures op.Some? <==> HasId(old(OutstandingRequests), Operations, requestId)
      ensures op.Some? ==> op.value in Model.completing && Operations[op.value].requestId == requestId
    {
      ghost var step := Take(requestId);
      PlacesKnown(Model);
      StepKeepsInv(Model, step);
      var i := FindOutstanding(requestId);
      Model := Apply(Model, step);
      if i == |OutstandingRequests| {
        return None;
      }
      op := Some(OutstandingRequests[i]);
      assert op.value in OutstandingRequests;
      OutstandingRequests := OutstandingRequests[..i] + OutstandingRequests[i + 1..];
    }

    /** The search itself: the index of the first match, or the count. */
    method FindOutstanding(requestId: ULong) returns (i: nat)
      requires Valid()
      ensures Known(Model) && i == IndexById(Model, requestId, 0)
      ensures i < |OutstandingRequests| <==> HasId(OutstandingRequests, Operations, requestId)
    {
      PlacesKnown(Model);
      i := 0;
      while i < |OutstandingRequests|
        invariant i <= |OutstandingRequests|
        invariant IndexById(Model, requestId, 0) == IndexById(Model, requestId, i)
        invariant forall j | 0 <= j < i :: Operations[OutstandingRequests[j]].requestId != requestId
      {
        if Operations[OutstandingRequests[i]].requestId == requestId {
          return;
        }
        i := i + 1;
      }
    }

    /** Completes a taken operation to VHF, unless it is a ready-for-read, and frees it. */
    method CompleteOperation(op: nat)
      requires Valid() && Enabled(Model, Finish(op))
      modifies this
      ensures Valid() && Model == Apply(old(Model), Finish(op))
      ensures Operations == old(Operations) && Buffers == old(Buffers)
    {
      StepKeepsInv(Model, Finish(op));
      if Operations[op].hasHandle {
        Completions := Completions + [op];
      }
      Model := Apply(Model, Finish(op));
    }

    /** Completes the operations of one collection, first one first. */
    method Rundown(pending: seq<nat>)
      requires ContextsMatch(Operations, Model.ops) && AllReady(Model.ops, pending)
      modifies this`Completions
      ensures Completions == old(Completions) + RealOnes(Model.ops, pending)
    {
      var left := pending;
      while |left| > 0
        invariant AllReady(Model.ops, left)
        invariant Completions + RealOnes(Model.ops, left) == old(Completions) + RealOnes(Model.ops, pending)
      {
        var op := left[0];
        if Operations[op].requestId != 0 {
          Completions := Completions + [op];
        }
        left := left[1..];
      }
    }

    /** Closes the file: no more queuing, and both collections are run down under the lock. */
    method FileClose()
      requires Valid()
      modifies this
      ensures Enabled(old(Model), Close)
      ensures Valid() && Model == Apply(old(Model), Close)
      ensures Operations == old(Operations) && Buffers == old(Buffers)
    {
      ghost var next := CloseStep(Model);
      VhfHandle := false;
      Rundown(WaitingRequests);
      WaitingRequests := [];
      Rundown(OutstandingRequests);
      OutstandingRequests := [];
      Model := next;
    }
  }

  /** Queued operations have an ID, which is 0 exactly for ready-for-read operations. */
  ghost predicate AllReady(ops: seq<Operation>, us: seq<nat>)
  {
    && InRange(us, |ops|)
    && forall i | 0 <= i < |us| :: (ops[us[i]].requestId == 0 <==> ops[us[i]].pseudo)
  }

  /** The header of 14 bytes fits, and the data of a write at offset 13. */
  predicate FitsBuffer(c: Context, capacity: nat)
  {
    capacity >= 14 && (CarriesData(c.kind) ==> capacity >= 13 + c.length)
  }

  /** The first byte of the buffer that the event leaves alone. */
  function EndOf(c: Context): nat
  {
    if CarriesData(c.kind) && c.length > 0 then 13 + c.length else 14
  }

  /** The event is that of the stored operation, with the data of a write. */
  predicate EventOf(e: Event, c: Context, buffer: seq<Byte>)
  {
    && e.kind == c.kind && e.requestId == c.requestId && e.reportId == c.reportId && e.dataLength == c.length
    && (CarriesData(c.kind) ==> c.length <= |buffer| && e.data == buffer[..c.length])
    && (!CarriesData(c.kind) ==> e.data == [])
  }

  /** The data of a waiting write is all in its buffer: its length was clamped. */
  lemma WaitingFits(s: Driver, op: nat, buffer: seq<Byte>)
    requires Inv(s) && s.waiting != [] && op == s.waiting[0] && op < |s.ops|
    requires BufferFits(s.ops[op], s.sizes, buffer)
    ensures s.ops[op].length < TWO_TO_32
    ensures CarriesData(s.ops[op].kind) ==> s.ops[op].length <= |buffer|
  {
    assert s.ops[op].Ready() && (s.ops[op].pseudo ==> s.ops[op] == READY);
  }

  lemma QueuedAllReady(s: Driver)
    requires Inv(s)
    ensures AllReady(s.ops, s.waiting) && AllReady(s.ops, s.outstanding)
  {
    forall u: nat | u < |s.ops| && s.ops[u].Ready() ensures s.ops[u].requestId == 0 <==> s.ops[u].pseudo {
      RequestIds(s.ops[u].serial, 0);
    }
  }

  /** What closing does to the stored state. */
  lemma CloseStep(s: Driver) returns (next: Driver)
    requires Inv(s)
    ensures Enabled(s, Close) && next == Apply(s, Close) && Inv(next)
    ensures AllReady(s.ops, s.waiting) && AllReady(s.ops, s.outstanding)
    ensures !next.vhfHandle && next.waiting == [] && next.outstanding == []
    ensures next.completions == s.completions + RealOnes(s.ops, s.waiting) + RealOnes(s.ops, s.outstanding)
    ensures next.ops == s.ops && next.sizes == s.sizes && next.counter == s.counter
  {
    PlacesKnown(s);
    StepKeepsInv(s, Close);
    QueuedAllReady(s);
    next := Apply(s, Close);
  }

  /** What the ID assignment does to the stored state. */
  lemma PrepareStep(s: Driver, op: nat) returns (next: Driver)
    requires Inv(s) && Enabled(s, Prepare(op))
    ensures next == Apply(s, Prepare(op)) && Inv(next)
    ensures op < |s.ops| && |s.sizes| == 256 && !s.ops[op].pseudo
    ensures next.counter % TWO_TO_32 ==
            if s.counter % TWO_TO_32 == TWO_TO_32 - 1 then 0 else s.counter % TWO_TO_32 + 1
    ensures var size := ReportSize(s.sizes[s.ops[op].reportId], s.ops[op].kind);
            var length := if size < s.ops[op].length then size else s.ops[op].length;
            next.ops == s.ops[op := s.ops[op].(serial := s.counter + 1, requestId := IdOf(s.counter + 1),
                                               length := length)]
    ensures next.vhfHandle == s.vhfHandle && next.waiting == s.waiting && next.outstanding == s.outstanding
    ensures next.completions == s.completions && next.sizes == s.sizes && next.counter == s.counter + 1
  {
    StepKeepsInv(s, Prepare(op));
    Increment(s.counter);
    next := Apply(s, Prepare(op));
  }

  lemma Increment(counter: nat)
    ensures (counter + 1) % TWO_TO_32 ==
            if counter % TWO_TO_32 == TWO_TO_32 - 1 then 0 else counter % TWO_TO_32 + 1
  {
  }
}
