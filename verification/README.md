# Verified model of WinUHid

WinUHid lets a Windows program act as a HID device: a UMDF driver on top of the Virtual HID
Framework (VHF), a DLL that talks to the driver, a second DLL with ready-made gamepads and a mouse,
and a small web server.  This project models the parts where the state, the branching and the
arithmetic are, and proves what they promise.

| module | models |
|---|---|
| `HidItems` | the meaning of a HID report descriptor, without a parser and without a stack: the value of a global item in force is found by reading backwards over the items (Device Class Definition for HID 1.11, sections 6.2.2.2 to 6.2.2.7) |
| `HidStandard` | the items by the letter of the standard, and exactly when the driver's parser does the same |
| `HidEncoding` | items as bytes, short and long, and that writing and reading undo each other |
| `ReportDescriptor` | the driver's one-pass parser (byte cursor, 32 frames, 256-row table, 32-bit overflow) and the setup requests, proved against `HidItems` |
| `MouseDescriptor` | the preset descriptor of the mouse, from its bytes to the rows that the parser makes of it |
| `DriverProtocol` | the request protocol of the driver as an interleaved transition system: dispatch, get-next, completion and close, one step per section under the request lock |
| `PendedRequests` | get-next requests that wait in the driver, and the unlocked windows in which they and operations miss each other, composed with `DriverProtocol` |
| `EventLayout` | the packed structure in which an event travels from the driver to the DLL |
| `RequestQueues` | the driver's handlers over their mutable file context, each proved to be one step of `DriverProtocol` |
| `ReadReply` | the answer to a read request, from the DLL to the transfer buffer |
| `PollGrowth` | the retry loop of `WinUHidPollEvent` for any number of polling threads, composed with `DriverProtocol` and `HidItems` |
| `StopProtocol` | `WinUHidStopDevice` against polling calls, the event thread, the read thread and the device lock |
| `ReadHandoff` | the one-place slot for ready-for-read events and its auto-reset event, composed with `DriverProtocol` |
| `Throttle` | the throttling timer of the read thread, with time |
| `WorkerHandoff` | lock plus manual-reset event between output reports and the LED and rumble threads |
| `XOneRumble` | the rumble loop with its merged repeats against the plain effect |
| `Ps4Led` | the PS4 output report, the merged LED state, and the blink loop against a square wave |
| `GamepadClock` | sensor timestamps and sequence numbers of the PS4 and PS5 gamepads |
| `Ps5Feedback` | the change-only feed of PS5 feedback callbacks |
| `MouseScroll` | scroll accumulation of the mouse |
| `QueryToken` | percent-decoding and the search for the token in a query (section 2.1 of RFC 3986) |
| `Win32`, `LightBar`, `Sequences`, `Arithmetic` | shared types, and facts about sequences, quotients and remainders |

A run is a sequence of states that starts in an initial one and in which each state follows from the
one before by an enabled step.  Any number of handlers, threads and calls interleave: their local
progress is part of the state.  `dafny verify dfyconfig.toml` checks everything.

## Where the code does less than one might expect

These are stated as lemmas, with a concrete input and, where the behaviour depends on the input,
the exact condition under which the code does what it promises.

- The scroll accumulator is an unsigned byte, and a negative remainder stored in it comes back as
  up to 255 (`ScrollBackGoesForward`); conservation holds exactly when no step does that
  (`ExactlyConserved`).
- The timestamp increment is exact exactly when the delay times 10^9 fits in 63 bits
  (`IncrementExactOnlyIfFits`); beyond that the clock can run backwards (`LongPauseRunsBackwards`).
- The PS5 rumble feed compares motor bytes and not the vibration mode, and the doubling for the
  legacy mode is cut to a byte: `RumbleFaithfulIff`, `ModeSwitchLost`, `AmplitudeModes`.
- Section 6.2.2.3 of HID 1.11 has one prefix for long items, 0xFE, and gives no long item a meaning.
  The driver takes every prefix with tag nibble 0xF for one and acts upon long items with 0, 1, 2 or
  4 data bytes: it finds a Report ID in `F5 01 08 08`, where the standard has three short items
  without effect (`ReportIdFromShortItem`), and refuses `F1 05` as cut short, where the standard has
  one (`ShortItemRefused`).  For every byte string it does what the standard asks for, token by token
  and as to completeness, exactly when each prefix it finds passes a test on at most three bytes and
  the length (`CutAsStandardIff`); then its verdict and table are those of the standard's items
  (`HarmlessAsStandard`).  Descriptors whose only 0xF prefix is 0xFE always pass.
- The overflow check of size times count applies to Collection and other main items that describe no
  field (`CollectionRefused`); it turns a descriptor down exactly when it finds such an item
  oversized, and makes no difference otherwise (`OverflowCheckIff`).
- A read completion with no data is 12 bytes long and the driver refuses less than 13, so it never
  reaches the outstanding request, although the code has a branch for such completions
  (`ReadReply.AnswerRead` says when a reply is accepted).  For a ready-for-read event this stalls the
  input for good: until the file is closed no such event reaches the DLL again (`RefusalStallsInput`,
  with a run in which a callback replies NULL in `RefusalHappens`).  An event is stuck like that
  exactly when the run has a reply without data for which the DLL had memory (`StalledByReplyIff`).
- A get-next request can be pended while an operation waits: the handler looks for an operation, a
  whole dispatch runs and finds no pended request, and only then is the request pended
  (`DispatchInWindow`).  The two go on waiting until another operation or get-next comes
  (`WaitingLasts`).  With no handler left, the two coexist exactly when some move of the run opened
  such a gap and no later one closed it (`CoexistIff`); both are told by the state in which a move is
  made (`Opens`, `Closes`).
- `WinUHidStopDevice` is documented never to fail, but a `WinUHidSubmitInputReport` that takes the
  signal which the stop has set for a read thread about to wait for it leaves both waiting for good
  (`StolenSignalHangs`, with a run in `SignalCanBeStolen`).  The stop returns exactly in the runs
  without such a step (`StopReturnsIff`), so always if no submit overlaps it (`NoOverlapReturns`).
- After the stop has signalled, a `WinUHidSubmitInputReport` can take the branch marked impossible
  (`SubmitAfterStopFindsNothing`, with a run in `EmptyTakeHappens`); before that none can
  (`ClaimFindsEvent`).
- The rumble and LED threads may erase the event that signals a stop
  (`StopSignalCanBeErased`, with a run in `ErasureHappens`); they exit nevertheless (`WorkerExits`).

## Model

| member | source | states |
|---|---|---|
| `HidItems.NextToken` | WinUHid Driver/WinUHid.c:53-122 | A token that is found ends after its start and within the descriptor, so the parse loop advances and stays in bounds. |
| `HidItems.LittleEndianBound` | WinUHid Driver/WinUHid.c:98-114 | Data of 0, 1, 2 or 4 bytes is the little-endian value the byte-by-byte code builds, and fits in 32 bits. |
| `HidItems.AcceptedEverywhere` | WinUHid Driver/WinUHid.c:124-213 | An item list is accepted if and only if each item is accepted after those before it. |
| `HidItems.ItemAcceptedIff` | WinUHid Driver/WinUHid.c:124-213 | Which items are accepted after which others: a Report ID up to 255, a Push at a depth below 31, a Pop above depth 0, a field below 2^32 bits and a report that stays below 2^32 bits; and the status of each refusal. |
| `HidItems.PushLimit` | WinUHid Driver/WinUHid.c:143-158 | Exactly 31 Push items in a row are accepted; the 32nd is refused as not implemented. |
| `HidItems.AcceptedBounds` | WinUHid Driver/WinUHid.c:130-138 | In an accepted list every report ID in force is a byte at every frame, every report stays below 2^32 bits, and the depth lies between 0 and 31. |
| `HidItems.PushPopAccepted` | WinUHid Driver/WinUHid.c:143-165 | All Push and Pop items are accepted if and only if the depth never goes below 0 nor above 31. |
| `HidItems.ReadOver` | WinUHid Driver/WinUHid.c:143-165 | Reading backwards over a segment that never closes an outer frame gives the value from before the segment. |
| `HidItems.BalancedSegmentRestores` | WinUHid Driver/WinUHid.c:143-165 | A balanced Push..Pop segment restores size, count, report ID and every other global value, while the fact that a Report ID occurred survives. |
| `HidItems.FieldIsElements` | WinUHid Driver/WinUHid.c:170-182 | A main item describes as many elements as the Report Count in force, each of the bits of the Report Size in force. |
| `HidItems.ReportBytesLeast` | WinUHid Driver/WinUHid.c:14-27 | The size of a report with bits is the least number of bytes that holds them, plus one if and only if reports are numbered; without bits it is 0. |
| `HidItems.RowBound` | WinUHid Driver/WinUHid.c:14-27 | No report of an accepted descriptor needs more than 2^29 + 1 bytes. |
| `HidStandard.TrackedItemsStatus` | WinUHid Driver/WinUHid.c:124-213 | Items other than main items and the tracked global items never change the status of a descriptor. |
| `HidStandard.TokenIff` | WinUHid Driver/WinUHid.c:59-96 | At every position of every byte string, the driver takes a token with the end and the effect that sections 6.2.2.2 and 6.2.2.3 of HID 1.11 give it, or runs out of bytes as they do, if and only if the prefix passes the test. |
| `HidStandard.CutAsStandardIff` | WinUHid Driver/WinUHid.c:53-122 | For every byte string, the driver cuts and acts token by token as the standard does and agrees on whether the descriptor is complete if and only if all prefixes it finds pass the test. |
| `HidStandard.HarmlessAsStandard` | WinUHid Driver/WinUHid.c:33-251 | Then, for every byte string, the verdict, truncation included, and every row of the size table are those of the items found by the standard. |
| `HidStandard.ReportIdFromShortItem` | WinUHid Driver/WinUHid.c:59-73 | Four bytes in which the driver finds a Report ID and the standard three short items without effect. |
| `HidStandard.LongItemSkipped` | WinUHid Driver/WinUHid.c:59-73 | A long item of the standard with one data byte is one token without effect by the driver and by the standard. |
| `HidStandard.ShortItemRefused` | WinUHid Driver/WinUHid.c:59-73 | Two bytes that the driver refuses as cut short and that are one short item by the standard. |
| `HidStandard.OverflowCheckIff` | WinUHid Driver/WinUHid.c:174-182 | The overflow check of main items without a field turns down exactly the lists in which it finds an oversized one, and otherwise makes no difference to the status. |
| `HidStandard.CollectionRefused` | WinUHid Driver/WinUHid.c:174-182 | A list of three items that only this check refuses. |
| `HidEncoding.DataBytesInverse` | WinUHid Driver/WinUHid.c:98-114 | The little-endian value of a number's data bytes is the number. |
| `HidEncoding.LittleEndianInverse` | WinUHid Driver/WinUHid.c:98-114 | The data bytes of the little-endian value of some bytes are those bytes. |
| `HidEncoding.ReadOneItem` | WinUHid Driver/WinUHid.c:54-122 | The encoding of a legal short or long item is read back as that item, ending where the encoding ends. |
| `HidEncoding.ReadBack` | WinUHid Driver/WinUHid.c:53-122 | Any list of legal items, written one after the other, is read back as that list with that meaning and is never found truncated; so no two lists have the same encoding. |
| `HidEncoding.EncodedDescriptor` | WinUHid Driver/WinUHid.c:33-251 | The verdict on an encoded list and every row of its size table are those of folding the list itself. |
| `HidEncoding.WriteBack` | WinUHid Driver/WinUHid.c:53-122 | Every complete descriptor is the encoding of the legal items found in it, and means what they mean. |
| `HidEncoding.CompleteIff` | WinUHid Driver/WinUHid.c:59-96 | A byte string passes the bounds checks throughout if and only if it is the encoding of some list of legal items. |
| `ReportDescriptor.FirstErrorDecides` | WinUHid Driver/WinUHid.c:53-214 | Once an item is refused, nothing that follows changes the verdict. |
| `ReportDescriptor.FramesStep` | WinUHid Driver/WinUHid.c:124-169 | What Push, Pop and the three tracked items do to the array of frames keeps every frame equal to the values in force at its depth. |
| `ReportDescriptor.TableStep` | WinUHid Driver/WinUHid.c:170-213 | Adding a main item's bits to one column of one row keeps all 256 rows equal to the sums over the items so far. |
| `ReportDescriptor.FileContext.ReadItem` | WinUHid Driver/WinUHid.c:54-122 | Reads exactly the next token, and reports a truncated one if and only if there is none. |
| `ReportDescriptor.FileContext.UpdateFrames` | WinUHid Driver/WinUHid.c:124-169 | Sets one value in the top frame, copies the frame on Push, drops it on Pop, sets the numbering flag on a Report ID, and refuses with the exact status. |
| `ReportDescriptor.FileContext.ApplyGlobal` | WinUHid Driver/WinUHid.c:124-169 | Accepts or refuses a global item as its meaning says, and keeps frames, table and numbering flag in step with the items. |
| `ReportDescriptor.FileContext.ApplyMain` | WinUHid Driver/WinUHid.c:170-213 | Accepts or refuses a main item with exact overflow detection, and keeps the table in step with the items. |
| `ReportDescriptor.FileContext.ParseItems` | WinUHid Driver/WinUHid.c:53-214 | The loop returns the verdict on the whole descriptor, and on success the table holds the bit sums of every report. |
| `ReportDescriptor.FileContext.ParseReportDescriptor` | WinUHid Driver/WinUHid.c:33-251 | For every byte string of up to 65535 bytes: terminates in bounds, returns the verdict, and on success each of the 768 sizes is the least number of bytes that holds the bits of the report, plus one if and only if a Report ID item occurs anywhere, or 0 without bits. |
| `ReportDescriptor.PostProcessReportSize` | WinUHid Driver/WinUHid.c:8-28 | A nonzero number of bits becomes the least number of bytes that holds them, plus one if and only if reports are numbered, without overflow. |
| `ReportDescriptor.FileContext.SetDeviceInfo` | WinUHid Driver/WinUHid.c:690-748 | Succeeds once, before the device exists, with the exact status otherwise; the identity is stored, each callback is registered for exactly the masks that have its bit, and a refusal changes nothing. |
| `ReportDescriptor.FileContext.SetReportDescriptor` | WinUHid Driver/WinUHid.c:750-816 | Stores a descriptor if and only if none is stored and it is accepted, with the exact status of every refusal; a refused one leaves none, a stored one keeps its table. |
| `ReportDescriptor.FileContext.CreateDevice` | WinUHid Driver/WinUHid.c:946-958 | A device exists only with device info and an accepted descriptor, and then the table is that of the stored descriptor; every refusal has its exact status. |
| `MouseDescriptor.MouseReports` | WinUHidDevs/WinUHidMouse.cpp:8-84 | The descriptor is accepted and describes a 10-byte input report 1, a 2-byte feature report 18 (the sizes of the structures the mouse sends), and nothing else. |
| `DriverProtocol.IndexById` | WinUHid Driver/WinUHid.c:268-280 | The linear search gives the first outstanding operation with the ID, or the end if there is none. |
| `DriverProtocol.StepKeepsPlaces` | WinUHid Driver/WinUHid.c:419-579 | Every step keeps each operation in exactly one of: dispatch handler, waiting, outstanding, completing handler, done. |
| `DriverProtocol.StepKeepsCompletions` | WinUHid Driver/WinUHid.c:1009-1166 | Every step keeps the number of VHF completions of a handle at one for done operations and zero for all others. |
| `DriverProtocol.StepKeepsOneReady` | WinUHid Driver/WinUHid.c:637-649 | Every step, the synthetic re-issue included, keeps at most one live ready-for-read operation. |
| `DriverProtocol.StepKeepsOrder` | WinUHid Driver/WinUHid.c:309-408 | Every step keeps handed-out operations followed by waiting ones equal to the enqueue order until close, and both queues empty after it. |
| `DriverProtocol.StepKeepsLengths` | WinUHid Driver/WinUHid.c:469-513 | Every step keeps each prepared length within the table's size for its report and kind. |
| `DriverProtocol.StepKeepsInv` | WinUHid Driver/WinUHid.c:256-579 | All parts of the invariant are kept by every step from every state that satisfies it. |
| `DriverProtocol.RunInv` | WinUHid Driver/WinUHid.c:256-579 | The invariant holds in every state of every run. |
| `DriverProtocol.OnlyForward` | WinUHid Driver/WinUHid.c:256-579 | Over any stretch of any run an operation only moves forward through its stages, and completions are only added. |
| `DriverProtocol.ExactlyOneCompletion` | WinUHid Driver/WinUHid.c:1233-1287 | In every reachable state each operation is in one place and completed at most once, a ready-for-read never; after close, with no handler left, every handle was completed exactly once. |
| `DriverProtocol.OneReadyOperation` | WinUHid Driver/WinUHid.c:1093-1128 | In every reachable state at most one ready-for-read operation is live over both queues and all handlers. |
| `DriverProtocol.DeliveredInOrder` | WinUHid Driver/WinUHid.c:309-408 | Before close, what was handed out followed by what waits is the enqueue order in every reachable state, and only handed-out operations are outstanding. |
| `DriverProtocol.RequestIds` | WinUHid Driver/WinUHid.c:455-466 | IDs are 2^31 plus the counter modulo 2^31, so never 0, and two are equal if and only if their counters agree modulo 2^31. |
| `DriverProtocol.IdsDistinct` | WinUHid Driver/WinUHid.c:455-466 | If the counters of live requests span less than 2^31, live operations have distinct IDs, the fixed ID 0 included. |
| `DriverProtocol.TakeRemovesNamed` | WinUHid Driver/WinUHid.c:256-285 | Then taking by ID removes exactly the named operation and keeps the others in order. |
| `DriverProtocol.QueuedLengthWithinReport` | WinUHid Driver/WinUHid.c:469-513 | In every run of a device with the table of a descriptor, a queued request is never longer than the report that the descriptor describes for its kind and ID. |
| `DriverProtocol.PrepareOutcome` | WinUHid Driver/WinUHid.c:469-513 | The length becomes the lesser of the requested one and the declared size of the report; the operation stays with its dispatch handler if and only if that size is not 0, and goes to a completing handler if and only if it is. |
| `DriverProtocol.DispatchQueues` | WinUHid Driver/WinUHid.c:516-554 | A prepared operation of a declared report is queued behind all that waits if the file is open and the collection takes it, and is failed otherwise. |
| `DriverProtocol.StaysWithHandler` | WinUHid Driver/WinUHid.c:419-555 | No step of another handler takes an operation from its dispatch handler or changes it. |
| `DriverProtocol.QueuedIsDeclared` | WinUHid Driver/WinUHid.c:493-540 | In every run, what waits or is outstanding is a ready-for-read or a request of a report with a nonzero declared size. |
| `DriverProtocol.EventNeedsIff` | WinUHid Driver/WinUHid.c:362-389 | A buffer is large enough if and only if the 14 header bytes end within it and, for writes, so does the data at offset 13. |
| `DriverProtocol.EventNeedsBounded` | WinUHid Driver/WinUHid.c:377-393 | With a parsed table no queued event needs a buffer of more than 13 + 2^29 + 1 bytes. |
| `EventLayout.WrittenReads` | WinUHid/WinUHid.h:89-112 | A buffer with the packed header in front and, for writes, the data written from offset 13 on reads as the event: type code, request ID, report ID, length and data. |
| `EventLayout.ReadsOnce` | WinUHid/WinUHid.h:17-112 | No buffer reads as two different events. |
| `PendedRequests.RequestsConserved` | WinUHid Driver/WinUHid.c:975-1007 | In every run each get-next request that came in is in one place: with a handler in one of the windows, pended, or answered; it is answered at most once, and exactly once when no handler and no queue has it any more. |
| `PendedRequests.PendedInOrder` | WinUHid Driver/WinUHid.c:985-1001 | Get-next requests are taken out in the order in which they were pended, and one that is put back stays the first. |
| `PendedRequests.OpensGap` | WinUHid Driver/WinUHid.c:556-578 | A gap (a pended request, and more waiting operations than dispatch handlers on their way) opens if and only if a request is pended or put back beside an operation that nobody will serve, or a failed delivery uses up a pended request beside another one. |
| `PendedRequests.ClosesGap` | WinUHid Driver/WinUHid.c:556-578 | A gap closes if and only if the file is closed, a get-next takes the one operation that nobody was going to serve, or the last pended request is taken out or cancelled. |
| `PendedRequests.GapIff` | WinUHid Driver/WinUHid.c:556-578 | At the end of any run there is a gap if and only if some move opened one and no later move closed one, where both are conditions on the state in which the move is made. |
| `PendedRequests.CoexistIff` | WinUHid Driver/WinUHid.c:985-1001 | With no handler in an unlocked window, an operation waits beside a pended request if and only if some move of the run opened a gap and no later move closed one. |
| `PendedRequests.DispatchInWindow` | WinUHid Driver/WinUHid.c:985-992 | There is a run from a start state of one get-next and one dispatch that ends with both waiting and no handler left. |
| `PendedRequests.WaitingLasts` | WinUHid Driver/WinUHid.c:556-578 | From there on they stay where they are in every run without another get-next, operation, cancellation or close. |
| `RequestQueues.FileQueues.BeginDispatch` | WinUHid Driver/WinUHid.c:455-467 | The entry of a VHF request is one step of the protocol and keeps its packet and buffer. |
| `RequestQueues.FileQueues.BeginReadyForRead` | WinUHid Driver/WinUHid.c:455-460 | The entry of a ready-for-read callback is one step: an operation without handle, with ID 0. |
| `RequestQueues.FileQueues.FailDispatch` | WinUHid Driver/WinUHid.c:436-450 | A dispatch without an operation object is given up and finished, completing the handle only if there is one. |
| `RequestQueues.FileQueues.ReissueReadyForRead` | WinUHid Driver/WinUHid.c:1109-1126 | The synthetic re-issue is one step: the taken operation is done without completing anything, and a fresh one with ID 0 enters. |
| `RequestQueues.FileQueues.PrepareRequest` | WinUHid Driver/WinUHid.c:455-514 | One step of the protocol: the wrapped 32-bit ID has its top bit set, and the length is clamped to the row of the report, in the column of its kind; the report is known if and only if that size is not 0, and then the operation is still with its dispatch handler; if not, with a completing one. |
| `RequestQueues.FileQueues.QueueOperation` | WinUHid Driver/WinUHid.c:516-554 | The lock-held queuing is one step: the operation is appended to the waiting ones if and only if the device is not being closed and the collection took it, and fails otherwise. |
| `RequestQueues.FileQueues.TryCompleteGetNextEvent` | WinUHid Driver/WinUHid.c:291-417 | One step; the request stays open if and only if nothing waits. Delivery fails as too small if and only if the 14 header bytes, or for writes the data at offset 13, do not end within the caller's buffer, and then the head goes on waiting. Otherwise the buffer reads as the event of the head of the queue, its data for writes being exactly the clamped length of its buffer, and nothing beyond is touched; the operation moves to the end of the outstanding ones. |
| `RequestQueues.FileQueues.TakeOutstandingRequestById` | WinUHid Driver/WinUHid.c:256-285 | One step; the search succeeds if and only if some outstanding operation has the ID, and the caller then holds that operation alone. |
| `RequestQueues.FileQueues.CompleteOperation` | WinUHid Driver/WinUHid.c:1142-1165 | Completing a taken operation is one step and completes a handle only if there is one. |
| `RequestQueues.FileQueues.Rundown` | WinUHid Driver/WinUHid.c:1256-1276 | Running down a collection completes, in order, the handles of its operations that have one. |
| `RequestQueues.FileQueues.FileClose` | WinUHid Driver/WinUHid.c:1233-1278 | Closing is one step: the handle is cleared and both collections are run down. |
| `RequestQueues.QueuedAllReady` | WinUHid Driver/WinUHid.c:1259-1261 | For queued operations the test for ID 0 is the test for having no handle. |
| `ReadReply.BuildReply` | WinUHid/WinUHid.cpp:611-649 | The DLL's message carries the data cut to the requested length and the matching number of bytes, or a failure. |
| `ReadReply.FillTransferBuffer` | WinUHid Driver/WinUHid.c:1066-1159 | The driver accepts by length and then copies and zero-fills exactly the requested bytes, and nothing beyond. |
| `ReadReply.AnswerRead` | WinUHid/WinUHid.cpp:611-639 | End to end: the client sees the data cut or zero-padded to exactly the requested length with all bytes beyond untouched; the reply is accepted if and only if there is at least one byte of data or the DLL ran out of memory. |
| `ReadReply.CutThenFit` | WinUHid/WinUHid.cpp:620-628 | The DLL's truncation never changes what the client sees. |
| `ReadReply.FittedMeaning` | WinUHid Driver/WinUHid.c:1141-1156 | The fitted data is a prefix of the data, followed by zeros only if the data is shorter. |
| `PollGrowth.DoublePower` | WinUHid/WinUHid.cpp:559-559 | A power of two that is too small for some event can be doubled without leaving 2^30 or overflowing a DWORD. |
| `PollGrowth.StepKeepsPollInv` | WinUHid/WinUHid.cpp:555-579 | Every step of every poller keeps all sizes and the hint powers of two in range; a retry exactly doubles, and the hint only raises a size. |
| `PollGrowth.GrowthBounded` | WinUHid/WinUHid.cpp:497-593 | In every run with any number of pollers, sizes and hint are powers of two from 2^7 to 2^30 and no call has retried more than 23 times. |
| `PollGrowth.ParsedTableBounded` | WinUHid Driver/WinUHid.c:216-248 | The table of an accepted descriptor satisfies the bound that the growth relies on. |
| `PollGrowth.Device.Grow` | WinUHid/WinUHid.cpp:560-567 | The exclusive section leaves size and hint equal to the larger of the two. |
| `PollGrowth.Device.Retry` | WinUHid/WinUHid.cpp:555-567 | One retry, with any interference by other pollers, raises the exponent and stays within 2^30. |
| `PollGrowth.Device.PollEvent` | WinUHid/WinUHid.cpp:497-598 | The loop terminates within 23 retries however attempts end; it returns an event if and only if the attempt did not fail and the buffer is large enough, and each retry was needed. |
| `StopProtocol.PollKeepsLock` | WinUHid/WinUHid.cpp:496-598 | Every path of a polling call keeps the lock equal to what its holders' positions imply. |
| `StopProtocol.StepKeepsLock` | WinUHid/WinUHid.cpp:296-368 | So do all steps of all threads: no path releases a lock it does not hold or keeps one too long. |
| `StopProtocol.RunInv` | WinUHid/WinUHid.cpp:651-724 | The lock, cancellation, stop and read-thread invariants hold in every state of every run. |
| `StopProtocol.NothingIssuedAfterStop` | WinUHid/WinUHid.cpp:662-672 | Once Stopped is set and CancelIoEx was called, no GET_NEXT_EVENT is issued again in any run, and every earlier one is finished or being cancelled. |
| `StopProtocol.LockReleased` | WinUHid/WinUHid.cpp:651-724 | When all calls and threads are over, nobody holds the device lock. |
| `StopProtocol.HoldersNeverWait` | WinUHid/WinUHid.cpp:296-598 | In every run whoever holds the device lock can go on at once: nobody holds it over a wait. |
| `StopProtocol.PollEnds` | WinUHid/WinUHid.cpp:497-598 | A polling call ends at a step if and only if an allocation fails there, it finds the device not started, or its request failed. |
| `StopProtocol.EventThreadPollsOn` | WinUHid/WinUHid.cpp:345-365 | While the device stays started and nothing fails, the event thread polls on after every event, in every run. |
| `StopProtocol.TakenIsCalled` | WinUHid/WinUHid.cpp:296-343 | What the read thread takes from the slot goes to the callback, after which the timer is armed and its signal awaited; it takes whatever is in the slot while the device is started. |
| `StopProtocol.ReadThreadGoesOn` | WinUHid/WinUHid.cpp:301-339 | While the device stays started the read thread does not exit, in every run. |
| `StopProtocol.StepDecreases` | WinUHid/WinUHid.cpp:651-724 | After the cancellation every step of every thread decreases one measure. |
| `StopProtocol.SomeoneMoves` | WinUHid/WinUHid.cpp:651-724 | After the cancellation, and unless the signal was stolen, there is no deadlock: until all have exited, some step is possible. |
| `StopProtocol.StopTerminates` | WinUHid/WinUHid.cpp:651-724 | After the cancellation every run is finite, submits at any time included; where it cannot go on, all calls and threads have finished unless the signal was stolen. |
| `StopProtocol.StopWaitsForThreads` | WinUHid/WinUHid.cpp:680-724 | When the stop has returned after its cancellation, the read thread and the event thread have exited. |
| `StopProtocol.StolenIff` | WinUHid/WinUHid.cpp:247-254 | The signal is stolen if and only if some step of the run is a submit that takes it after the stop set it and while the read thread is about to wait. |
| `StopProtocol.StopReturnsIff` | WinUHid/WinUHid.cpp:651-724 | A cancelled run that cannot go on has ended with all polling calls, both worker threads and the stop finished if and only if it has no such step. |
| `StopProtocol.NoOverlapReturns` | WinUHid/WinUHid.cpp:651-724 | If no submit tests the event between the entry of the stop and its return, all threads exit and the stop returns. |
| `StopProtocol.StolenSignalHangs` | WinUHid/WinUHid.cpp:247-254 | Once a submit took that signal, neither the read thread nor the stop returns in any later state of any run. |
| `StopProtocol.SignalCanBeStolen` | WinUHid/WinUHid.cpp:704-711 | There is a run from an initial state in which a submit takes that signal. |
| `ReadHandoff.ReceiveFindsIdle` | WinUHid/WinUHid.cpp:354-361 | When a ready-for-read event is delivered, the slot is empty and no thread holds an earlier one, because of the driver's invariant. |
| `ReadHandoff.FirstWithIdZero` | WinUHid Driver/WinUHid.c:1079-1093 | Completing ID 0 finds the one outstanding ready-for-read operation. |
| `ReadHandoff.HandoffRun` | WinUHid/WinUHid.cpp:247-271 | In every run the holders of events match the driver's outstanding ready-for-read operation, and signals and claims count the event in the slot. |
| `ReadHandoff.SlotAlwaysFree` | WinUHid/WinUHid.cpp:354-361 | In every run the event thread stores into an empty slot, nothing is overwritten, and at most one event is owned. |
| `ReadHandoff.NoEventForgotten` | WinUHid/WinUHid.cpp:317-330 | The event of an outstanding ready-for-read operation is held by exactly one of slot, event thread, read thread, submit or destroy, unless the driver refused its completion. |
| `ReadHandoff.ClaimFindsEvent` | WinUHid/WinUHid.cpp:252-260 | Until the stop signals, whoever consumed the event finds the slot full; the branches marked impossible are taken only after it. |
| `ReadHandoff.SubmitAfterStopFindsNothing` | WinUHid/WinUHid.cpp:253-259 | After the stop has signalled, a submit can consume the event and find the slot empty. |
| `ReadHandoff.EmptyTakeHappens` | WinUHid/WinUHid.cpp:253-259 | There is a run from a start state in which that happens. |
| `ReadHandoff.RefusalStallsInput` | WinUHid Driver/WinUHid.c:1069-1077 | Once the driver has refused the completion of a ready-for-read event, then until the file is closed no further one is delivered, held by any thread, or raised by VHF, in every later state of every run. |
| `ReadHandoff.StalledIff` | WinUHid Driver/WinUHid.c:1069-1077 | In every run, while the file is open, a ready-for-read event is outstanding in nobody's hands if and only if a reply was refused. |
| `ReadHandoff.StalledByReplyIff` | WinUHid/WinUHid.cpp:613-637 | While the file is open, that is so if and only if one of the moves of the run is a reply without data for which the DLL had memory. |
| `ReadHandoff.RefusedIff` | WinUHid/WinUHid.cpp:613-637 | A reply is refused if and only if it has no data and the DLL had memory for it; one of WinUHidSubmitInputReport never is. |
| `ReadHandoff.RefusalHappens` | WinUHid/WinUHid.cpp:633-637 | There is a run from a start state in which an event reaches the read thread, its callback replies with NULL, and the driver refuses the reply. |
| `Throttle.RunInv` | WinUHid/WinUHid.cpp:330-336 | In every run a signalled timer means that a whole period has passed since it was last set. |
| `Throttle.CallbacksSpaced` | WinUHid/WinUHid.cpp:296-343 | However submits re-arm the timer, any two callbacks of the read thread are at least as many periods apart as there are callbacks between them. |
| `WorkerHandoff.StepKeepsInv` | WinUHidDevs/WinUHidPS4.cpp:481-543 | No step of writers, worker or stop loses an update or the stop. |
| `WorkerHandoff.UpdatesArrive` | WinUHidDevs/WinUHidPS4.cpp:455-468 | In every run an outdated copy implies that the event is set or about to be; a worker that sleeps undisturbed has copied and shown the latest state. |
| `WorkerHandoff.UpdateTakenUp` | WinUHidDevs/WinUHidPS4.cpp:481-543 | While an update is on its way the worker never blocks, and within eight of its own steps it is copying the latest state or has exited. |
| `WorkerHandoff.StopStep` | WinUHidDevs/WinUHidXOne.cpp:224-231 | After the stop is signalled the worker is enabled until it has exited, and each of its steps decreases a measure. |
| `WorkerHandoff.WorkerExits` | WinUHidDevs/WinUHidPS4.cpp:748-754 | After the stop is signalled the worker never blocks and exits within eight of its own steps, whatever the writers do. |
| `WorkerHandoff.StopSignalCanBeErased` | WinUHidDevs/WinUHidXOne.cpp:236-239 | A worker that is about to reset the event erases the stop signal with it. |
| `WorkerHandoff.ErasureHappens` | WinUHidDevs/WinUHidXOne.cpp:236-239 | There is a run from the initial state in which that happens to a worker that has not exited. |
| `XOneRumble.OnLevelUndoesReport` | WinUHidDevs/WinUHidXOne.cpp:244-247 | Each motor level is read from its own field under its own enable bit. |
| `XOneRumble.SoundingIff` | WinUHidDevs/WinUHidXOne.cpp:252-263 | An effect is played if and only if its duration is not 0 and at least one of the four motors is enabled and not 0. |
| `XOneRumble.PlainLength` | WinUHidDevs/WinUHidXOne.cpp:249-311 | The plain effect lasts as many cycles of delay and duration as asked for. |
| `XOneRumble.PlainSignalAt` | WinUHidDevs/WinUHidXOne.cpp:265-310 | At each moment the plain effect is at the level asked for in the duration part of a cycle and off in its delay part, where the first delay keeps what was playing before. |
| `XOneRumble.NoDelayMerges` | WinUHidDevs/WinUHidXOne.cpp:289-297 | Cycles without a delay run together into one hold of their total duration. |
| `XOneRumble.MergedDueTime` | WinUHidDevs/WinUHidXOne.cpp:288-297 | The merged due time is that of all remaining cycles. |
| `XOneRumble.DueTimeUnits` | WinUHidDevs/WinUHidXOne.cpp:165-165 | A unit of the report is 10 ms for the timer, whose due time counts 100 ns and is relative because it is negative. |
| `XOneRumble.TimedWait` | WinUHidDevs/WinUHidXOne.cpp:268-278 | A wait that a new report cuts short leaves the plain effect cut there; one that ends leaves the rest of the plain effect to play. |
| `XOneRumble.PlayDelay` | WinUHidDevs/WinUHidXOne.cpp:265-278 | The first half of the loop body stays on the plain effect. |
| `XOneRumble.PlayDuration` | WinUHidDevs/WinUHidXOne.cpp:280-310 | The second half stays on it too, with all remaining repeats merged if there is no delay, and ends with the motors off. |
| `XOneRumble.PlayEffect` | WinUHidDevs/WinUHidXOne.cpp:249-311 | The loop terminates. If the duration is 0 or none of the four motors is enabled and not 0, the motors are turned off and that is all; otherwise the motor level over time is that of the plain effect, cut where a new report arrives. An uninterrupted run turns motors on if and only if that is so, takes (Repeat + 1) * (Delay + Duration) units and ends with them off. |
| `Ps4Led.DecodeUndoesWriting` | WinUHidDevs/WinUHidPS4.cpp:263-279 | Every field of the output report is read from where a host writes it. |
| `Ps4Led.FieldPositions` | WinUHidDevs/WinUHidPS4.cpp:263-279 | The byte positions of all fields in a report that marks them all as valid. |
| `Ps4Led.LatestField` | WinUHidDevs/WinUHidPS4.cpp:457-465 | Colour and blink times of the merged state are each the last ones marked valid, whichever reports they came in. |
| `Ps4Led.Gamepad.OutputReport` | WinUHidDevs/WinUHidPS4.cpp:441-478 | After any run of reports the shared state is the merge of the accepted ones, the event was set once per report with LED data, and the rumble callback got every valid motor state in order; refused reports change nothing. |
| `Ps4Led.Show` | WinUHidDevs/WinUHidPS4.cpp:502-539 | The blink loop terminates when the next request is there; until then the light has the colour in the first 10 * on of every 10 * (on + off) milliseconds and is off in the rest, or is steady if both times are zero. |
| `GamepadClock.IncrementExact` | WinUHidDevs/WinUHidPS5.cpp:267-271 | The two divisions are one division by their product. |
| `GamepadClock.IncrementExactOnlyIfFits` | WinUHidDevs/WinUHidPS4.cpp:328-332 | The increment is exact if and only if the delay times 10^9 fits in 63 bits. |
| `GamepadClock.LongPauseRunsBackwards` | WinUHidDevs/WinUHidPS5.cpp:268-271 | A pause of 923 seconds at 10 MHz gives a negative increment. |
| `GamepadClock.Gamepad.PrepareInputReport` | WinUHidDevs/WinUHidPS5.cpp:259-279 | After any number of submissions the timestamp is the sum of the per-step increments modulo 2^16 or 2^32, and the k-th sequence number is k - 1 modulo 256. |
| `GamepadClock.DriftBounded` | WinUHidDevs/WinUHidPS4.cpp:320-339 | Elapsed time minus the unwrapped timestamp lies in [0, n) units after n submissions whose delays fit. |
| `Ps5Feedback.DecodeUndoesWriting` | WinUHidDevs/WinUHidPS5.cpp:178-210 | Every field of the output report is read from where a host writes it. |
| `Ps5Feedback.Gamepad.OutputReport` | WinUHidDevs/WinUHidPS5.cpp:378-423 | After any run of reports the remembered values and all callbacks made are those of the accepted reports; a wrong ID or a short report changes nothing. |
| `Ps5Feedback.OnlyRegistered` | WinUHidDevs/WinUHidPS5.cpp:385-423 | Only registered callbacks are called. |
| `Ps5Feedback.TriggerToldIff` | WinUHidDevs/WinUHidPS5.cpp:405-418 | A registered trigger callback is called if and only if a valid side differs from the effect remembered for that side. |
| `Ps5Feedback.ReplayCalls` | WinUHidDevs/WinUHidPS5.cpp:385-423 | The callbacks of one report, applied in order, update exactly the fields that were told. |
| `Ps5Feedback.FeedIsLossless` | WinUHidDevs/WinUHidPS5.cpp:385-423 | Over any run, replaying the callbacks from zero with NULL meaning unchanged gives light bar, player LED, triggers and microphone LED as every valid field of every report sets them. |
| `Ps5Feedback.TraceIsChanges` | WinUHidDevs/WinUHidPS5.cpp:385-393 | The callbacks of each single-value channel are its valid values with consecutive duplicates removed, the first compared with zero. |
| `Ps5Feedback.RumbleHeard` | WinUHidDevs/WinUHidPS5.cpp:395-403 | What a rumble listener knows is the last valid motor bytes at the amplitude of the mode in force when they changed. |
| `Ps5Feedback.RumbleFaithfulIff` | WinUHidDevs/WinUHidPS5.cpp:395-403 | That is the level asked for if and only if the mode has not changed since, or both motors are off. |
| `Ps5Feedback.ModeSwitchLost` | WinUHidDevs/WinUHidPS5.cpp:395-403 | Two reports with equal motor bytes and different modes leave the listener at the wrong level. |
| `Ps5Feedback.AmplitudeModes` | WinUHidDevs/WinUHidPS5.cpp:396-401 | The second vibration mode passes the motor value on; the legacy mode doubles it if and only if it is below 128 and cuts 256 off the double otherwise; both agree only at 0. |
| `MouseScroll.Mouse.WriteFeature` | WinUHidDevs/WinUHidMouse.cpp:143-151 | A write of feature report 18 with at least two bytes is one multiplier event of the run function; any other write is refused and changes nothing. |
| `MouseScroll.MultiplierBits` | WinUHidDevs/WinUHidMouse.cpp:121-122 | The two lowest bits of the multiplier choose the resolution of the vertical axis and the next two that of the horizontal one. |
| `MouseScroll.Mouse.ReportScroll` | WinUHidDevs/WinUHidMouse.cpp:228-262 | A scroll call in full resolution reports its own delta and leaves the accumulator alone; otherwise it reports and accumulates on its own axis as the run function does. |
| `MouseScroll.OneStep` | WinUHidDevs/WinUHidMouse.cpp:247-257 | The reported tick always fits in a SHORT, and a step accounts for its input up to 256 for a negative remainder. |
| `MouseScroll.Conservation` | WinUHidDevs/WinUHidMouse.cpp:235-259 | Over any run on either axis, 120 times the ticks plus the accumulator is the input plus the initial accumulator plus 256 for every negative remainder. |
| `MouseScroll.ExactlyConserved` | WinUHidDevs/WinUHidMouse.cpp:235-259 | Conservation is exact if and only if no step has a negative remainder. |
| `MouseScroll.AccumulatorBelowTick` | WinUHidDevs/WinUHidMouse.cpp:247-257 | Then the accumulator stays below one tick. |
| `MouseScroll.ScrollBackGoesForward` | WinUHidDevs/WinUHidMouse.cpp:256-257 | One unit back on a new mouse reports two ticks forward at the next call. |
| `QueryToken.PercentDecode` | web/src/server.rs:104-130 | The byte loop terminates and its output is the one reading of the input: two printed hexadecimal digits, in either case, after a percent sign are one byte, a plus is a space, and every other byte, malformed escapes included, stands for itself. It is not longer than the input. |
| `QueryToken.HexNibbleIff` | web/src/server.rs:132-139 | A byte is read as the digit n if and only if it is the upper-case or the lower-case character printed for n. |
| `QueryToken.DecodedIff` | web/src/server.rs:104-130 | For every byte string, well formed or not, decoding gives exactly the text that the string reads as by the printed digits. |
| `QueryToken.DecodeUndoesWriting` | web/src/server.rs:104-139 | Decoding undoes every valid way of writing a text: escapes printed with digits of either case, plus for space, literal bytes. |
| `QueryToken.EncodedWrites` | web/frontend/app.js:414-414 | The frontend's encoder is one of those ways and never writes an ampersand. |
| `QueryToken.ExtractQueryToken` | web/src/server.rs:91-102 | The loop returns the decoded value of the first parameter named token, or nothing. |
| `QueryToken.SplitUndoesJoin` | web/src/server.rs:93-93 | Splitting at ampersands undoes joining with them. |
| `QueryToken.WrittenTokenFound` | web/src/server.rs:91-130 | Whatever parameters surround it, a token written in any valid way under the first token key comes out as it was. |
| `QueryToken.BareToken` | web/src/server.rs:97-97 | A parameter that is only the key has an empty token. |
| `QueryToken.FrontendTokenFound` | web/frontend/app.js:413-415 | So the token that the frontend puts into its socket URL is the one the server compares. |
| `QueryToken.TokenFoundIff` | web/src/server.rs:91-102 | A token is found if and only if some parameter is named token. |

## Left out

- WDF, VHF and Win32 objects: collections are sequences, the request lock and slim reader/writer lock are atomic sections, events and timers are booleans or due times.
- The guarantee of VHF that it raises a ready-for-read callback only while none is being handled is an assumption: the guard of `ArriveReady` in `DriverProtocol`.
- Object lifetime: an operation number is never reused in `DriverProtocol`, and the only allocation failures there are those of operation objects and of queue moves.
- Completing ID 0 with the write completion request, and setup requests that run at the same time on one handle, are misuse and not modelled.
- Other setup requests (instance ID, hardware IDs, interface version, start) and the write path of `WinUHidEvtIoWrite` store or pass on what they get.
- In `PendedRequests` the requests of one file only are considered, and which buffer size a request brings is free at each delivery.
- In `StopProtocol` the wait of a submit on the event and its exchange of the slot are one step; `ReadHandoff` has them apart.
- RequestQueues.FileQueues.TryCompleteGetNextEvent: the byte count is 14 plus the length although the data starts at offset 13, as in the code; the header's last byte, which the driver does not set, is the parameter `pad`, and a buffer too small for the data may already hold the header.
- RequestQueues.FileQueues.BeginDispatch: VHF is taken to allocate the announced length or the report's size, whichever is less, as the driver's comment on its clamp says.
- In `DriverProtocol` a ready-for-read operation counts as done from its re-issue or its submit to VHF on, although its object is deleted a little later.
- `ReadHandoff` does not distinguish a read thread that is about to wait from one that is blocked in the wait, which SetEvent releases by itself (`StopProtocol` does), so it allows more runs.
- Shifts and the OR that sets the top bit of request IDs are written as arithmetic.
- A real VHF request is taken to have a nonzero length, because a length of 0 marks ready-for-read events for the event thread.
- The data length of a read completion plus 12 is taken to fit in a DWORD.
- Timers never fire early; how late they fire is not bounded.  User callbacks return, and complete each event once.
- In `StopProtocol` the store of an event and the setting of its signal are one step; `ReadHandoff` has them apart.
- `WinUHidStartDevice` and its unwinding, `WinUHidCreateDevice`, and the length of multi-string hardware IDs, which advances by the cumulative length and so is right for one string only.
- XOneRumble.PlayEffect: a new report is a moment `cutoff` of the playing effect, and callbacks take no time.
- Ps4Led.Show: the same, and the thread is followed from one request to the next; how requests reach it is `WorkerHandoff`.
- WorkerHandoff numbers the shared states and leaves their contents to `Ps4Led` and `XOneRumble`.
- Mouse motion and buttons, and the DLL's other submissions, pass on what they get.
- Input reports as bytes, preset descriptors other than the mouse's, feature report blobs, hat, touch, battery, acceleration and gyroscope setters are tables or single branches.
- QueryToken works on bytes: the decoder's replacement of invalid UTF-8 is not modelled, nor are the bearer header, routing, sockets, the device manager and the browser code apart from the encoder.
- The installer, scripts and the repository's own unit tests.
