# A verified model of the transport-stream path of siano-userland

This Dafny project models the part of siano-userland through which every received byte passes, and
proves what that part is for. USB transfers are stamped when they are submitted; their completions
are queued in a ring guarded by a tuning epoch and a capture generation; a consumer pops chunks,
finds the 188-byte packets in them and writes them through a pump that may be refused, cut short or
retuned at any moment; meanwhile transfers fail, drain and are freed, and captures start and stop.
Around it stand the clock conversion, the stream checker, the firmware download, the device selector
and the control-line assembler.

## How it is laid out

| file | what it holds |
|---|---|
| `Wire.dfy` | bytes, bytes tagged with their origin, error numbers |
| `PumpModel.dfy`, `ScanLaw.dfy`, `PumpRuns.dfy`, `OutputWriter.dfy` | the pure packet scanner and what it finds, the pump as functions, its whole runs, and the pump over its two buffers |
| `QueueModel.dfy`, `TsRing.dfy` | the queue as a bounded FIFO, and the 256-slot ring |
| `Isolation.dfy`, `Receiver.dfy`, `StreamLoop.dfy` | origins through the pump, the whole data path as a transition system, and the loop turns that drive ring and pump |
| `Reception.dfy`, `Provenance.dfy` | what the data path takes in and when, and where its output comes from |
| `Transfers.dfy` | the USB transfers and the threads that handle them |
| `CaptureModel.dfy`, `CaptureObjects.dfy` | capture host, consumer and receiver adapter as one state, and as objects over the ring |
| `Clock.dfy` | counter to seconds and nanoseconds |
| `TsCheck.dfy`, `Verdicts.dfy`, `TuneSegments.dfy`, `Report.dfy`, `Continuity.dfy`, `PacketFields.dfy` | the continuity checker; its rule, its excuses and its report said of positions; what it finds; and the packet fields it reads |
| `Protocol.dfy`, `Firmware.dfy` | message codecs and framing; the firmware download |
| `Selector.dfy`, `ControlLines.dfy` | device selector and location text; control lines |

Two ideas carry the pump. `Pump.Plan` says what a pump still owes if nothing more is fed, by the pure
scanner; a step takes its bytes off the front of the plan whatever the output answers, and a retune
cuts the plan at the end of the packet in progress. Every byte carries an `origin`, the number of
successful retunes when its transfer was stamped; no operation reads it, only statements do. `Stamp`,
`Journal`, `tunes`, `captured` and the counters of `Receiver.State` serve statements in the same way.

The environment enters as arguments: the answers of write and sink calls (a schedule that has run
out answers "try again"), the results of joins, submissions and sessions, the pieces in which input
arrives. A descriptor never takes more than it is offered.

## What came out

- `siano_output_pump_pending` is not the number of bytes still to be written while an ordinary packet
  is partly out: it counts that packet in full (output-writer.c:275-283). `BytesAreConserved` says
  exactly when the two agree, and `PendingOverstates` gives an input where they do not.
- The clock conversion is exact for every counter and every nonzero frequency whose whole seconds
  fit the time type, not only for frequencies below 2^63: where an intermediate subtraction wraps, it
  wraps back. Up to 2^64 - 82 nothing wraps at all.
- A lost stretch of a PID's packets gives one continuity error at the next packet of that PID, unless
  the PID was new, the count lost is a multiple of 16, that packet is marked discontinuous, or it passes
  for a duplicate of the packet before the gap. When the count lost is one short of a multiple of 16 and
  the survivor is followed by a legal duplicate of its own, that duplicate is reported as well, so one
  loss can give two errors (`TwoErrorsFromOneLoss`). `LossIsFoundOnce` states the exact list, for every
  stream without errors.
- A run of n copies gives n - 2 errors only if the first of them repeated nothing.
- The first packet of a PID that is excused after a retune may be one with its error bit set or
  a malformed one (docs/release-validation/ts-check.py:57-66): the excuse is then spent on it.
  `ExcuseIsSpent` says that the first sound packet is then reported exactly in that case, and
  `SpentExcuse` gives such files.
- The comment at siano-ts.c:488-490 says that a failed tune retains the queue. It does not: while it
  waits for lock, a tune pops and drops chunks (siano-device.c:992-1001). `FailedTuneRetains` says what
  is left, and that it is the original queue exactly when that was empty or overflowed or nothing was
  popped; `FailedTuneLoses` gives a run that loses a chunk. The pump is retained.
- A capture stop whose join fails has already ended the queue's session (siano-capture-host.c:91-93):
  ownership is kept, but nothing more is captured.

- A USB error of -11 (libusb's "no memory") has the value of -EAGAIN, and the streaming loop goes on
  after it as if nothing had been queued (siano-ts.c:451-455); `Turn` states that exception.
- A stop that finds its host but not its packet session counts as success, and then does not report that
  the worker had failed (siano-receiver-adapter.cpp:195, siano-capture-consumer.cpp:81-82).

## Model

| member | source | states |
|---|---|---|
| `PumpModel.ScanFrames` | output-writer.c:340-349 | the scanner puts out whole sync-led packets and no byte that was not fed |
| `ScanLaw.ScanFinds` | output-writer.c:340-356 | of any buffer exactly the packets are put out that lead with 0x47, and 0x47 again 188 bytes on where that is in view, scanning from the left; no other byte before the tail leads one, and the tail is what follows the last packet or the last 187 bytes |
| `ScanLaw.FalseSyncIsSkipped` | output-writer.c:340-344 | a buffer whose first 0x47 is skipped because none stands 188 bytes on |
| `PumpModel.StepFollowsPlan` | output-writer.c:299-362 | whatever the output answers, a step's bytes are the front of the plan, the rest of the plan is unchanged, and it is idle exactly when it reports DONE |
| `PumpModel.StepDrains` | output-writer.c:299-362 | an output that takes everything empties the pump in one step |
| `PumpModel.StepReports` | output-writer.c:25-35 | a step that is not done was ended by its first answer that did not pass, and reports exactly that error, pending for -EAGAIN, -EINTR or a short write, -EIO for a sink's positive refusal |
| `PumpModel.StepTakes` | output-writer.c:314-338 | a partial write of n bytes emits exactly n and pends |
| `PumpModel.RetunedPlan` | output-writer.c:247-268 | a retune leaves owed exactly the rest of the packet in progress, for any number of retunes in a row |
| `PumpModel.Fed` | output-writer.c:285-297 | a feed owes the scan of the held tail and the new bytes |
| `PumpRuns.OutputIsFramed` | output-writer.c:247-362 | after any calls the output is whole packets each led by 0x47 plus the first `packet_off` bytes of one whose rest is owed next |
| `PumpRuns.BytesAreConserved` | output-writer.c:236-362 | every fed byte is emitted, skipped, discarded or unsent; `pending` is the unsent count iff no ordinary packet is partly written |
| `PumpRuns.PendingOverstates` | output-writer.c:275-283 | a concrete run where `pending` says 188 and 88 bytes are unsent |
| `PumpRuns.OutputIsTheScan` | output-writer.c:285-362 | without retunes, emitted plus owed is the fold of the pure scan over the chunks, under every write schedule |
| `PumpRuns.IdleOutputIsTheScan` | output-writer.c:285-362 | once idle, output, held tail and skipped bytes are those of the scan |
| `PumpRuns.ChunkingIsInvisible` | output-writer.c:285-297 | an aligned stream cut in any way gives its longest whole-packet prefix and holds the rest |
| `PumpRuns.AlignedInputPassesThrough` | output-writer.c:285-362 | the same of any run of the pump that has come to rest |
| `OutputWriter.OutputPump.constructor` | output-writer.c:213-229 | a fresh pump is the idle model pump |
| `OutputWriter.OutputPump.Reset` | output-writer.c:236-245 | the buffers after a reset are the model's |
| `OutputWriter.OutputPump.Retune` | output-writer.c:247-268 | moving the packet's rest to the front of the buffer is the model's retune |
| `OutputWriter.OutputPump.Pending` | output-writer.c:275-283 | the reported count, as analysed by `BytesAreConserved` |
| `OutputWriter.OutputPump.Feed` | output-writer.c:285-297 | copying hold and data into scratch is the model's feed |
| `OutputWriter.OutputPump.Step` | output-writer.c:299-362 | the nested loops over the buffers give the model's state, result and output |
| `OutputWriter.OutputPump.Resync` | output-writer.c:340-344 | the inner loop skips exactly to where a packet may start |
| `OutputWriter.OutputPump.WritePacket` | output-writer.c:314-338 | one write call and its bookkeeping |
| `OutputWriter.OutputPump.SinkPacket` | output-writer.c:303-313 | one sink call; a rejection keeps the packet |
| `TsRing.TsQueue.Enqueue` | siano-device.c:201-230 | storing, rejecting or dropping in the ring is what the bounded FIFO does |
| `TsRing.TsQueue.Pop` | siano-device.c:243-269 | the oldest chunk, or overflow before anything else |
| `TsRing.TsQueue.PopCapture` | siano-device.c:309-342 | the same for one session, refused to all others |
| `TsRing.TsQueue.CaptureStart` | siano-device.c:270-292 | a new session with a new generation, or the right refusal |
| `TsRing.TsQueue.CaptureStop` | siano-device.c:294-307 | the session ends and the generation moves on unless saturated |
| `TsRing.TsQueue.RetuneBegin` | queue-policy.c:25-29 | the epoch moves on and completions are discarded |
| `TsRing.TsQueue.RetuneFinish` | queue-policy.c:37-52 | only success empties the ring |
| `TsRing.RingTail` | siano-device.c:257-263 | taking the head slot takes the first element of the FIFO |
| `TsRing.RingPut` | siano-device.c:224-227 | writing the tail slot appends to the FIFO |
| `Receiver.NextKeepsInv` | siano-device.c:150-342 | every event keeps stamps honest, queued chunks current, the ledger balanced and the output isolated |
| `Receiver.PacketsAreIsolated` | siano-ts.c:491-500 | in every run no output packet mixes origins and origins never fall along the output |
| `Receiver.NothingOldAfterRetune` | siano-ts.c:491-500 | after a successful retune at any point of any run the output at most finishes its packet, unchanged, and every later byte was stamped after that retune |
| `Receiver.DeliveriesBelongToTheirSession` | siano-device.c:309-342 | a capture pop returns only chunks of transfers stamped while that session was enabled |
| `Receiver.EndedSessionGetsNothing` | siano-device.c:294-342 | an ended session is handed nothing in any continuation and every pop for it is refused |
| `Receiver.StoppedSessionEnds` | siano-device.c:294-307 | stopping ends a session, also at the saturated generation, after which no start succeeds |
| `Receiver.ChunksAreConserved` | siano-device.c:201-342 | offered = rejected + dropped + popped + cleared + queued, and chunks leave in order of arrival |
| `Receiver.AtMostOneDrop` | queue-policy.c:11-18 | with fail-on-drop set throughout there is at most one drop, and overflow exactly then |
| `Receiver.OverflowIsFinal` | siano-device.c:255-256 | after an overflow every pop says so, nothing more is popped and no capture starts, for ever |
| `Reception.CompletionIsStoredIff` | siano-device.c:201-230 | a transfer completed in any reachable state is stored, with its payload as the new last chunk, iff no tune was going on when it was submitted, none has begun or finished since, a session was enabled all along and the queue is open; it is dropped if 256 are queued, and otherwise changes nothing |
| `Reception.ComesBackOnce` | siano-device.c:428-469 | a transfer that has come back brings nothing more until it is submitted again |
| `Reception.ReceptionResumes` | queue-policy.c:37-52 | after a retune, failed or not, the next transfer submitted is stored when it completes |
| `Reception.QueueTells` | queue-policy.c:11-52 | in every run discarding, epoch, fail-on-drop, closed and the capture generation are those the events tell: the last retune event, their number, the last setting, a close or an overflow, the number of session changes up to saturation |
| `Reception.PopsAreOldest` | siano-device.c:243-342 | in every run a pop, of the current session or of any, hands out the oldest arrival that has not left the queue |
| `Reception.StartAnswers` | siano-device.c:270-292 | a session starts iff the queue is open, has not overflowed, has no session and generations are left, and otherwise says why |
| `Reception.SessionReceives` | siano-device.c:270-342 | a session started in any reachable state is handed the bytes of the next transfer |
| `Reception.TurnDelivers` | siano-ts.c:446-462 | with an idle pump and an output that takes everything, a turn puts out the scan of what was held and the oldest chunk |
| `Provenance.OutputWasReceived` | output-writer.c:247-362 | in every run the bytes put out are bytes of received payloads, each at most once and in the order received |
| `Receiver.FailedTuneRetains` | siano-device.c:992-1001 | through a failed tune output and pump are unchanged and the queue loses exactly its oldest chunks, one per pop of the wait for lock; it is the original queue iff it was empty or overflowed or nothing was popped |
| `Receiver.FailedTuneLoses` | siano-ts.c:488-500 | a run in which a failed tune loses the one chunk received |
| `StreamLoop.Turn` | siano-ts.c:446-474 | the loop turn feeds only an idle pump, with at most one transfer, steps a busy one, and stops before writing on any USB error but -11, else on an overflow |
| `StreamLoop.TurnIsTheEvent` | siano-ts.c:570-594 | that turn is the `Turn` event of the transition system |
| `StreamLoop.RetuneFinish` | siano-ts.c:491-500 | success empties ring and pump but for the packet in progress; failure changes neither |
| `StreamLoop.CaptureRound` | siano-capture-host.c:30-44 | a worker round puts out the scan of what it popped or leaves the loop, and never feeds a busy pump |
| `Transfers.NextKeepsInv` | siano-device.c:403-552 | every step of every thread keeps counter, flight set, running callbacks and snapshots in accord |
| `Transfers.EnterKeepsInv` | siano-device.c:437-441 | a callback finds the counter above zero and lowers it by one |
| `Transfers.AllAreSubmitted` | siano-device.c:492-538 | a start whose submissions all succeed ends with every transfer in flight and counted |
| `Transfers.RefusedStart` | siano-device.c:528-535 | a refused submission ends the start with the others in flight |
| `Transfers.Resubmits` | siano-device.c:455-468 | a completed transfer is in flight and counted again, and its callback has ended |
| `Transfers.StreamingGoesOn` | siano-device.c:437-468 | completion and resubmission bring back the very same state |
| `Transfers.RefusedResubmissionFails` | siano-device.c:462-466 | a refused resubmission stops the stream with the mapped error and snapshots all transfers |
| `Transfers.StoppingCallbackEnds` | siano-device.c:455-468 | once stopping, a callback submits nothing |
| `Transfers.FirstFailureStays` | stream-state.c:38-52 | the first failure decides the error, -1, -4 and -9 being reported as -4, whatever follows |
| `Transfers.TransferSafety` | siano-device.c:428-552 | in every reachable state with the mutex free the counter is the number in flight, memory is freed only with none in flight, no callback running on either thread and no event thread (ended or never started), snapshots cover what is in flight, and there is no error without a failure |
| `Transfers.ShutdownDrains` | siano-device.c:403-491 | once stopping, by either path, nothing is submitted, the error stays, each callback takes one out of flight and the counter is zero after exactly as many |
| `Transfers.DrainedShutdownFinishes` | siano-device.c:539-552 | a drained shutdown lets the event thread exit and the memory be freed |
| `Transfers.ShutdownCanFinish` | siano-device.c:470-552 | from every stopping state there are steps that end with the memory freed, also without an event thread |
| `Transfers.StopsAndLeaves` | siano-device.c:474-483 | stopping snapshots all that is stored; the event thread leaves iff stopping and drained |
| `Clock.Digit` | siano-clock.h:28-48 | a digit and a remainder with digit * frequency + rest = 10 * remainder, in wrapping 64-bit steps |
| `Clock.Rest` | siano-clock.h:46-48 | the remainder is exact for every frequency, and no step wraps up to 2^64 - 82 |
| `Clock.Threshold` | siano-clock.h:34-42 | the threshold never wraps, and comparing with it decides 10 * remainder >= digit * frequency |
| `Clock.ToTimespec` | siano-clock.h:13-54 | seconds and nanoseconds are floor(counter * 10^9 / frequency), nanoseconds below 10^9, exactly when the seconds fit a signed 64-bit type |
| `Clock.InstantIsMonotone` | siano-clock.h:8-12 | later counters give no earlier instants, and strictly later ones up to 10^9 ticks a second |
| `TsCheck.Inspect` | docs/release-validation/ts-check.py:38-136 | for every split of the file into reads the report is that of its whole packets, with the right size and remainder |
| `Report.PacketsAreSlices` | docs/release-validation/ts-check.py:43-46 | packet i of a file is its i-th 188 bytes |
| `PacketFields.HeaderReadsBack` | docs/release-validation/ts-check.py:57-78 | PID, counter and adaptation control are read back from the bytes they were put into |
| `PacketFields.FlagsReadBack` | docs/release-validation/ts-check.py:79-91 | so are the discontinuity and clock reference flags, the reserved bits and the extension |
| `PacketFields.ClassByFields` | docs/release-validation/ts-check.py:48-97 | which packets are erroneous, null, malformed or examined, and which make later duplicates untrusted, by their fields |
| `PacketFields.EveryPacketIsBuilt` | docs/release-validation/ts-check.py:48-92 | every packet that starts with 0x47 has such fields, so the above speaks of all of them |
| `PacketFields.EquivalentByBytes` | docs/release-validation/ts-check.py:10-17 | equivalence is equality of all bytes, but for bytes 6 to 11 of a packet with a clock reference, of which the reserved bits still count |
| `PacketFields.RepeatedClocks` | docs/release-validation/ts-check.py:103-110 | files in which a repeat with another clock reference is a legal duplicate, and one with another payload byte an error |
| `Continuity.ClassesPartition` | docs/release-validation/ts-check.py:44-97 | each packet is counted in exactly one of bad sync, error bit, null, invalid, examined |
| `Verdicts.VerdictIsPositional` | docs/release-validation/ts-check.py:98-117 | the records kept per PID decide exactly the positional rule: a packet is a mismatch iff it is judged, has a predecessor on its PID, does not continue it and is no legal duplicate |
| `Report.ReportIsPositional` | docs/release-validation/ts-check.py:44-117 | in any file and under any options each list holds exactly its indices, once and in order: errors are the packets neither legal nor forgiven, then the forgiven mismatches, the legal duplicates, the null and the invalid packets |
| `Report.NoErrorsIff` | docs/release-validation/ts-check.py:99-109 | no error is reported iff every packet is legal or forgiven |
| `Report.PassesIffSound` | docs/release-validation/ts-check.py:157-166 | the exit status is 0 iff the file is a positive number of whole packets, the options name packets of it, and every packet is synchronised, free of error bit, well formed, and legal or forgiven; it is 2 iff there is no packet or an option names none, and 1 otherwise |
| `Report.SegmentCountsBoundaries` | docs/release-validation/ts-check.py:50-53 | the segment is the number of boundaries passed |
| `Report.ExcusedInFile` | docs/release-validation/ts-check.py:57-62 | excused indices are exactly the first synchronised packet of each PID since the latest boundary |
| `Report.ExcuseIsSpent` | docs/release-validation/ts-check.py:57-66 | the first sound packet of a PID in its segment, where it does not continue, is reported iff an erroneous or malformed one of the PID came before it in the segment |
| `Report.SpentExcuse` | docs/release-validation/ts-check.py:57-66 | two such files |
| `Continuity.NoErrorIffEachPidCorrect` | docs/release-validation/ts-check.py:54-117 | no error is reported iff each PID, taken alone, is correct: counters run on but for single equivalent duplicates with nothing untrusted in between, however the stream is interleaved |
| `Continuity.CorrectStreamPasses` | docs/release-validation/ts-check.py:54-117 | a correct multiplex, its duplicates included, gives neither errors nor forgiven mismatches, whatever the options |
| `Continuity.LossIsFoundOnce` | docs/release-validation/ts-check.py:98-117 | in any stream without errors, losing the packets of a PID in a window gives exactly the errors of `Found`: one at the survivor but for the stated cases, and one at its legal duplicate if the count lost is one short of a multiple of 16 |
| `Continuity.TwoErrorsFromOneLoss` | docs/release-validation/ts-check.py:103-110 | a stream without errors that gives two when fifteen packets go missing |
| `Continuity.RunOfCopies` | docs/release-validation/ts-check.py:98-117 | of the copies that follow a payload packet the report lists all but one, all if the packet was a repeat itself, none if it is marked discontinuous |
| `Protocol.UnpackPacked` | protocol.c:35-57 | a packed header reads back from any message it leads |
| `Protocol.FramePacked` | protocol.c:59-89 | a message, split and aligned or not, is framed back to its payload whatever fills the gap and follows it |
| `Protocol.FramedIsPacked` | protocol.c:59-89 | every message that is framed consists of such a header, gap, payload and rest |
| `Protocol.Le32ReadsBack` | protocol.c:13-33 | 32-bit little-endian values read back |
| `Protocol.HeaderBytes` | protocol.c:35-43 | which byte of a header holds what, low byte first |
| `Protocol.WordBytes` | protocol.c:13-33 | a 32-bit value is stored low byte first |
| `Protocol.FramedByBytes` | protocol.c:59-89 | which messages are refused and with which error, and which bytes of the others are the payload |
| `Firmware.Load` | siano-device.c:724-838 | the messages sent are a prefix of the script, all of it on success; every answer but the last was good and the last is the result; a bad header sends nothing; a short reload image stops after its first message |
| `Firmware.ScriptIsComplete` | siano-device.c:756-822 | in bytes: a reload begins with 702 and ends with 704, a cold start ends with 664 carrying start address, 6, 0x200, 0, 4; before the last stands 662 with start address, length and 0 |
| `Firmware.AcceptedFiles` | siano-device.c:737-770 | which files are accepted and which reloads refused, by their bytes |
| `Firmware.Download` | siano-device.c:778-793 | the loop sends the image in 240-byte pieces at advancing addresses |
| `Firmware.ScriptRebuildsImage` | siano-device.c:748-793 | a device obeying the bytes of the script ends with payload and zero padding stored from the base on |
| `Firmware.FirmwareLands` | siano-device.c:748-793 | a device that obeyed the script holds byte 12 + i of the file at base + i, zeros after the payload, and elsewhere what it held; the base is the word at byte 8, or 32 when reloading |
| `Firmware.StoredMeans` | siano-device.c:778-793 | byte i is at base + i modulo 2^32 unless a later turn of the address space overwrote it |
| `Firmware.StoredElsewhere` | siano-device.c:778-793 | other addresses are untouched |
| `Firmware.DownloadsAreSmall` | siano-device.c:778-788 | ceil(size / 240) messages, each at most 252 bytes and stating its length |
| `Firmware.DownloadBytes` | siano-device.c:778-793 | in bytes: the j-th download message is request 660 with the j-th 240 bytes of the image and the address they go to |
| `Selector.ParseNumber` | device-selector.c:7-26 | exactly the numerals up to the maximum are accepted, and no intermediate value exceeds it |
| `Selector.Parse` | device-selector.c:28-74 | the cursor-advancing parser returns a selector iff the text names it, as a numeral, bus:address or bus-port.port..., and each text names at most one |
| `Selector.ReadsTheLanguage` | device-selector.c:28-74 | the language accepted, by the existence of the numerals: index up to UINT32_MAX, bus and address or one to eight ports in a byte, address and ports nonzero |
| `Selector.Format` | usb-location.h:18-47 | the location text is complete exactly when it and its terminator fit |
| `Selector.LocationParts` | usb-location.h:18-47 | what the location text looks like, with ports and without |
| `Selector.NoLeadingZero` | usb-location.h:18-47 | no number is printed with a leading zero |
| `Selector.PrintedPathIsRead` | device-selector.c:54-71 | a printed path of one to eight nonzero ports parses to itself |
| `Selector.PrintedIndexIsRead` | device-selector.c:39-43 | a printed index parses to itself |
| `Selector.PrintedAddressIsRead` | device-selector.c:44-53 | a printed bus:address parses to itself |
| `Selector.ParsedPathsArePrintable` | device-selector.c:54-71 | every path that parses has one to eight nonzero ports and is named by its printed form |
| `Selector.SixtyFourBytesSuffice` | siano-ts.c:362-369 | 64 bytes hold any location of up to eight ports |
| `ControlLines.Assembler.Take` | siano-ts.c:608-626 | one byte updates the 128-byte buffer as the unbounded line requires |
| `ControlLines.Control` | siano-ts.c:598-627 | for every split of the input the lines handled up to the first quit or failure are the lines of the whole input |
| `ControlLines.LinesAreTheInput` | siano-ts.c:608-626 | the lines and the unterminated rest are the input cut at its newlines |
| `ControlLines.EventsAreTheLines` | siano-ts.c:609-617 | the events are the first n lines in order, an overlong one reported once and never handled; every reply before the last was to continue, the last is the session's, and n is all of them unless that one ends it |
| `CaptureModel.OwnershipHolds` | siano-receiver-adapter.cpp:82-216 | over every call sequence initialised equals open, attached means an unjoined host exists, no capture session is enabled without its host, and the device is never closed under a worker |
| `CaptureModel.FailedJoinIsRecoverable` | siano-capture-host.c:86-97 | a failed join has ended the session, so the worker's next pop sends it out of its loop, keeps ownership and blocks closing; a later stop and close release device, host and session |
| `CaptureModel.AttachAnswers` | siano-capture-consumer.cpp:30-67 | when an attachment succeeds, what it leaves, and why it fails |
| `CaptureModel.StartErrors` | siano-capture-consumer.cpp:58-61 | how the errors of a host start are mapped |
| `CaptureModel.StopAnswers` | siano-receiver-adapter.cpp:189-216 | what a stop without a host, and one whose worker is joined, leave and report |
| `CaptureModel.OpenAndCloseAnswer` | siano-receiver-adapter.cpp:82-180 | the answers of opening, closing and shutting down |
| `CaptureObjects.CaptureHost.Stop` | siano-capture-host.c:86-97 | the ring's session ends whether or not the join works; the host counts as stopped only when its worker has ended |
| `CaptureObjects.Consumer.Start` | siano-capture-consumer.cpp:30-67 | success leaves a fresh host with a running worker and the session it owns, failure leaves host and session as they were |
| `CaptureObjects.Consumer.StartHost` | siano-capture-host.c:48-84 | a session started before the pump or the thread failed is stopped again |
| `CaptureObjects.Consumer.Stop` | siano-capture-consumer.cpp:69-90 | the host goes iff its worker was joined, and the session in any case |
| `CaptureObjects.ReceiverAdapter.Open` | siano-receiver-adapter.cpp:82-102 | keeps the ownership invariant; succeeds iff the device was closed and every stage worked, and a failure leaves it as open or closed as it was |
| `CaptureObjects.ReceiverAdapter.Close` | siano-receiver-adapter.cpp:155-165 | keeps the invariant; succeeds iff no host is left, so never under a worker |
| `CaptureObjects.ReceiverAdapter.Attach` | siano-receiver-adapter.cpp:199-207 | keeps the invariant; success iff a fresh host exists, whose worker runs and whose session is the enabled one; failure changes neither host nor session |
| `CaptureObjects.ReceiverAdapter.StopCapture` | siano-receiver-adapter.cpp:189-197 | keeps the invariant; no session is left, the host is released iff its worker was joined, and a failed join leaves host and attachment unchanged and is reported |
| `CaptureObjects.ReceiverAdapter.Detach` | siano-receiver-adapter.cpp:209-216 | keeps the invariant; the stream stays attached iff the join failed, and once detached the worker has ended |

## Left out

- What ends the streaming loops after a write (a failed or pending write, the deadline, a stop signal): the loop is modelled turn by turn.
- Waiting on condition variables, time and deadlines: a pop is the step taken once its wait is over.
- The wrap-around of the 64-bit epoch and of the drop counter: both are unbounded here; the capture generation saturates as in the source.
- libusb, pthreads, poll and file calls: only their results enter, as arguments or as a choice of steps.
- More than one thread at a time in synchronous libusb calls: callbacks run on the event thread or on the one thread that owns the device, which also stops the streaming.
- Which completion status leads to which reaction (stream-state.c:80-111): the steps let a callback return, fail or resubmit freely, which covers every classification.
- The mapping of device errors to results and the receiver-identity checks of the adapter: the error is carried as it is.
- The argument checks of the capture calls, which their one caller satisfies.
- The packet session behind the capture consumer, and its stale-run check, is not part of this model; its answers are arguments.
- The command table of control lines (`parse_control_line` and what handling a command does): a parameter, so the assembly is proved for every table.
- Buffers that protocol.c and usb-location.h fill are modelled as values that are returned, so aliasing of those buffers is not captured.
- Response bookkeeping, statistics, device discovery, the exit codes of siano-ts, the other release scripts and the wire protocol of the daemon: each reaction is one branch or its source is not in the repository.
- A file whose read returns nothing before its end: the checker would stop there, and the model reads on.
