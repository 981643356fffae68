# Verified models of the virtual HID toolkit

Dafny models of the parts of the repository where correctness is hard to see from one
function, and proofs about every input, every interleaving and every run.

- **Named-pipe transport** (`Reports`, `Frames`, `PipeEnds`, `Channels`, `WireFormat`, `InProcess`,
  `PipeSystem`, `PipeInvariants`, `PipeCalls`, `PipeRuns`, `PipeProgress`, `PipeOrder`,
  `PipeReach`, `PipeCallers`, `PipeOutcomes`, `PipeExamples`).
  Blocking reads and writes are methods on a pipe end. The whole transport is a step system:
  any number of host and device threads put bytes one chunk at a time under `write_mutex`
  into two bounded buffers, two readers reassemble frames from any chunks, `get_feature` is
  the flag, the condition and the device's reader thread, and either direction may die after
  any byte. The in-process transport is a class whose methods follow a function `Perform`;
  the pipe refines it. The device's getter is any function of the calls it has seen.
  `WireFormat` states the bytes opcode by opcode.
- **Report descriptor compiler and capture** (`HidItems`, `HidParser`, `DescriptorBuilder`,
  `DescriptorMeaning`, `DescriptorBytes`, `Capture`, `CaptureMeaning`, `CaptureSources`). The builder appends to an output object;
  its meaning is given by an independent parser written after HID 1.11: sections 6.2.2.2 and
  6.2.2.3 (short and long items), 6.2.2.4 to 6.2.2.6 (main items), 6.2.2.7 (globals persist),
  6.2.2.8 (locals end at a main item) and 5.8 (little-endian, sign). Capability arrays are
  given; grouping, compiling and parsing together preserve them, member by member.
- **Control device queues** (`ControlDevice`, `ControlCodes`). Requests move between the default queue, two
  manual queues, host callbacks and completion, in any interleaving; the callbacks are methods
  of a class and equal steps of that system; `ControlCodes` says what becomes of each code and
  each host report in terms of the events alone.
- **Profile files** (`Profiles`, `HexCodec`, `ProfileJson`, `ProfileKeys`) over an abstract JSON tree, and
  **watching for devices** (`DeviceWatch`) over any clock, snapshots and callback.

`Core` holds fixed-width integers and a few sequence lemmas. `dafny verify dfyconfig.toml`
checks everything.

## Where the code falls short of what one would expect

Each point names a lemma with a concrete input or run, and the lemma with the exact condition.

- `emit` gives -1 and 255 the same byte, so a minimum of 128..255 or 32768..65535 is read back
  negative: `MinimumDistorted`; `RangeExact`, `SemanticRoundTrip`.
- Report id 0 emits nothing, so a report without an id inherits the last one emitted:
  `IdInherited`; `ReportIdsAttributed`. A report without an id before one with an id is read as
  declared but is not allowed by section 6.2.2.7 of HID 1.11: `StrictRoundTrip`.
- The count of a button range is truncated to 16 bits, so the full range gets no bits:
  `FullRangeLost`; `BitsConserved`, `OrderedBitsConserved`.
- `get_feature` carries no request id, so concurrent callers can share one response:
  `TwoCallersShareAnAnswer`; `FreshAnswers` (and `EveryReturnIsAnAnswer` for what always holds).
- Every caller ignores the result of `write_frame`, and nobody notices bytes that are never
  read, so a get whose query or response is lost may wait for ever: `FailedWriteHangsGet`,
  `UnreadQueryHangsGet`, and `FailedWriteHangsNobody` for a loss that does no harm;
  `HangsIffAllLost`, and `HangsIffLost` for one get at a time.
- A right-sized report with a wrong id makes the parse throw out of the reader thread; a
  transport whose peer sends only reports as constructed never sees one: `WrongIdThrows`;
  `ReaderThrowsIffWrongId`, `DeliveredInOrder`.
- Without a getter the pipe answers with the default feature report (line 202), the in-process
  transport with the last one set (line 59): `SetIsNotGotWithoutGetter`; `CompletedRunWithoutGetter`.
- `driver/vhid/Public.h` lines 23-24 say that output readers receive the wire bytes;
  `driver/vhid/Vhf.cpp` lines 92-101 write an op byte before them, and the model follows the
  code: `OutputReportIsPrefixed`; `ReaderSeesItsReport`.
- A profile's format version is written but never read: `AnyVersionLoads`; `UnknownKeysAreIgnored`.

## Model

| member | source | states |
|---|---|---|
| `PipeRuns.RefinesInProcess` | src/mock/src/named_pipe_transport.cpp:174-231 | in every state of every run with one host thread and a getter, the operations the device has seen and the reports its gets have returned are prefixes of what the in-process transport shows and returns for the same program |
| `PipeProgress.CompletedRunEqualsInProcess` | src/mock/src/named_pipe_transport.cpp:174-231 | when such a run can go no further, the two are equal: same operations, same results |
| `PipeRuns.DeliveredWhenGetReturns` | src/mock/src/named_pipe_transport.cpp:282-294 | at the moment a get may return, the device has seen exactly the operations up to and including it, and the stored response is the getter's result on them |
| `PipeRuns.PipeReturnsLastSet` | src/mock/src/named_pipe_transport.cpp:282-294 | with a device that serves what was last set, the response of a get that may return is the last feature set before it in the program |
| `PipeRuns.ReturnsOwnAnswer` | src/mock/src/named_pipe_transport.cpp:282-294 | with never more than one get in progress (any number of host threads), the k-th get returns the answer to the k-th query, computed after that get began |
| `PipeRuns.ExactlyOneToken` | src/mock/src/named_pipe_transport.cpp:198-218 | under the same condition the request of a get is in exactly one place (unsent, in flight, being served, response in flight) while the flag is set, and nowhere otherwise |
| `PipeRuns.TokensCount` | src/mock/src/named_pipe_transport.cpp:198-218 | for any number of callers: outstanding requests are the gets begun minus the responses arrived, and at least one exists while the flag is set |
| `PipeRuns.EveryReturnIsAnAnswer` | src/mock/src/named_pipe_transport.cpp:208-218 | for any number of callers: a get returns the getter's result for some query whose response arrived after the get began |
| `PipeCallers.TwoCallersShareAnAnswer` | src/mock/src/named_pipe_transport.cpp:282-294 | any two threads that call `get_feature`, whatever else they and others do and whatever the buffer size, can be scheduled so that the second returns an answer computed before its call began |
| `PipeCallers.FreshAnswers` | src/mock/src/named_pipe_transport.cpp:282-294 | in every run every get returns an answer computed after it began, if and only if at most one thread's program calls `get_feature` |
| `PipeCallers.OneCallerInRun` | src/mock/src/named_pipe_transport.cpp:282-294 | if at most one program calls `get_feature`, no state of any run has two gets in progress |
| `PipeRuns.DeliveredInOrder` | src/mock/src/named_pipe_transport.cpp:44-90 | for any number of threads, in every reachable state: no reader has thrown, and in each direction the messages handled are a prefix of those sent in `write_mutex` order |
| `PipeProgress.Progress` | src/mock/src/named_pipe_transport.cpp:178-231 | no deadlock among the mutexes, the full buffers and the readers: while both directions live, every reachable state with work left has an enabled step, for any number of outstanding gets |
| `PipeProgress.StepLowersRank` | src/mock/src/named_pipe_transport.cpp:178-231 | every step lowers one natural-number rank |
| `PipeProgress.RunsAreBounded` | src/mock/src/named_pipe_transport.cpp:178-231 | no run is longer than the rank of its start |
| `PipeProgress.Completion` | src/mock/src/named_pipe_transport.cpp:262-308 | a run without a broken direction is bounded, and where it can go no further every call has returned and everything sent has been handled |
| `PipeExamples.FailedWriteHangsGet` | src/mock/src/named_pipe_transport.cpp:282-294 | when a write fails its result is ignored and the get waits for ever: a reachable state with the get outstanding and nothing enabled |
| `PipeExamples.UnreadQueryHangsGet` | src/mock/src/named_pipe_transport.cpp:282-294 | the same when the query's write succeeded and the device's end went away before reading it |
| `PipeOutcomes.HangsIffAllLost` | src/mock/src/named_pipe_transport.cpp:282-294 | for any number of callers and any deaths: in a run that can go no further some call has not returned if and only if as many queries and responses were lost (their `write_frame` returned false, or their bytes were never read) as requests were outstanding right after the last get began |
| `PipeOutcomes.HangsIffLost` | src/mock/src/named_pipe_transport.cpp:282-294 | with one get in progress at a time: some call has not returned if and only if any query or response was lost |
| `PipeOutcomes.NoGetNoHang` | src/mock/src/named_pipe_transport.cpp:262-308 | if no get ever begins, every call returns whatever is lost |
| `PipeOutcomes.CallsReturnUnlessLost` | src/mock/src/named_pipe_transport.cpp:282-294 | if no query or response was lost, every call has returned; device threads always finish |
| `PipeExamples.FailedWriteHangsNobody` | src/mock/src/named_pipe_transport.cpp:282-294 | with two callers a failed write may hang nobody: a reachable state with a lost query in which both have returned |
| `PipeProgress.StuckStates` | src/mock/src/named_pipe_transport.cpp:178-231 | the states in which nothing but a death can happen, whatever has died: both directions idle, nobody before or inside the mutex, and whoever has not finished waits for a response with the flag set |
| `PipeOutcomes.CompletedRunExists` | src/mock/src/named_pipe_transport.cpp:174-231 | every setup has a run that ends without a broken direction, so the results about completed runs are not empty |
| `PipeOutcomes.CompletedRunWithoutGetter` | src/mock/src/named_pipe_transport.cpp:202 | with no getter installed, a completed run with one host thread has returned what the in-process transport returns for the program if and only if every get comes while the last feature set is still the default |
| `PipeExamples.SetIsNotGotWithoutGetter` | src/mock/src/named_pipe_transport.cpp:202 | a set of any other report and then a get, with no getter: the completed run returns the default report, the in-process transport the one set |
| `PipeRuns.SequentialMeaning` | src/mock/src/named_pipe_transport.cpp:174-231 | with or without a getter: what the device has seen is a prefix of the program, what the gets returned a prefix of the answers to it |
| `PipeOrder.ThreadsSeenInOrder` | src/mock/src/named_pipe_transport.cpp:262-308 | for any number of threads: in every state of every run each side has seen a prefix of every thread's program, in order, and all of it once everything is done |
| `PipeOrder.RunInOrder` | src/mock/src/named_pipe_transport.cpp:262-308 | every thread gets the mutex for its operations in program order: those it has finished, and the current one if it has got it |
| `PipeOrder.InputsInOrder` | src/mock/src/named_pipe_transport.cpp:262-270 | with one device thread the host sees a prefix of its input reports, and in the end all of them |
| `PipeRuns.RunInv` | src/mock/src/named_pipe_transport.cpp:174-308 | the system invariant (streams, mutex ownership, direction of messages, history, outstanding calls) holds in every state of every run, also when directions die |
| `PipeRuns.StepInv` | src/mock/src/named_pipe_transport.cpp:174-308 | every step of any thread or reader keeps that invariant |
| `PipeInvariants.KeepChannels` | src/mock/src/named_pipe_transport.cpp:44-90 | every step of the system keeps the stream invariant of both directions |
| `PipeInvariants.KeepRecords` | src/mock/src/named_pipe_transport.cpp:74-80 | every step keeps: `write_frame` returned true for a message exactly when all of its frame was placed |
| `PipeInvariants.KeepOwners` | src/mock/src/named_pipe_transport.cpp:262-308 | every step keeps the mutexes exclusive: a thread is writing exactly when it owns its direction's mutex |
| `PipeInvariants.KeepHistory` | src/mock/src/named_pipe_transport.cpp:181-231 | every step keeps the log, the answers given, the responses and the inputs seen equal to what the handled messages say |
| `PipeCalls.ResponsesInOrder` | src/mock/src/named_pipe_transport.cpp:198-218 | responses arrive in the order in which queries were answered, and no query is answered before it was sent |
| `PipeCalls.KeepCalls` | src/mock/src/named_pipe_transport.cpp:282-294 | every step keeps: gets begun = unsent + queries sent = returned + in progress; a set flag means a response is due; a waiting call is covered by the flag or by a response newer than itself |
| `PipeCalls.KeepMatched` | src/mock/src/named_pipe_transport.cpp:282-294 | with at most one get in progress every step keeps the k-th return paired with the k-th response |
| `Channels.StreamIntegrity` | src/mock/src/named_pipe_transport.cpp:44-90 | the bytes ever placed on a direction are the frames of all finished writers in mutex order followed by a prefix of the current holder's frame; once it is dead, a prefix of the writers' frames |
| `Channels.DispatchDelivers` | src/mock/src/named_pipe_transport.cpp:178-231 | whatever the chunks, the reader's next frame is always the next message in mutex order, parsed to exactly what was sent |
| `Channels.InvPut` | src/mock/src/named_pipe_transport.cpp:74-80 | placing any non-empty part of a frame keeps the stream invariant |
| `Channels.InvTake` | src/mock/src/named_pipe_transport.cpp:56-90 | reading any non-empty chunk keeps it: a read never runs into the following frame |
| `Channels.InvUnlock` | src/mock/src/named_pipe_transport.cpp:262-270 | releasing the mutex keeps it, also after a failed write |
| `Channels.QuietMeansDelivered` | src/mock/src/named_pipe_transport.cpp:178-231 | a living direction with nothing left to write, read or handle has delivered everything |
| `Channels.RestDelivers` | src/mock/src/named_pipe_transport.cpp:178-179 | a direction at rest, dead or not, has delivered exactly the messages whose every byte was placed and survived for the reader |
| `Channels.RestDeliversWritten` | src/mock/src/named_pipe_transport.cpp:74-80 | at rest, exactly the messages have been delivered for which `write_frame` returned true and whose bytes were not lost unread |
| `Channels.StepsAreReaderLoop` | src/mock/src/named_pipe_transport.cpp:178-231 | the reader of the step system has, between two frames, handled exactly what the reader loop handles from the bytes read so far |
| `PipeEnds.PipeEnd.ReadAll` | src/mock/src/named_pipe_transport.cpp:56-72 | terminates and returns true exactly when the stream holds enough bytes, with the next bytes of the stream, whatever the chunks |
| `PipeEnds.PipeEnd.ReadFrame` | src/mock/src/named_pipe_transport.cpp:82-90 | returns the first frame of the stream, or fails exactly when the stream does not hold a whole one |
| `PipeEnds.PipeEnd.ReaderLoop` | src/mock/src/named_pipe_transport.cpp:175-232 | for every chunking the loop handles the same messages, and ends the same way, as a function of the byte stream (which message each opcode is: `WireFormat.ReadByOpcode`) |
| `PipeEnds.PipeEnd.WriteAll` | src/mock/src/named_pipe_transport.cpp:44-54 | places all the data, or a proper prefix and reports failure |
| `PipeEnds.PipeEnd.WriteFrame` | src/mock/src/named_pipe_transport.cpp:74-80 | places the whole frame, or a proper prefix of it after which the direction is dead (the bytes of the frame: `WireFormat.WrittenBytes`) |
| `PipeEnds.CutAnywhere` | src/mock/src/named_pipe_transport.cpp:178-179 | if a stream of frames ends after any number of bytes, exactly the messages whose every byte arrived are handled, and no parse throws |
| `PipeEnds.WholeIsExact` | src/mock/src/named_pipe_transport.cpp:178-179 | that number of messages is the largest whose frames fit in the bytes that arrived |
| `PipeEnds.ReaderThrowsIffWrongId` | src/mock/src/named_pipe_transport.cpp:175-232 | for every byte stream, from whatever peer: an exception ends the reader thread if and only if some whole frame holds a report of the right size with another id, and the frames before the first such one are handled |
| `PipeEnds.WrongIdThrows` | src/mock/src/named_pipe_transport.cpp:182-188 | a concrete such frame |
| `WireFormat.WrittenBytes` | src/mock/src/named_pipe_transport.cpp:19-80 | the exact bytes of each message: 01 17 0 and an input report, 02 17 0 and an output report, 03 0 0 for a query, 04 9 0 and a feature report for a response, 05 9 0 and one for a set |
| `WireFormat.ReadByOpcode` | src/mock/src/named_pipe_transport.cpp:178-231 | for a frame with any opcode and payload, whatever follows: an unknown opcode or a wrong size is skipped, a wrong id ends the thread, anything else is the message of its opcode, and reading goes on behind it |
| `WireFormat.MessageByMessage` | src/mock/src/named_pipe_transport.cpp:178-231 | those exact bytes are read back as the message they stand for, whatever follows |
| `WireFormat.CallsOnTheWire` | src/mock/src/named_pipe_transport.cpp:262-308 | what each call, and the device's reader with an answer, is about to write once it has the mutex, byte for byte |
| `WireFormat.DeviceHandles` | src/mock/src/named_pipe_transport.cpp:191-230 | what the device's reader thread does with a frame of each opcode: output and sets go to their handlers, a query is answered, others change nothing |
| `WireFormat.HostHandles` | src/mock/src/named_pipe_transport.cpp:182-218 | what the host's reader thread does: an input goes to its handler, a response is stored and clears the flag, others change nothing |
| `Frames.EncodedIsComplete` | src/mock/src/named_pipe_transport.cpp:74-90 | an encoded message is a complete frame and is understood as that message |
| `Frames.MissingWithin` | src/mock/src/named_pipe_transport.cpp:82-90 | with any part of a frame read, the reader waits for no more than the rest of it, and for nothing exactly when it has it all |
| `Reports.Report.constructor` | src/core/include/vhid/reports.hpp:21-23 | the wire starts as the report id and a zero payload |
| `Reports.Report.SetPayload` | src/core/include/vhid/reports.hpp:28-34 | keeps the id, copies the payload and pads with zeros; refuses a payload that is too large and then changes nothing |
| `Reports.ParseAcceptsReports` | src/core/src/reports.cpp:7-18 | parsing accepts exactly the buffers of the right size and id and returns them unchanged, so it accepts all that the constructor and `set_payload` make |
| `InProcess.InProcessTransport.SubmitInput` | src/mock/src/in_process_transport.cpp:34-42 | only an open transport passes input on |
| `InProcess.InProcessTransport.SendOutput` | src/mock/src/in_process_transport.cpp:44-52 | one call more for the output handler when the transport is open and has one, nothing else changes |
| `InProcess.InProcessTransport.GetFeature` | src/mock/src/in_process_transport.cpp:54-62 | the getter's result, or the feature set last when there is none; open or not |
| `InProcess.InProcessTransport.SetFeature` | src/mock/src/in_process_transport.cpp:64-72 | stores the feature, then passes it on if there is a handler; open or not; nothing else changes |
| `InProcess.AnyRun` | src/mock/src/in_process_transport.cpp:44-72 | for every sequence of operations, open or closed and with any handlers: output reaches its handler only when open, sets and gets always do, every set is stored, and each get returns what the getter answers to the calls it has seen, or the stored feature |
| `InProcess.WiredRun` | src/mock/src/in_process_transport.cpp:34-72 | an open transport with its handlers installed shows its device the operations in order and returns what the getter then answers |
| `InProcess.UngetteredRun` | src/mock/src/in_process_transport.cpp:54-72 | without a getter, gets return the feature set last |
| `InProcess.GetReturnsLastSet` | src/mock/src/in_process_transport.cpp:54-72 | after a set and any number of other operations, the feature set last is that one |
| `DescriptorMeaning.SemanticRoundTrip` | src/capture/src/descriptor_builder.cpp:87-131 | parsing the built descriptor gives exactly what the profile declares (kind, report id, usages, extents, size, count, flags, in order) if and only if every extent is encodable and no non-empty report without an id follows a non-empty one with an id |
| `DescriptorMeaning.DescriptorParses` | src/capture/src/descriptor_builder.cpp:117-131 | for every profile the descriptor is well-formed and a parser reads exactly the fields of its non-empty reports, in order, in one application collection |
| `DescriptorMeaning.ReportIdsAttributed` | src/capture/src/descriptor_builder.cpp:89-92 | the report ids alone are read as declared if and only if no non-empty report without an id follows a non-empty one with an id |
| `DescriptorMeaning.StrictRoundTrip` | src/capture/src/descriptor_builder.cpp:87-131 | the descriptor gives exactly what the profile declares, and every or no field has a report id (section 6.2.2.7 of HID 1.11), if and only if the profile is faithful and all or none of its non-empty reports have an id |
| `DescriptorMeaning.IdInherited` | src/capture/src/descriptor_builder.cpp:89-92 | the parsed descriptor of a profile with input report 5 and then an output report without an id gives both fields id 5 |
| `DescriptorMeaning.RangeExact` | src/capture/src/descriptor_builder.cpp:101-102 | an extent is read back exactly if and only if the minimum is outside 128..255 and 32768..65535 and the maximum is non-negative (minimum non-negative) or outside those bands (minimum negative) |
| `DescriptorMeaning.MinimumDistorted` | src/capture/src/descriptor_builder.cpp:55-59 | the parsed descriptor of a profile with one field of logical minimum 200 gives that field -56 |
| `DescriptorMeaning.FieldParses` | src/capture/src/descriptor_builder.cpp:93-112 | from any parser state between main items, a field's items add exactly one field; nothing of the earlier state but report id and open collections shows in it |
| `DescriptorMeaning.NoStateLeak` | src/capture/src/descriptor_builder.cpp:93-112 | the fields that two different parser states read from the same items differ in report id and open collections only |
| `DescriptorMeaning.WellNested` | src/capture/src/descriptor_builder.cpp:121-129 | after any number of items nothing has failed, and exactly the application collection is open strictly between its opening item and End Collection |
| `DescriptorMeaning.DescriptorSize` | src/capture/src/descriptor_builder.cpp:87-131 | with R non-empty reports and F fields the length is between 7 + 14F and 9 + 2R + 27F bytes |
| `DescriptorBytes.DescriptorIs` | src/capture/src/descriptor_builder.cpp:48-131 | the exact bytes of every built descriptor, for every profile, written out with literal prefixes: page and usage (0xFF00 and 1 for 0), collection, the reports of each kind with id, page, usages, extents, size, count and flags, end |
| `DescriptorBytes.TopCollection` | src/capture/src/descriptor_builder.cpp:121-123 | the first three items open one application collection with the profile's usage page and usage (0xFF00 and 1 for 0), and every parsed field is in it |
| `DescriptorBytes.OwnDescriptorParses` | src/core/src/report_descriptor.cpp:27-60 | a check of the parser: it reads the toolkit's own descriptor as three reports with the ids and sizes of the wire buffers |
| `HidItems.SignedRoundTrip` | src/capture/src/descriptor_builder.cpp:48-81 | a sign-extending reader gets an emitted value back if and only if it fits in 32 bits and lies outside 128..255 and 32768..65535 |
| `HidItems.UnsignedRoundTrip` | src/capture/src/descriptor_builder.cpp:48-81 | an unsigned reader gets an emitted value back if and only if it is a non-negative 32-bit value |
| `HidItems.SharedBytes` | src/capture/src/descriptor_builder.cpp:48-81 | two values are emitted as the same bytes if and only if they have the same width and agree modulo 256 to that width |
| `HidItems.UniqueDecodability` | src/capture/src/descriptor_builder.cpp:75-80 | whatever bytes follow, emitted items are read back one for one and reading goes on at the first byte after them |
| `HidItems.ReadEmitted` | src/capture/src/descriptor_builder.cpp:75-80 | an emitted item is read back with its type, tag and payload |
| `HidItems.ItemWriter.Emit` | src/capture/src/descriptor_builder.cpp:48-81 | appends exactly one item to the output |
| `DescriptorBuilder.EmitField` | src/capture/src/descriptor_builder.cpp:93-112 | appends the items of one field |
| `DescriptorBuilder.EmitReportSection` | src/capture/src/descriptor_builder.cpp:87-113 | appends nothing for an empty report, else its id (unless 0) and its fields |
| `DescriptorBuilder.BuildReportDescriptor` | src/capture/src/descriptor_builder.cpp:117-131 | the bytes are the emission of the item list that the theorems above are about; `DescriptorBytes.DescriptorIs` spells them out |
| `CaptureMeaning.PipelinePreservesMeaning` | src/capture/src/device_inspector.cpp:173-178 | for every kind and report id a parser reads exactly the capabilities captured for them, buttons before values, in original order, if and only if every captured extent is encodable and id 0 is not first used after another id |
| `CaptureMeaning.CapturedFaithful` | src/capture/src/device_inspector.cpp:47-115 | that condition, on the capability arrays alone, is equivalent to the compiler's condition on the captured profile, and so is its part about ids |
| `CaptureMeaning.CollectGroups` | src/capture/src/device_inspector.cpp:47-115 | grouping loses, duplicates and moves nothing: one non-empty report per id, ids by first appearance, fields in original order |
| `CaptureMeaning.BitsConserved` | src/capture/src/device_inspector.cpp:56-115 | with id 0 not first used after another id: the bits of a parsed report are those its capabilities declare, plus 65536 for every button range that ends more than one usage before it begins, minus 65536 for every range 0..0xFFFF; extents play no part |
| `CaptureMeaning.OrderedBitsConserved` | src/capture/src/device_inspector.cpp:56-115 | with button ranges in order no bits appear, and none are lost if and only if no range is 0..0xFFFF |
| `CaptureMeaning.FullRangeLost` | src/capture/src/device_inspector.cpp:70-73 | the button range 0..0xFFFF: 65536 bits declared, none in the parsed descriptor |
| `CaptureMeaning.ParsedBitsAreCaptured` | src/capture/src/device_inspector.cpp:173-178 | the bits of a parsed report are those of the captured fields with its id |
| `CaptureMeaning.CapturedFields` | src/capture/src/device_inspector.cpp:137-190 | the reports of the captured profile with an id hold the fields captured for it, for each kind |
| `CaptureSources.PipelineFromRaw` | src/capture/src/device_inspector.cpp:47-190 | for every kind and report id the parsed fields are those of the raw button capabilities with that id and then of the raw value capabilities, in array order and member by member (page, usages, extents, size, count, flags, collection), if and only if no value extent falls into a misread band and, in every kind, capabilities without an id come first and after no kind with ids |
| `CaptureSources.ProfileFromRaw` | src/capture/src/device_inspector.cpp:64-113 | the same of the fields in the captured profile, for all capabilities and with what a descriptor does not carry: physical extents, units, and whether it is a button |
| `CaptureSources.ReadsWhatWasReturned` | src/capture/src/device_inspector.cpp:58-62 | a call that fails gives no capabilities, one that succeeds exactly those it returned |
| `Capture.ReportTable.FindOrAdd` | src/capture/src/device_inspector.cpp:47-54 | the first report with the id, or a new empty one at the end |
| `Capture.ReportTable.CollectButtons` | src/capture/src/device_inspector.cpp:56-83 | inserts every button capability in order; nothing when none is announced or the call fails |
| `Capture.ReportTable.CollectValues` | src/capture/src/device_inspector.cpp:85-115 | inserts every value capability in order; nothing when none is announced or the call fails (what is inserted for each: `CaptureSources.ProfileFromRaw`) |
| `Capture.ReportTable.SetByteLengths` | src/capture/src/device_inspector.cpp:180-182 | every report of a kind gets the kind's length, nothing else changes |
| `Capture.InspectDevice` | src/capture/src/device_inspector.cpp:137-190 | collects the three kinds; every report has the byte length of its kind, usage page and usage are the device's, the identity is kept, and the descriptor is the raw one if the device gives it, else the one built for this profile |
| `ControlDevice.ExactlyOncePlace` | driver/vhid/Vhf.cpp:75-103 | in every run a request is in exactly one place (being dispatched, in one of the two queues, held by a callback, completed), and completed at most once |
| `ControlDevice.IdsCompletedOnce` | driver/vhid/Vhf.cpp:75-103 | in no run is a request id completed twice |
| `ControlDevice.CompletionsAreFinal` | driver/vhid/Vhf.cpp:75-103 | no step takes a completion back or changes it |
| `ControlDevice.ReadersSeeReportsInOrder` | driver/vhid/Vhf.cpp:75-110 | in every run readers are taken in the order they were parked, for host reports in the order these arrived |
| `ControlDevice.ReaderSeesItsReport` | driver/vhid/Vhf.cpp:84-102 | in every run a completed reader is the one parked at its place, paired with one host report; it got the queue's op byte and exactly that report, and success, if and only if its buffer can be retrieved and is large enough, else no data and the retrieval's status or STATUS_BUFFER_TOO_SMALL |
| `ControlDevice.OutputReportIsPrefixed` | driver/vhid/Vhf.cpp:92-101 | a run in which an output reader is completed with op byte 0 in front of the wire bytes |
| `ControlDevice.ReportsAreConserved` | driver/vhid/Vhf.cpp:75-103 | in every run the host reports are as many as the readers completed with success, the readers completed without, the reports that met no reader, and those being handled; the readers still waiting are the last ones parked |
| `ControlDevice.DroppedIffNobodyWaits` | driver/vhid/Vhf.cpp:76-82 | a host report meets no reader if and only if the queue is empty as it arrives |
| `ControlDevice.StepInv` | driver/vhid/Vhf.cpp:75-182 | every step keeps ownership, queue order, pairing and conservation |
| `ControlDevice.PlacesStep` | driver/vhid/Vhf.cpp:75-182 | a step creates no request and loses none, except that presenting adds the new one |
| `ControlDevice.KeepFifo` | driver/vhid/Vhf.cpp:75-82 | every step keeps the pairing of the earliest parked readers with increasing report numbers |
| `ControlDevice.DispatchByCode` | driver/vhid/Vhf.cpp:147-182 | one dispatch, code by code: a reader of output reports joins the output queue only, a reader of feature requests the feature queue only; a failed forward, a submitted report, a completed get and an unknown code are completed at once, each with its status |
| `ControlDevice.HandledTakesFirst` | driver/vhid/Vhf.cpp:75-103 | one host report takes the first reader of its own queue and completes it with op 0 or 1, or changes nothing but the history; the other queue is untouched |
| `ControlCodes.ParkedByCode` | driver/vhid/Vhf.cpp:160-169 | in every run each queue has been joined by exactly the requests presented with its code and forwarded with success, in that order |
| `ControlCodes.ReportsArrive` | driver/vhid/Vhf.cpp:105-132 | in every run each queue has got exactly the host reports sent to it, in order |
| `ControlCodes.ReadersGetWhatTheyAskedFor` | driver/vhid/Vhf.cpp:75-169 | in every run, in terms of the events alone: a reader completed with an output report had been presented with the code for output reports, likewise for features; the report is one the host sent there, behind op byte 0 or 1; otherwise there is no data and the status says why |
| `ControlCodes.AnsweredByCode` | driver/vhid/Vhf.cpp:147-182 | in every run a request completed at once was the one presented last before its dispatch, and has the status of its code |
| `ControlDevice.Driver.IoDeviceControl` | driver/vhid/Vhf.cpp:138-183 | a request joins the queue of its code and no other, or is completed at once with the status of its case; nothing else changes |
| `ControlDevice.Driver.PendOrComplete` | driver/vhid/Vhf.cpp:75-103 | one host report: dropped with success when nobody waits, else the first reader is taken and completed with it or with the error |
| `ControlDevice.Driver.FillBuffer` | driver/vhid/Vhf.cpp:98-100 | the buffer holds the op byte, the report, and what was there after them |
| `ControlDevice.Driver.WriteReport` | driver/vhid/Vhf.cpp:105-110 | uses the output queue and op 0; the host sees success whatever happens |
| `ControlDevice.Driver.SetFeature` | driver/vhid/Vhf.cpp:127-132 | uses the feature queue and op 1; the host sees success whatever happens |
| `ProfileJson.ProfileRoundTrip` | src/capture/src/device_profile.cpp:110-159 | for every profile, loading the saved tree gives an equal profile, nested reports, fields and descriptor bytes included |
| `ProfileJson.ReportRoundTrip` | src/capture/src/device_profile.cpp:74-92 | the same for a report with all its fields |
| `ProfileJson.FieldRoundTrip` | src/capture/src/device_profile.cpp:36-72 | the same for a field |
| `ProfileJson.NarrowingIsExactInRange` | src/capture/src/device_profile.cpp:55-72 | a number is narrowed to an 8, 16 or 32-bit type unchanged if and only if it fits that type |
| `ProfileJson.UnknownKeysAreIgnored` | src/capture/src/device_profile.cpp:143-158 | a member under any other key changes nothing; the format version is such a member, so no version is refused |
| `ProfileJson.AnyVersionLoads` | src/capture/src/device_profile.cpp:112 | a saved profile loads the same whatever version number is put into it |
| `ProfileJson.ProfileLoads` | src/capture/src/device_profile.cpp:132-159 | a tree loads without an exception if and only if it is an object whose known members have the right types (nothing need be present) and whose report arrays hold readable reports |
| `ProfileJson.ReportLoads` | src/capture/src/device_profile.cpp:84-92 | the same for a report; a `fields` member that is not an array is no fields |
| `ProfileJson.FieldLoads` | src/capture/src/device_profile.cpp:55-72 | the same for a field; numbers may be truth values, flags must be |
| `ProfileJson.ListReadsWhenItemsDo` | src/capture/src/device_profile.cpp:89-106 | a list is read if and only if each item is, and then item by item in order |
| `ProfileJson.FirstErrorStays` | src/capture/src/device_profile.cpp:89-106 | the first item that throws decides the outcome of reading a list |
| `ProfileKeys.FieldByKeys` | src/capture/src/device_profile.cpp:55-72 | what a tree is read as, key by key: numbers are narrowed, a missing one is 0, a missing flag is false except that a field is absolute; any failure is a wrong type, or no object |
| `ProfileKeys.ReportByKeys` | src/capture/src/device_profile.cpp:84-92 | the same for a report, with its fields in order; its own members are looked at before the first bad field |
| `ProfileKeys.ProfileByKeys` | src/capture/src/device_profile.cpp:132-159 | the same for a profile; plain members are looked at before the first bad input, output or feature report |
| `ProfileKeys.FieldWritten` | src/capture/src/device_profile.cpp:36-53 | a saved field has exactly these fourteen members, each under its own key |
| `ProfileKeys.ReportWritten` | src/capture/src/device_profile.cpp:74-82 | a saved report has exactly its three members |
| `ProfileKeys.ProfileWritten` | src/capture/src/device_profile.cpp:110-124 | a saved profile has exactly these thirteen members, with version 1 |
| `ProfileKeys.FirstBadItem` | src/capture/src/device_profile.cpp:89-106 | when a list is not read, some item is the first that throws, and its exception is the list's |
| `ProfileJson.WriteReport` | src/capture/src/device_profile.cpp:74-82 | the loop writes the tree the round trip is about |
| `ProfileJson.WriteReports` | src/capture/src/device_profile.cpp:94-98 | likewise for a list of reports |
| `ProfileJson.ReadReport` | src/capture/src/device_profile.cpp:84-92 | reads it back, or throws what the first bad member throws |
| `ProfileJson.ReadReports` | src/capture/src/device_profile.cpp:100-106 | likewise; anything but an array is no reports |
| `ProfileJson.Save` | src/capture/src/device_profile.cpp:110-124 | fills the tree the round trip is about |
| `ProfileJson.Load` | src/capture/src/device_profile.cpp:132-159 | nothing when the file does not open or parse; else the profile, or the exception of the first bad member |
| `HexCodec.HexRoundTrip` | src/capture/src/device_profile.cpp:15-34 | decoding inverts encoding on every byte string |
| `HexCodec.ReencodingLowers` | src/capture/src/device_profile.cpp:15-34 | encoding what was decoded lower-cases the text if and only if it was of even length and all hexadecimal digits |
| `HexCodec.DecodedPairs` | src/capture/src/device_profile.cpp:24-34 | every byte of any decoded text is what stream extraction (white space, sign, digits) makes of the pair at its place, truncated |
| `HexCodec.BytesToHex` | src/capture/src/device_profile.cpp:15-22 | two lower-case digits a byte, in order |
| `HexCodec.HexToBytes` | src/capture/src/device_profile.cpp:24-34 | one byte a pair, as stream extraction reads it; an odd last character is ignored |
| `DeviceWatch.WatchForNewDevice` | src/capture/src/device_enumerator.cpp:99-120 | the offers are a prefix of the new devices in order of first appearance; true exactly when the last offer, and no other, was accepted; on false all of them were offered; polls begin before the deadline only and there are at most two a second |
| `DeviceWatch.OffersAreOnceOnly` | src/capture/src/device_enumerator.cpp:109-118 | the new devices in that order hold no baseline path, no path twice, and leave out no listed path |
| `DeviceWatch.FirstPlacesAreAllFreshInOrder` | src/capture/src/device_enumerator.cpp:112-117 | they stand exactly where a path that is not in the baseline appears for the first time, in increasing order |
| `DeviceWatch.OffersGrow` | src/capture/src/device_enumerator.cpp:109-118 | listing more devices later only appends to them |

## Left out

- Windows itself (`CreateNamedPipeW`, overlapped I/O, SetupDi, HidD and HidP, WDF and VHF): abstract buffers, queues, capability arrays, clocks and status values stand for it. A pipe is a reliable byte FIFO until a direction dies; at that moment any suffix of what is not yet read is lost, and what survives can still be read.
- A failed write is taken to mean that its direction is dead from then on, as a broken pipe is; a direction that recovers after half a frame is not modelled.
- `close`, its race with the reader over the handle, and waking of waiters by it: the code as written does not decide the handle race.
- A query answered by the host's reader, and host calls made on a device end or the reverse: each end of the model makes the calls of its own role.
- Callbacks that are missing, replaced while the transport runs, that block, throw, or call back into the pipe: all but the getter are installed before `open` and return.
- In the step system a chunk may span the header and the payload of one frame, which `write_frame` writes separately: a superset of the real interleavings.
- PipeProgress.Completion: says that a run with nothing left to do is done and that runs are bounded; that the scheduler keeps taking enabled steps is an assumption about the operating system.
- PipeSystem: the transport's mutex-protected fields and its threads are a state and steps on values, not a class; the blocking calls the steps stand for are methods of `PipeEnds.PipeEnd`.
- DescriptorMeaning.SemanticRoundTrip: `is_button`, physical range, unit and `byte_length` are not in a descriptor and so not compared; top-level usage page 0 and usage 0 are read as the 0xFF00 and 1 that are written for them.
- HidParser: physical range, unit, string and designator items do not reach a field, and usages are kept as written (no 32-bit extended usages, which the builder never emits).
- DescriptorBuilder.BuildReportDescriptor: the output vector is a sequence held by an object; reserving capacity is not modelled.
- Capture.InspectDevice: opening the device, reading attributes and strings and a failing `HidP_GetCaps` (an identity with no reports) are left to the caller's `identity` and `caps`; string conversion is not modelled.
- Capture.ReportTable.FindOrAdd: returns an index where the code returns a reference into the vector.
- ControlDevice: cancellation, timeouts and several device instances (marked as open in the driver), the Get-Input and Get-Feature stubs, and creation and start-up of the device and its queues. A report of 2^32 - 1 bytes, for which the size sum would wrap, does not occur.
- ControlDevice.Driver.PendOrComplete: as a method it runs without interruption; interleavings of callbacks are covered by the events `Report` and `Finish` of the step system.
- ProfileJson: the JSON text printer and parser, and with them floating-point numbers and invalid UTF-8; numbers are integers of any size. Whether the file could be written is not modelled.
- HexCodec.DecodedPairs: stream extraction is that of the classic locale, for texts too short to overflow.
- DeviceWatch.WatchForNewDevice: the steady clock is assumed to advance by at least the 500 ms slept; the enumeration itself is an input. Without that assumption the loop need not end.
- The driver transport, the `Device` facade, the driver's copy of the descriptor, the command-line tools, the user interface, scripts, installer and signing: the first two forward each call in one line, the copy is a constant, and the rest starts, shows and packages what is modelled here.
