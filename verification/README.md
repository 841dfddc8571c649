# PixEvents verification

PixEvents records annotation events (begin, end, marker) into fixed blocks of
2048 qwords, one block per thread at a time, hands full blocks to a background
writer, and later decodes them again. This project models the event format, its
writers and its decoder, the background writer's protocol, and the per-thread
and whole-process capture state, and proves

* that decoding a block gives back exactly the events that were recorded in it:
  type, context, colour, full 64-bit time, format string and arguments;
* what becomes of the last event of a block when it was cut, and that decoding,
  which repairs cut strings in place, is repeatable;
* that the background writer loses no block and writes none twice in any
  interleaving, that what it was given gets written by its own steps and its
  joins finish within one more batch, whatever is added meanwhile, and that it
  is a queue whose `Stop` is a barrier unless a block is
  added in the gap between its join and its drain;
* that over every run of recording, enabling, disabling, flushing and thread
  exits each recording call records exactly if capture is enabled and there is
  room or a new block, each block is in exactly one place and each event in
  exactly one block;
* and, putting these together, that decoding the written blocks of a flushed
  capture gives exactly what each thread recorded.

## How it is laid out

| part | files |
|---|---|
| qwords, bytes, characters | `Qwords`, `Memory`, `Wrappers` |
| header and string-header bits, times | `EventFormat`, `Timestamps` |
| writers | `EventStrings`, `StringCopy`, `EventWriter`, `BlockLayout`, `LegacyWriter` |
| decoder | `StringReading`, `EventReading`, `FormatGrammar`, `BlockParser`, `WalkEdges`, `PixEventDecoder`, `TimingEntries` |
| round trips | `StringRoundTrip`, `ArgumentRoundTrip`, `EventRoundTrip`, `BlockRoundTrip`, `ReportedNames`, `CutRoundTrip`, `CutEvents`, `BlockTail`, `CutBlock`, `NullArguments`, `MistypedArguments`, `LegacyRoundTrip`, `LegacyBlock`, `EntryCount`, `SampleBlock` |
| background writer | `WorkerProtocol`, `WorkerOrder`, `WorkerProgress`, `ThreadedWorker` |
| capture | `CaptureState`, `CaptureInvariants`, `CaptureConservation`, `CaptureHistory`, `CaptureRuns`, `CaptureEffects`, `ThreadData`, `EtwWriter`, `WorkerSimulation`, `WrittenBlocks` |

Code that works in place is a method over an array or an object, proved equal to
a function of the old contents (`ReadString`, `ProcessEvents`, the copy loops,
`WriteEvent`, the encoders, `ThreadData`, `Threads`, `EtwWriter`, the worker's lock
sections); the properties are lemmas about those functions. A masked and shifted
bit field is a quotient and remainder by powers of two, except for the zero-byte
test of the fast ANSI copy, which is on 64-bit words.

`BlockParser.Walk` is a list of callbacks and the memory left behind;
`BlockLayout.Layout` is the content of a block as a function of its events;
`BlockRoundTrip.ExpectedEvent` is what should be reported for an event. A name is
reported as format string and argument list; formatting is not interpreted.

## What has to be assumed, and where the code does less than it seems

The hypotheses below are `requires` clauses of the main lemmas. Where a
hypothesis is needed, a lemma says exactly what happens without it.

* Less than 2^44 ticks pass between consecutive events of a block:
  `Timestamps.RestoreAllExact`.
* No string reads as the end marker. Only the qword with the terminator can do
  so, and then the string is not read back: `StringRoundTrip.StringExact` for
  format strings, `StringRoundTrip.ArgumentExact` for string arguments.
* String arguments that the format string asks for are not null. The writer
  stores one zero qword for a null string and the decoder consumes none: the
  strings behind it read as empty up to the first number, and the numbers are
  read from the zero qword on: `NullArguments.NullShifts`, `NullArguments.NullExact`.
* Arguments have the kinds that the format string asks for. A number read as a
  string can make the decoder "repair" the low byte of the next event's header:
  `MistypedArguments.ClearsNextHeader`.
* A format string asks for at most sixteen slots; a seventeenth, which needs a
  `*s` in the last one, is dropped: `ReportedNames.ArgumentsKept`. The source
  stores it one element behind its array; the model drops that store.
* Events of unknown length (legacy ones, and those of 127 qwords or more) are
  followed by a search for the next header. It is exact if and only if the next
  header shares the high 20 bits of its predecessor's time, provided no qword
  of the arguments passes for a header: `BlockRoundTrip.ResumeExact`,
  `Timestamps.ValidHeaderExact`. The comment at decoder/lib/BlockParser.cpp:309
  takes it for granted that a colour qword precedes the format string; without
  a colour and a context the search starts one qword late, but it follows a peek
  that makes up for it.
* An event of more than 127 qwords is taken for one without arguments when they
  begin exactly at the 127th qword: `ReportedNames.NameExact`.
* Of a cut event the arguments are reported as far as they were stored if and
  only if no number is asked for beyond them; such a number would read a string
  header left dangling by the cut, or, in an event of 127 qwords or more, the
  end marker and the qword behind it: `CutRoundTrip.CutExpectedExact`.
* What the decoder does behind a cut event of 127 qwords or more is part of the
  result (`CutBlock.AfterLast`); `CutBlock.CutBlockFinished` says when it does
  nothing there. Decoding again gives the same in any case when the format
  string was cut, and when the arguments were cut if none of their stored qwords
  but the last passes for a header.
* The clock does not go backwards and does not read zero; with zero a new block
  stays empty: `CaptureRuns.OpenedBlockExact`.
* `Stop` has written everything that was added when it returns, in order, unless
  an `Add` comes in the gap between its join and its drain; an `Add` there lets
  it return before an earlier block is written if and only if the join left a
  block pending: `WorkerOrder.StopIsBarrier`, `WorkerOrder.GapExact`.

## Model

| member | source | states |
|---|---|---|
| EventFormat.HeaderRoundTrip | decoder/lib/PIXEventsFormat.h:91-161 | every header of the current format decodes to its own size, type, metadata and low 44 time bits, and none is the end marker |
| EventFormat.LegacyHeaderRoundTrip | decoder/lib/PIXEventsFormat.h:91-161 | every legacy header decodes to its current type; the context flag is set exactly for the on-context opcodes, the colour flag exactly for begin and marker |
| EventFormat.IndexColorRoundTrip | decoder/lib/PIXEventsFormat.h:194-198 | an index colour survives modulo 8 under any flags and never looks like the full-colour flag |
| EventFormat.StringInfoRoundTrip | decoder/lib/PIXEventsFormat.h:200-213 | a string header gives back chunk size and character type, with alignment 0, and is neither zero nor the end marker |
| Timestamps.AdvanceExact | decoder/lib/BlockParser.cpp:198-212 | the carry step restores a later time if and only if less than 2^44 ticks went by |
| Timestamps.RestoreAllExact | decoder/lib/BlockParser.cpp:198-212 | all times of a non-decreasing sequence are restored, across any number of carries, if and only if all gaps are below 2^44 |
| Timestamps.ValidHeaderExact | decoder/lib/BlockParser.cpp:102-145 | a true next header passes the validity test if and only if there is no carry into the high time bits |
| Timestamps.ValidExact | decoder/lib/BlockParser.cpp:102-145 | which qwords pass the validity test at all, bit by bit: a known type of either format, no reserved bit of a legacy header, a time between the previous one and the block's end |
| Timestamps.KnownExact | decoder/lib/BlockParser.cpp:89-100 | the type numbers of either format that are known |
| Qwords.ZeroByteMaskExact | include/PIXEventsCommon.h:352-371 | the word-at-a-time mask is non-zero if and only if some byte of the qword is zero |
| StringCopy.TerminatedExact | include/PIXEventsCommon.h:352-371 | the fast copies' end test holds for the chunk with the terminator and for no earlier one, ANSI and wide |
| StringCopy.PackChars | include/PIXEventsCommon.h:272-335 | a round of the slow copy packs the characters up to the terminator and zeros after it, and reports the terminator exactly in the last chunk |
| StringCopy.CopyEventStringArgumentSlow | include/PIXEventsCommon.h:272-335 | stores the string's chunks up to the limit, advances by the smaller of room and chunk count, changes nothing else |
| StringCopy.CopyEventStringArgumentFast | include/PIXEventsCommon.h:352-371 | stores the qwords at the string's address up to the one with the terminator or the limit, changes nothing else |
| StringCopy.FastRefinesSlow | include/PIXEventsCommon.h:483-500 | both copies take the same number of qwords and agree on every byte up to and including the terminator |
| StringCopy.CopiedTail | include/PIXEventsCommon.h:374-398 | what lies behind the terminator reaches the block exactly if qwords are copied from an address that is a multiple of eight |
| EventWriter.CopyEventArguments | include/PIXEventsCommon.h:374-419 | the arguments' qwords follow each other, cut at the limit, nothing else is changed |
| EventWriter.WriteEvent | include/PIXEvents.h:121-151 | one recording call leaves the block's earlier content, the event cut to the room left with a header of its size, and the end marker, and touches nothing behind it |
| BlockLayout.OnlyLastCut | include/PIXEvents.h:121-151 | an event that another one follows in its block was not cut |
| BlockLayout.UncutExact | include/PIXEvents.h:121-151 | an event is stored whole exactly if it ends at least two qwords before the end of the block |
| BlockLayout.RecordHolds | include/PIXEvents.h:92-119 | writing an event at the cursor turns a block that holds a list of events into one that holds that list and the event |
| StringReading.Reader.SkipBytes | decoder/lib/EventReading.cpp:27-98 | the cursor advances by exactly that many bytes across qword boundaries |
| StringReading.FindStringEnd | decoder/lib/EventReading.cpp:113-123 | finds the byte behind the first terminator, or where limit or marker come first |
| StringReading.ReadString | decoder/lib/EventReading.cpp:125-232 | reports and repairs exactly what the specification of string reading says, on any memory, malformed headers included |
| EventReading.IsFormatSpecifier | decoder/lib/EventReading.cpp:243-300 | classifies the specifier that starts at a percent sign and where it ends, as characterised in `EventReading.DetectExact` and `FormatGrammar.OneLetter` |
| FormatGrammar.OneLetter | decoder/lib/EventReading.cpp:265-295 | for every character behind a percent sign what is detected: a number for the letters of "diouxXeEfFgGaAcCpn", a string for "sS", a doubled percent sign, and nothing for any other |
| FormatGrammar.SlotsAreAsked | decoder/lib/EventReading.cpp:302-366 | a format string of text, doubled percent signs and conversions with any flags asks for its conversions' arguments, in order, two for a star right before a string letter |
| EventReading.DetectExact | decoder/lib/EventReading.cpp:243-300 | the first percent sign, letter or end behind a percent sign alone decides what it starts, a star counting only right before a string letter |
| EventReading.PopulateFormatArguments | decoder/lib/EventReading.cpp:302-366 | fills at most sixteen elements with the arguments the format string asks for and leaves the memory the specification gives |
| EventReading.ReadEventWithNoFormatParameters | decoder/lib/EventReading.cpp:384-452 | colour, context, name and sizes of an event without arguments, on any memory |
| EventReading.ReadEventWithFormatParameters | decoder/lib/EventReading.cpp:465-627 | colour, context, name, arguments and sizes of an event, on any memory |
| BlockParser.Parser.ProcessEvents | decoder/lib/BlockParser.cpp:163-336 | terminates on every block content with at most one callback per qword and makes the callbacks, and leaves the memory, of the recursive walk |
| StringRoundTrip.ReadWhole | decoder/lib/EventReading.cpp:125-232 | a string stored whole in 8- or 16-byte chunks is read back with the bytes it takes, and the memory is unchanged |
| StringRoundTrip.ReadCut | decoder/lib/EventReading.cpp:190-231 | a string cut after at least one chunk is handed on terminated inside the buffer as a proper prefix, ANSI and wide, and reading it again changes nothing |
| StringRoundTrip.NoMarkerExact | decoder/lib/EventReading.cpp:46-55 | only the chunk with the terminator can read as the end marker, and it does exactly when its bytes spell it |
| StringRoundTrip.StringExact | decoder/lib/EventReading.cpp:125-232 | a format string stored whole is read back if and only if its last chunk does not spell the end marker |
| StringRoundTrip.ArgumentExact | decoder/lib/EventReading.cpp:125-232 | the same for a string argument behind its own header, in 8- or 16-byte chunks |
| StringRoundTrip.HeaderExact | decoder/lib/EventReading.cpp:150-185 | which qwords are taken for the header of a string argument, and where its characters begin |
| ArgumentRoundTrip.PopulateIsSlots | decoder/lib/EventReading.cpp:302-366 | the argument loop takes exactly the slots that the format string asks for, in order |
| ArgumentRoundTrip.TakeStoredAll | decoder/lib/EventReading.cpp:302-366 | the slots receive the stored arguments in order, blanks when they run out, and nothing in memory changes |
| EventRoundTrip.ReadFormattedStored | decoder/lib/EventReading.cpp:465-627 | reading a stored event gives its colour, context, format string and arguments and leaves the block as it is |
| BlockRoundTrip.HeaderDecodes | include/PIXEventsCommon.h:118-125 | the header a writer gives an event of any size decodes to that event's type, flags, low time bits and saturated size |
| BlockRoundTrip.BlockWellFormed | include/PIXEvents.h:121-151 | in a recorded block every event has a header of size 1 to 127, the marker stands at the cursor at most two qwords before the end, and only the last event can be cut |
| BlockRoundTrip.SearchExact | decoder/lib/BlockParser.cpp:278-316 | the search lands on a place if and only if the qword there is a header or the marker, when no earlier one passes for one |
| BlockRoundTrip.ResumeFirst | decoder/lib/BlockParser.cpp:303-316 | on any memory the walk goes on at the peek if a header or the marker is there, otherwise at the first one from one qword behind the format string on |
| BlockRoundTrip.ResumeExact | decoder/lib/BlockParser.cpp:278-316 | after an event of unknown size the walk goes on where it ends if and only if the next qword can be recognised |
| BlockRoundTrip.EventStep | decoder/lib/BlockParser.cpp:182-334 | one round of the walk reports a stored event exactly and stands behind it |
| BlockRoundTrip.DecodePart | decoder/lib/BlockParser.cpp:163-336 | decoding from one event to another reports the events between them and leaves the block unchanged |
| BlockRoundTrip.BlockDecodes | decoder/lib/BlockParser.cpp:163-336 | decoding the block that holds a list of events reports exactly that list and changes nothing |
| SampleBlock.BlockExists | runtime/lib/BlockAllocator.cpp:113-130 | the layout of any list of events, with its end marker, fits a block |
| SampleBlock.SampleDecodes | decoder/lib/BlockParser.cpp:163-336 | a begin event with a context and a number, and its end event, meet the hypotheses and are reported as recorded |
| SampleBlock.SampleWords | include/PIXEventsCommon.h:74-125 | the qwords of that block, as numbers |
| SampleBlock.MarkerWords | include/PIXEventsCommon.h:127-160 | the qwords of a marker with an index colour, a wide format string and an ANSI argument, as numbers |
| ReportedNames.NameExact | decoder/lib/EventReading.cpp:560-627 | when an event is reported with arguments and when as its bare format string, including the 127-qword exception |
| ReportedNames.ArgumentsKept | decoder/lib/EventReading.cpp:313-366 | the arguments asked for are all kept if and only if there are at most sixteen |
| ReportedNames.ExpectedAt | decoder/lib/EventReading.cpp:302-366 | slot by slot, what the argument list of an event holds |
| ReportedNames.EmittedSame | include/PIXEventsCommon.h:374-398 | which copy a string took makes no difference to what is reported |
| NullArguments.NullShifts | include/PIXEventsCommon.h:393-396 | behind any good arguments a null string, and every string up to the first number, read as empty, and the numbers read the zero qword and then whatever was stored behind it |
| NullArguments.NullExact | decoder/lib/EventReading.cpp:150-156 | such arguments come back if and only if the strings are empty wide ones and the numbers equal the qwords one place before them |
| NullArguments.ShiftedByOne | decoder/lib/EventReading.cpp:150-156 | with only numbers behind the null that is the case if and only if they are all zero |
| MistypedArguments.ClearsNextHeader | decoder/lib/EventReading.cpp:190-231 | two numbers read as a string make the decoder clear the low byte of the next event's header, whose size is then unknown |
| CutRoundTrip.CutExpectedExact | decoder/lib/EventReading.cpp:302-366 | cut arguments are reported as whole ones, one shortened string and blanks, if and only if no number is asked for beyond them that reads a dangling string header or what lies behind the event |
| CutRoundTrip.CutArgsPrefix | include/PIXEventsCommon.h:374-398 | what survives of cut arguments is a front part of them and at most one proper prefix of a string |
| CutRoundTrip.TakeCut | decoder/lib/EventReading.cpp:302-366 | reading cut arguments yields those survivors and what is read behind them, consumes that many qwords, and repairs at most one string, whether or not the header tells the event's size |
| CutEvents.ReadCutEvent | decoder/lib/EventReading.cpp:465-627 | reading a cut event of any length gives its colour, context, what is left of its name, its sizes, and the one repair |
| BlockTail.TailKept | decoder/lib/BlockParser.cpp:163-336 | decoding from the last qword before the marker of a full block on, whatever is there, changes nothing |
| BlockTail.CallbackPerQword | decoder/lib/BlockParser.cpp:163-336 | from any place on, at most one callback is made for each qword left |
| CutBlock.CutBlockDecodes | decoder/lib/BlockParser.cpp:163-336 | in a block with a cut last event of any length the others are reported exactly, and of the last one type, context, colour and time exactly and the name as far as it was stored, and then what is decoded behind it |
| CutBlock.CutBlockFinished | decoder/lib/BlockParser.cpp:278-316 | nothing is decoded behind it if its size is known, or just the stored arguments are asked for, or the search over the rest finds no header |
| CutBlock.CutFormatPrefix | decoder/lib/EventReading.cpp:190-231 | a cut format string is reported as a proper prefix of itself, whatever the event's length, and there is nothing to search behind it |
| CutBlock.CutBlockRepeatable | decoder/lib/EventReading.cpp:203-221 | decoding changes at most the last qword of a cut event of any length, and decoding again gives the same callbacks and changes nothing, if the search behind a cut event of 127 qwords or more finds no header among its stored arguments |
| CutBlock.LongCutFormat | decoder/lib/EventReading.cpp:540-627 | of a cut event of more than 127 qwords whose format string was cut, arguments are invented exactly if the rest of the format string asks for any, and a first number is the end marker |
| LegacyWriter.CopyChars16 | include/PIXEventsLegacy.h:293-345 | the 16-byte copies store whole pairs of qwords through the one with the terminator, and pass the limit by at most one |
| LegacyWriter.EncodeForContext | include/PIXEventsLegacy.h:534-562 | writes the blob and a zero inside the 64-qword buffer and nothing else, for any strings and arguments |
| LegacyRoundTrip.ArgsPrefix | include/PIXEventsLegacy.h:474-487 | what is written is a front part of what an unlimited buffer would hold |
| LegacyRoundTrip.ReadLegacyString | decoder/lib/EventReading.cpp:125-232 | a legacy string argument is read back whichever of the three copies it took |
| LegacyRoundTrip.BlobDecodes | decoder/lib/PixEventDecoder.cpp:86-134 | an uncut blob decodes to its format string, arguments and colour modulo 2^32, with bytewise, 8- and 16-byte copies alike |
| LegacyRoundTrip.BlobFits | include/PIXEventsLegacy.h:534-562 | a blob that fits into 62 qwords is not cut |
| LegacyRoundTrip.ChunkSizeTold | include/PIXEventsLegacy.h:293-345 | the header of a legacy string tells 16-byte chunks exactly if the build has that copy and the address is a multiple of 16 |
| LegacyRoundTrip.BlobAccepted | decoder/lib/PixEventDecoder.cpp:96-118 | which headers are decoded from a blob, by their numbers |
| LegacyRoundTrip.CurrentBlobDecodes | decoder/lib/PixEventDecoder.cpp:86-134 | an uncut event of the current format below 127 qwords decodes from a blob to its name and colour |
| LegacyBlock.LegacyStep | decoder/lib/BlockParser.cpp:229-316 | a legacy event in a block is reported exactly and the walk goes on exactly behind it |
| LegacyBlock.LegacyEndStep | decoder/lib/BlockParser.cpp:222-241 | a legacy end event is reported with its context and time, and the walk goes on behind its context, or behind its header if it has none |
| WalkEdges.UnknownSkipped | decoder/lib/BlockParser.cpp:188-196 | an event of an unknown type makes no callback and is stepped over by its size, or by its header if that tells none |
| WalkEdges.SizeObeyed | decoder/lib/BlockParser.cpp:218-266 | behind a header that tells its size the walk goes on where that size says, whatever the body holds; an end event without a context is its header alone, one with a context carries the qword behind the header |
| WalkEdges.AnsiName | decoder/lib/EventReading.cpp:203-226 | a name copied from a char string of any memory holds exactly the bytes that the search for the end has passed, but the last; the repair does not show |
| WalkEdges.HeaderWithoutBody | decoder/lib/EventReading.cpp:485-488 | a header in the last qword of a block is reported with its type and time only, and the name before it |
| PixEventDecoder.DecodeTimingBlock | decoder/lib/PixEventDecoder.cpp:13-84 | the three lists always have equal length, hold the entries of the callbacks in order, and every event has the name at its place |
| TimingEntries.EntriesOfEvents | decoder/lib/PixEventDecoder.cpp:44-72 | each event that the options keep has its entry where the kept ones before it leave it, with the converted time, colour, type, name and context; its CPU copy follows at once, without a context; there are no others |
| TimingEntries.BlockEntries | decoder/lib/PixEventDecoder.cpp:13-84 | the same of what decoding a block gives, said of the events recorded in it |
| PixEventDecoder.CpuNesting | decoder/lib/PixEventDecoder.cpp:46-72 | the CPU copies make each begin and end event count exactly once, in order, in the CPU's nesting |
| PixEventDecoder.TryDecodeBlob | decoder/lib/PixEventDecoder.cpp:86-134 | decodes exactly begin and marker headers of either format, on any memory |
| EntryCount.EntriesFit | decoder/lib/PixEventDecoder.cpp:17-23 | an event makes two entries only if it took two qwords, so the lists are never longer than the block's data |
| EntryCount.BlockEntriesFit | decoder/lib/PixEventDecoder.cpp:17-23 | decoding a recorded block stays within the reserved capacity, CPU copies and whatever follows a cut last event included |
| WorkerProtocol.NothingLost | runtime/lib/ThreadedWorker.cpp:62-129 | in every reachable state the added blocks are the written, the back buffer's and the pending ones, as multisets |
| WorkerProtocol.OneWorker | runtime/lib/ThreadedWorker.cpp:23-59 | at most one worker is alive, a joinable thread is never overwritten, and the back buffer is empty at each swap |
| WorkerProtocol.NothingStranded | runtime/lib/ThreadedWorker.cpp:86-129 | a worker that waits un-notified has nothing to do, and outside Start and Stop a pending block has a live worker |
| WorkerProtocol.StartStarts | runtime/lib/ThreadedWorker.cpp:23-47 | when Start returns a live worker is joinable and stop is not requested |
| WorkerProgress.CheckExact | runtime/lib/ThreadedWorker.cpp:121-128 | a worker with the lock takes exactly the pending blocks as its batch, sleeps un-notified if there are none, and exits if stop was requested |
| WorkerProgress.NotStuck | runtime/lib/ThreadedWorker.cpp:104-129 | a running worker has a step to take while anything is unwritten |
| WorkerProgress.AllGetWritten | runtime/lib/ThreadedWorker.cpp:104-129 | each step of the worker is one of the few that are still needed, and no Add makes them more, until all that was unwritten has been written, in order |
| WorkerProgress.EverythingWritten | runtime/lib/ThreadedWorker.cpp:104-129 | in every reachable state with a running worker, two more steps of it than there are unwritten blocks write them all, whatever is added meanwhile |
| WorkerProgress.StartRenews | runtime/lib/ThreadedWorker.cpp:23-47 | a Start that finds a worker has replaced it when it returns: the old one has exited and a new one runs |
| WorkerProtocol.JoinNotStuck | runtime/lib/ThreadedWorker.cpp:30-39 | while a join waits, the worker can take a step until it has exited |
| WorkerProtocol.JoiningStep | runtime/lib/ThreadedWorker.cpp:86-129 | while a join waits, each worker step decreases (phase, rest of the batch) lexicographically, and an Add changes neither and does not withdraw the request to stop |
| WorkerProtocol.JoinFinishes | runtime/lib/ThreadedWorker.cpp:30-39 | a worker that has begun takes just the steps that the rest of its batch needs, and no new batch, however much is added before the join returns |
| WorkerProtocol.JoinFromStart | runtime/lib/ThreadedWorker.cpp:104-128 | a worker that has not begun takes one batch at most, and only blocks added before its first step lengthen it |
| WorkerOrder.QueueStep | runtime/lib/ThreadedWorker.cpp:86-129 | outside the gap between Stop's join and its drain every step is an append to a queue, a removal of its first block, or nothing |
| WorkerOrder.FirstInFirstOut | runtime/lib/ThreadedWorker.cpp:86-129 | with no Add in that gap, written, back buffer and pending blocks, in that order, are always the added ones |
| WorkerOrder.StopIsBarrier | runtime/lib/ThreadedWorker.cpp:62-83 | with no Add in that gap, everything added has been written in order when Stop returns |
| WorkerOrder.StopWritesWaiting | runtime/lib/ThreadedWorker.cpp:62-83 | from any such state a Stop during which nothing is added writes exactly what was waiting, behind what had been written |
| WorkerOrder.GapAdd | runtime/lib/ThreadedWorker.cpp:86-101 | an Add in the gap has a continuation in which Stop returns with everything that was pending unwritten |
| WorkerOrder.GapExact | runtime/lib/ThreadedWorker.cpp:72-101 | an Add in the gap lets Stop return before an earlier block is written if and only if something is pending there |
| WorkerOrder.StopIsNoBarrier | runtime/lib/ThreadedWorker.cpp:62-101 | such a gap is reachable: a run from the call of Stop to its return that leaves a block unwritten that was added before the call |
| ThreadedWorker.Worker.Add | runtime/lib/ThreadedWorker.cpp:86-101 | the object's step is the protocol's |
| ThreadedWorker.Worker.StartFirst | runtime/lib/ThreadedWorker.cpp:23-34 | the object's step is the protocol's, and whether it has to join |
| ThreadedWorker.Worker.StopSecond | runtime/lib/ThreadedWorker.cpp:74-81 | writes all pending blocks in order; the object's steps are a run of the protocol |
| ThreadedWorker.Worker.WorkerWrite | runtime/lib/ThreadedWorker.cpp:112-121 | writes the back buffer in order and clears it; the object's steps are a run of the protocol |
| ThreadedWorker.Worker.WorkerCheck | runtime/lib/ThreadedWorker.cpp:121-128 | the object's step is the protocol's |
| CaptureInvariants.AppendGood | include/PIXEvents.h:121-151 | recording at a time no earlier than the last keeps a block in order and recordable |
| CaptureInvariants.StepSound | runtime/lib/WinPixEventRuntime.cpp:44-98 | every step keeps threads apart, blocks with their threads, times inside their blocks, and a thread's blocks in sequence |
| CaptureConservation.StepPlaces | runtime/lib/WinPixEventRuntime.cpp:44-98 | every step keeps each allocated block in exactly one place |
| CaptureHistory.StepKeeps | runtime/lib/ThreadData.cpp:43-138 | every step keeps each thread's events in its closed blocks and its current one, and hands blocks on in the order they were filled |
| CaptureRuns.OnePlace | runtime/lib/WinPixEventRuntime.cpp:20-99 | in every run each allocated block is written, waiting, discarded or with one thread, exactly once |
| CaptureRuns.EveryEventKept | runtime/lib/WinPixEventRuntime.cpp:20-99 | in every run each recorded event is in exactly one block, in its thread's order |
| CaptureRuns.BlocksInOrder | runtime/lib/ThreadData.cpp:86-138 | in every run blocks are written non-empty, with event times inside them, each thread's without overlap and in the order they were filled |
| CaptureRuns.FlushWritesAll | runtime/lib/WinPixEventRuntime.cpp:68-92 | after a disable nothing waits; after a flush of an enabled capture no thread has a block either, so every recorded event is in a closed one |
| CaptureRuns.DiscardedOnlyWhenDisabled | runtime/lib/ThreadData.cpp:58-75 | a block is discarded only by its own thread, on a call that finds capture disabled |
| CaptureRuns.OpenedBlockExact | include/PIXEvents.h:92-119 | a call that opens a block leaves it empty if and only if the clock read zero |
| CaptureEffects.EnabledTogether | runtime/lib/WinPixEventRuntime.cpp:44-78 | in every run the registered threads are enabled exactly while the capture is, new ones included, and Enable and Disable switch them all |
| CaptureEffects.RecordExact | include/PIXEvents.h:92-151 | a recording call records, at the end of the thread's current block and with the right one of the times read, if and only if capture is enabled and there is room or a new block; a full block is handed over ended at the first time, a disabled thread's block is discarded |
| CaptureEffects.FlushExact | runtime/lib/WinPixEventRuntime.cpp:80-92 | a flush does nothing unless capture is enabled; then it writes what waits and every thread's block, ended at its time |
| CaptureEffects.ExitExact | runtime/lib/ThreadData.cpp:34-41 | an exiting thread's block is handed over, ended at that time, and only that thread is unregistered |
| CaptureEffects.SwitchExact | runtime/lib/WinPixEventRuntime.cpp:56-78 | enabling or disabling twice does nothing more, and only a Disable has everything written |
| ThreadData.RecordIsLocal | runtime/lib/ThreadData.cpp:86-114 | the whole system's recording step is the thread's own, with its blocks put where they go |
| ThreadData.ThreadData.GetPixEventsThreadInfo | runtime/lib/ThreadData.cpp:43-78 | the thread object's step is the thread state's: an enabled thread without a block asks for one, a disabled one drops its block |
| ThreadData.ThreadData.Flush | runtime/lib/ThreadData.cpp:117-138 | hands over the current block, ended at the given time, and keeps nothing |
| ThreadData.ThreadData.ReplaceBlock | runtime/lib/ThreadData.cpp:86-114 | hands over the old block and opens a fresh one, or reports failure with the thread left without a block |
| ThreadData.ThreadData.Append | include/PIXEvents.h:121-151 | afterwards the block's data hold its events and this one, and the cursor is at the marker, two qwords before the end at most |
| ThreadData.ThreadData.Record | include/PIXEvents.h:797-841 | a recording call on the object does what the thread's step says, of which `CaptureEffects.LocalExact` tells what it records, and hands over the block it says |
| CaptureEffects.LocalExact | runtime/lib/ThreadData.cpp:43-114 | what one recording call does to its thread: the event recorded and where, the block handed over or dropped |
| ThreadData.EventBlock.constructor | runtime/lib/BlockAllocator.cpp:113-130 | a new block has its begin time, no end and no events |
| EtwWriter.FlushIsLoop | runtime/lib/Threads.cpp:44-50 | flushing the threads one by one takes every block exactly once, in thread order |
| EtwWriter.Threads.Add | runtime/lib/Threads.cpp:13-17 | the thread is registered last, enabled as the writer is, the others unchanged |
| EtwWriter.Threads.Remove | runtime/lib/Threads.cpp:20-26 | takes out exactly that thread and keeps the order of the others |
| EtwWriter.Threads.UpdateThreads | runtime/lib/Threads.cpp:29-35 | every registered thread gets the flag and nothing else changes |
| EtwWriter.Threads.Flush | runtime/lib/Threads.cpp:44-50 | every thread gives up its block, ended at the given time, and the blocks are written in thread order |
| EtwWriter.EtwWriter.Enable | runtime/lib/WinPixEventRuntime.cpp:56-66 | the writer object's step is the capture state's |
| EtwWriter.EtwWriter.Disable | runtime/lib/WinPixEventRuntime.cpp:68-78 | the writer object's step is the capture state's |
| EtwWriter.EtwWriter.Flush | runtime/lib/WinPixEventRuntime.cpp:80-92 | the writer object's step is the capture state's, and the data of every block waiting or written hold its events |
| EtwWriter.EtwWriter.ThreadExit | runtime/lib/ThreadData.cpp:34-41 | a thread's last block is handed over and the thread unregistered, as in the capture state |
| EtwWriter.EtwWriter.RecordOn | runtime/lib/WinPixEventRuntime.cpp:162-169 | a recording call on the objects is the capture state's step |
| WorkerSimulation.RunMirrored | runtime/lib/ThreadedWorker.cpp:86-129 | any run of the worker with no Add in the gap is mirrored by the capture state's waiting and written lists, block for block |
| WorkerSimulation.StepSimulated | runtime/lib/WinPixEventRuntime.cpp:56-98 | while the worker carries out the call that a capture step makes, the two machines stay in step, and a Stop leaves nothing waiting |
| WrittenBlocks.WrittenBlockDecodes | decoder/lib/BlockParser.cpp:163-336 | a block of any run, decoded, gives exactly the events recorded in it, the last one as far as it was stored |
| WrittenBlocks.ReportTells | decoder/lib/BlockParser.cpp:163-336 | one entry for each event, equal to it, only of a cut last event the name may be shorter |
| WrittenBlocks.CaptureDecodes | runtime/lib/WinPixEventRuntime.cpp:80-92 | after a flush, decoding the data of a thread's written blocks one after the other gives one entry for each event the thread recorded, in order, exact but for the names of cut ones |

## Left out

- ETW emission, `DllMain`, D3D12 contexts, exported entry points and the many overloads of the API: foreign calls and wrappers. `WriteBlock` appends to a log; all begin, marker and end overloads are `EventWriter.WriteEvent`.
- Formatting (`StringCchPrintf*`), character conversion and the 16K name buffers: a name is a format string and its arguments, uninterpreted.
- The clock conversion is a parameter of `DecodeTimingBlock`; the early return for a null buffer or a null conversion, and process and thread ids, are not modelled.
- Reads outside the block's data give zero and stores outside it are dropped; only headers and lengths that no writer produces reach there.
- Texts are taken when their strings are located, not when they are formatted; only the last string of a block is ever repaired, after the others were located.
- EventReading.PopulateFormatArguments: the store of a seventeenth argument, one element behind the array, is dropped.
- StringReading.ReadString: the `Length` it computes for wide strings counts bytes twice, is kept as computed, and is used for ANSI only, as in the source.
- CutBlock.CutBlockRepeatable: for cut arguments in an event of 127 qwords or more, none of the stored qwords but the last may pass for a header; otherwise the decoder takes up an event in the middle of them, which may repair them once more.
- EntryCount.BlockEntriesFit: asks for arguments of the kinds the format strings ask for, because of `MistypedArguments.ClearsNextHeader`; a walk that has lost its headers no longer finds two qwords for every two entries.
- WorkerProtocol.NothingLost: blocks are plain values; that a moved-from block is null is not modelled, and a `WriteBlock` is one step.
- ThreadedWorker.Worker.WorkerWrite: states the uninterrupted loop; interleavings of its single writes are those of the protocol.
- EtwWriter.EtwWriter.Disable: the worker's queue is kept as values, and its Stop is taken as one step; `WorkerSimulation.StepSimulated` relates both to the worker's own steps.
- Each recording call and each flush is one step; the unsynchronised access that runtime/lib/ThreadData.cpp:119-121 warns of is not modelled.
- Heap creation and freeing: an allocation gives a fresh block, with any data, or fails.
- Argument conversions: an argument that is no string is one qword. Float to double conversion is not modelled.
- Current-format blobs for graphics contexts (built with `PIX_USE_GPU_MARKERS_V2`), Xbox branches, `PIXScopedEventObject`, capture-library loading, `UnmangleString` and `ParseFormatArgument`.
