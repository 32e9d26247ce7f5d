# A verified model of the aegis-core engine, gateway and host page

Dafny models of the algorithmic and concurrent parts of aegis-core, with proofs of what they
promise for every input, every run and every interleaving. `dafny verify dfyconfig.toml` checks
the whole project.

- **Markdown chunker** (`Utf8`, `Layout`, `Splitter`, `Stretches`, `Merge`, `Groups`, `GroupSteps`,
  `SplitPoints`, `Oversize`, `Recursion`, `RecursiveSplit`, `SplitWitnesses`, `Overlap`,
  `OverlapFacts`, `OffsetDrift`, `Chunker`). Bytes are numbers below 256; UTF-8 is the grammar of section 4 of RFC 3629. The loops
  and the recursion of the engine are methods; the overlap pass works in place on an array. Proved:
  the split is lossless up to whole separators, cuts are made at the separators in their order and
  at characters last, exactly which pieces make a chunk (so that the promises leave one result for
  every document), exactly when a chunk exceeds the target, the merge is greedy, UTF-8 survives,
  every byte of a chunk comes from its own header segment, and how far the byte offset of a
  stitched chunk can be trusted.
- **Retriever** (`Excerpts`, `Retrieval`). A class with the id counter and the dedupe memory; the
  embedder and the vector search are arbitrary answers. Scores are reals.
- **Session memory budget** (`BudgetProtocol`). Load, check, weak compare-and-swap and release are
  separate steps of any number of threads over 64-bit wrapping arithmetic.
- **Transcription session** (`SessionSpec`, `SessionFacts`, `SessionEgress`, `SessionVerdict`,
  `EngineSession`).
  `EngineSession.Run` is the loop with its nine ways out and hand-written releases, proved to do
  what `SessionSpec.Session` says; conservation of audio, the shape of the egress, pause erasure and
  the status of every session, told from its stream, are proved of that. Whisper, libopus, the retriever and the stream are oracles that see the
  history of their calls, so they may answer differently every time.
- **Gateway fan-out** (`FanOut`, `FanOutSteps`, `FanOutRuns`, `Viewer`, `FanOutWitness`, `Pipelines`).
  The RWMutex, the bounded channels that can be closed, `sync.Once`, the subscriber map and the map
  of stop functions are the state of transition systems; every lock, send, receive, close, swap and
  call is a step.
- **Web client** (`Stitcher`, `Host`). The stitcher is a class over UTF-16 code units with its
  timeout handle; the host page's reducer is a function.

Where the code and its own documentation disagree, the model follows the code:

- `chunker.h` calls the byte offset of an overlapping chunk the start of the overlap region. It lies
  too late by the separator bytes dropped inside the overlap, and is right iff there are none
  (`OffsetDrift.OffsetLateBy`, with an example in `OffsetDrift.OffsetCanBeLate`).
- `chunker.h` promises that characters are cut where no separator helps, and lists the empty string
  as the last separator. A piece cut at the last separator of the list is never cut further, so a
  chunk can exceed the target: it does iff `Oversize.Stuck` holds of the text, the target and the
  list, which is part of the contract of `RecursiveSplit.SplitRecursive`. With the empty string
  written out at the end, that is iff characters would have had to be cut without it
  (`Oversize.EmptySeparatorReplacesFallback`, with "ab" as an example in
  `SplitWitnesses.EmptySeparatorKeepsAB`). Standing between two separators does not make a piece,
  because separators are found from left to right (`SplitWitnesses.LeftmostScanMatters`).
- The dedupe comment of the retriever says that the first call always passes. It does iff the top
  match has a non-empty id (`Retrieval.HintsAreDeduped`, `Retrieval.EmptyFirstIdIsSuppressed`).
- The comment on renegotiation says that a session has at most one stream. Two pipelines of one
  session run exactly while a call holds a stop function of it beside the recorded one, or two calls
  hold one each (`Pipelines.TwoLiveIff`, `Pipelines.TwoLiveDuringRenegotiation`).
- The stitcher says that a push hands out at most one line. It hands out two iff it cuts off another
  speaker and ends a sentence by itself (`Stitcher.LinesPerPush`, `Stitcher.TwoLinesFromOnePush`).
- Lost events do not show as gaps in a viewer's sequence numbers: frames are numbered when they are
  forwarded (`Viewer.JoinAsViewer`, with a run in `FanOutWitness.LostWithoutAGap`).

Preconditions that the code leaves to its caller: the target chunk size is at least 1, because the
character-level cut never advances at 0.

## Model

| member | source | states |
|---|---|---|
| Utf8.WellFormedIsCharacters | engine_cpp/src/rag/chunker.cc:15-28 | reading a string lead byte by lead byte succeeds iff the string is a sequence of RFC 3629 characters |
| Utf8.Utf8CharCount | engine_cpp/src/rag/chunker.cc:316-324 | the counting loop computes the walk count of any byte string |
| Utf8.Utf8TakeChars | engine_cpp/src/rag/chunker.cc:30-40 | the loop computes where the first n characters end, clipped to the string |
| Utf8.Utf8DropAllButLastChars | engine_cpp/src/rag/chunker.cc:42-51 | the start of the last n characters |
| Utf8.CountAtWalk | engine_cpp/src/rag/chunker.cc:30-40 | cutting after n walked characters splits the count into n and the rest, for any bytes |
| Utf8.LastCharsCount | engine_cpp/src/rag/chunker.cc:42-51 | what is kept has exactly n characters, or all if there are fewer, for any bytes |
| Utf8.WalkBoundary | engine_cpp/src/rag/chunker.cc:30-40 | on UTF-8 a walk stops on a character boundary |
| Utf8.MatchOnBoundaries | engine_cpp/src/rag/chunker.cc:53-75 | self-synchronisation: a UTF-8 separator can stand in a UTF-8 text only from boundary to boundary |
| Splitter.SplitBy | engine_cpp/src/rag/chunker.cc:57-75 | the pieces are those of the leftmost scan; they cover the text with exactly one separator between neighbours and none inside; an empty separator leaves the text whole |
| Splitter.CharSplit | engine_cpp/src/rag/chunker.cc:80-91 | the pieces are those of the character scan: they tile the text, hold the maximum number of characters except the last, and start and end on boundaries |
| RecursiveSplit.Cut | engine_cpp/src/rag/chunker.cc:116-134 | the first separator of the list that occurs is chosen, else characters; oversized pieces are stretches free of all separators tried so far |
| RecursiveSplit.SplitRecursive | engine_cpp/src/rag/chunker.cc:101-198 | terminates; lossless up to whole separators; a text that fits is one chunk, else the chunks are exactly the groups of its pieces (Groups.Exact); neighbours are cut apart at the first separator that can cut their stretch, at characters last; a chunk exceeds the target iff the text is stuck; on UTF-8 every chunk is UTF-8 with its true count and no two neighbours could have been merged |
| Recursion.SplitUnique | engine_cpp/src/rag/chunker.cc:101-198 | the contract of the splitter leaves one list of chunks for every text, target and separator list |
| Groups.GroupUnique | engine_cpp/src/rag/chunker.cc:136-187 | where a chunk begins decides where it ends: it takes pieces as long as they fit, so a separator is left out behind it only where that separator and the next piece would pass the target |
| Groups.ExactUnique | engine_cpp/src/rag/chunker.cc:101-198 | chunks that are groups and cover every piece are determined |
| GroupSteps.BufferIsGroup | engine_cpp/src/rag/chunker.cc:143-151 | a buffer that the next piece would take over the target, or that is the last, is a group |
| GroupSteps.GroupsSub | engine_cpp/src/rag/chunker.cc:155-172 | the groups of an oversized piece are groups of the text and cover its pieces |
| GroupSteps.GroupsFinal | engine_cpp/src/rag/chunker.cc:143-197 | once all pieces are seen, every non-empty piece lies in a chunk |
| SplitPoints.SeverAt | engine_cpp/src/rag/chunker.cc:116-134 | whatever follows a chunk behind the separator chosen at this level is cut off from it in priority order |
| SplitPoints.FenceFlush | engine_cpp/src/rag/chunker.cc:143-181 | when the buffer is closed, the chosen separator, or a full chunk of characters, stands between the last chunk and the next piece |
| Recursion.SeveredLift | engine_cpp/src/rag/chunker.cc:155-167 | cuts made in a recursive call are cuts in the order of the whole list |
| Oversize.TallyFinal | engine_cpp/src/rag/chunker.cc:143-197 | once all pieces are seen, an oversized chunk was made iff this call is stuck |
| Oversize.StuckNeedsLast | engine_cpp/src/rag/chunker.h:45-49 | no chunk exceeds the target unless the last separator of the list stands in the text |
| Oversize.EmptySeparatorReplacesFallback | engine_cpp/src/rag/chunker.h:6-8 | with the empty string at the end of the list a chunk exceeds the target iff the list without it would have cut characters |
| SplitWitnesses.EmptySeparatorKeepsAB | engine_cpp/src/rag/chunker.h:66-72 | "ab" with target 1 and the empty separator comes out oversized, and without it does not |
| SplitWitnesses.LeftmostScanMatters | engine_cpp/src/rag/chunker.cc:64-73 | a stretch between separators that is oversized and yet no piece, because separators are found from the left |
| SplitWitnesses.OnlySplit | engine_cpp/src/rag/chunker.cc:101-198 | the promises leave one split of "x y" at the space with target 1 |
| SplitWitnesses.SeparatorBehindTheEnd | engine_cpp/src/rag/chunker.cc:155-172 | the separator that divides two neighbours need not stand at the end of the first, after a recursive call that dropped one of its own |
| Merge.FlushStep | engine_cpp/src/rag/chunker.cc:143-181 | closing the buffer before a piece that does not fit keeps the layout and leaves the closed chunk unmergeable |
| Merge.OpenStep | engine_cpp/src/rag/chunker.cc:183-187 | opening the buffer with a piece keeps the invariant |
| Merge.GrowStep | engine_cpp/src/rag/chunker.cc:188-195 | appending separator and piece keeps the buffer a slice of the text with its true count |
| Recursion.SubStep | engine_cpp/src/rag/chunker.cc:155-172 | the chunks of an oversized piece take its place: layout, sizes, encoding and greediness carry over from the recursive call |
| Recursion.FinalStep | engine_cpp/src/rag/chunker.cc:196-197 | the last flush leaves the promised split |
| Layout.Reassembly | engine_cpp/src/rag/chunker.cc:136-197 | a lossless layout spelled out: gap, chunk, gap, ..., gap is the text, and every gap is a run of separators |
| Overlap.WalkForwardToSentenceStart | engine_cpp/src/rag/chunker.cc:200-236 | the loops find the end of the first sentence mark within the budget, else the raw start |
| Overlap.NoMark | engine_cpp/src/rag/chunker.cc:216-231 | no mark is found iff none of the four sentence ends stands there |
| Overlap.AfterMarkCount | engine_cpp/src/rag/chunker.cc:223-235 | moving past a mark leaves fewer characters, for any bytes |
| Overlap.AfterMarkBoundary | engine_cpp/src/rag/chunker.cc:223-235 | on UTF-8 the walk from a boundary ends on a boundary |
| Overlap.TailStartsAtSentence | engine_cpp/src/rag/chunker.cc:200-257 | the tail is the last overlap_chars characters, or starts right behind the first sentence mark among the first of them if one stands there |
| Overlap.StitchOnto | engine_cpp/src/rag/chunker.cc:250-270 | one chunk stitched to the tail of its predecessor |
| Overlap.ApplyOverlap | engine_cpp/src/rag/chunker.cc:245-272 | in place, each chunk gets the tail of its already stitched predecessor |
| OverlapFacts.TailCount | engine_cpp/src/rag/chunker.cc:251-257 | the tail has at most overlap_chars characters, for any bytes |
| OverlapFacts.OverlapHandsOn | engine_cpp/src/rag/chunker.cc:245-272 | each stitched chunk is that tail of its stitched predecessor followed by its own text, with the counts added |
| OverlapFacts.OverlapRefines | engine_cpp/src/rag/chunker.cc:238-272 | a stitched chunk ends with all of its own text, is a suffix of the chunks up to it, keeps its end, adds at most overlap_chars, and never starts before the segment, so the clamp to 0 is unreachable |
| OverlapFacts.OverlapEncoded | engine_cpp/src/rag/chunker.cc:255-270 | stitched chunks are UTF-8 with their true character count |
| OffsetDrift.OriginsCopied | engine_cpp/src/rag/chunker.cc:255-266 | every byte of a stitched chunk is the source byte at its origin, origins strictly increasing and before the end of its own text |
| OffsetDrift.OffsetLateBy | engine_cpp/src/rag/chunker.h:38-43 | the offset is late by exactly the separator bytes dropped inside the overlap, and exact iff none was |
| OffsetDrift.OffsetCanBeLate | engine_cpp/src/rag/chunker.cc:267-269 | for every split of "x y" that keeps the promises, the second stitched chunk starts at 0 and says 1 |
| Chunker.HeaderTest | engine_cpp/src/rag/chunker.cc:289-300 | true iff an ATX header line starts at the position |
| Chunker.SegmentOnHeaders | engine_cpp/src/rag/chunker.cc:284-312 | the segments tile the text, are not empty, and are cut at the headers and nowhere else |
| Chunker.SegmentChunks | engine_cpp/src/rag/chunker.cc:347-352 | split and overlap of one segment together: own text in the segment and sized, prefix bounded, every byte of the chunk copied in order from the segment, UTF-8 kept |
| Chunker.SplitSegment | engine_cpp/src/rag/chunker.cc:343-352 | a segment's chunks are the stitched form of its split |
| Chunker.Split | engine_cpp/src/rag/chunker.cc:330-358 | the whole document: its segments, the split of each, together a lossless layout; the result is their stitched form, and every byte of a chunk, overlap included, is copied from one header segment |
| Chunker.DocumentUnique | engine_cpp/src/rag/chunker.cc:330-358 | segments and splits, and so the result, are determined by the document and the configuration |
| Excerpts.StripLeadingMarkdownHeader | engine_cpp/src/rag/retriever.cc:32-48 | the loops strip hashes and the blanks after them if both are there |
| Excerpts.StrippedUnique | engine_cpp/src/rag/retriever.cc:19-31 | the declarative description of stripping has one result, the computed one |
| Excerpts.ClipExcerpt | engine_cpp/src/rag/retriever.cc:53-62 | walks back from the limit over continuation bytes |
| Excerpts.ClipLongest | engine_cpp/src/rag/retriever.cc:50-62 | on UTF-8 the clip is the longest well-formed prefix within the limit, at most 3 bytes short |
| Excerpts.ClipIsChars | engine_cpp/src/rag/retriever.cc:50-62 | the clip is a whole number of characters |
| Excerpts.StripWellFormed | engine_cpp/src/rag/retriever.cc:28-48 | stripping keeps UTF-8 |
| Excerpts.ExcerptWellFormed | engine_cpp/src/rag/retriever.cc:136-149 | strip then clip keeps UTF-8 and the byte limit |
| Retrieval.MakeCitations | engine_cpp/src/rag/retriever.cc:143-151 | one citation a match in order, with the id as a fallback for the source path |
| Retrieval.Retriever.Retrieve | engine_cpp/src/rag/retriever.cc:83-153 | each refusal in its order, the score gate, the dedupe; state and answer of every call |
| Retrieval.HintsAreDeduped | engine_cpp/src/rag/retriever.cc:110-131 | over every run the emitted points are the qualifying tops without consecutive repeats, iff the first qualifying id is not empty |
| Retrieval.EmptyFirstIdIsSuppressed | engine_cpp/src/rag/retriever.cc:116-131 | a first match with an empty id that passes every gate and is not shown |
| Retrieval.AnsweredWhen | engine_cpp/src/rag/retriever.cc:83-131 | after any run, when the next window gets a hint, compared with the latest hint shown, and the status of each refusal |
| Retrieval.HintIdsCount | engine_cpp/src/rag/retriever.cc:133-134 | hint ids count the emissions from 1 |
| Retrieval.HintSaysMatches | engine_cpp/src/rag/retriever.cc:136-151 | the suggestion is the stripped and clipped text of the top match; citations take their fields from the payload keys, one a match in order |
| Retrieval.HintsAreUtf8 | engine_cpp/src/rag/retriever.cc:136-151 | hints from a UTF-8 corpus are UTF-8 and within the byte limit |
| BudgetProtocol.NextInv | engine_cpp/src/session/session_budget.cc:12-33 | every atomic step keeps: the counter is the sum of outstanding reservations, within the total |
| BudgetProtocol.ExactSteps | engine_cpp/src/session/session_budget.cc:15-33 | a grant adds exactly its bytes and fits without wrapping; a release subtracts exactly its own without underflow |
| BudgetProtocol.NeverOverCommitted | engine_cpp/cmd/engine/main.cc:157-167 | at every instant of every run models plus sessions stay within the pod limit |
| BudgetProtocol.RefusalIsHonest | engine_cpp/src/session/session_budget.cc:13-21 | at an instant at which the refused call itself read the counter its bytes did not fit |
| BudgetProtocol.CallsAreRecorded | engine_cpp/src/session/session_budget.cc:12-29 | in every run a call under way or refused began with its own Begin, the thread has begun no other since, and what it saw it read itself, at the start or in a failed swap |
| BudgetProtocol.CallsRecordTheirStart | engine_cpp/src/session/session_budget.cc:12-14 | the recorded start of a call is the instant of its first load |
| BudgetProtocol.SwapGrantsIff | engine_cpp/src/session/session_budget.cc:22-27 | a swap grants iff it is not spurious and the counter is as the call last read it; else the call reads again |
| BudgetProtocol.CheckPassesIff | engine_cpp/src/session/session_budget.cc:15-21 | the check refuses iff the bytes do not fit beside what was read |
| BudgetProtocol.UndisturbedGrant | engine_cpp/src/session/session_budget.cc:12-29 | alone and without a spurious failure a call is granted iff it fits |
| EngineSession.SessionBudget.Reserve | engine_cpp/src/session/session_budget.cc:12-29 | granted iff it fits, after any number of spurious failures |
| EngineSession.SessionBudget.Release | engine_cpp/src/session/session_budget.cc:31-33 | wrapping subtraction |
| EngineSession.SessionBudget.BytesAvailable | engine_cpp/src/session/session_budget.cc:39-42 | what is used and what is available make the total |
| EngineSession.LiveSession.AppendInt16LEAsFloat | engine_cpp/src/session/session.cc:64-74 | appends the packed samples, ignoring an odd last byte |
| SessionFacts.PackUnpack | engine_cpp/src/session/session.cc:61-74 | unpacking inverts packing for all 16-bit samples |
| EngineSession.LiveSession.FlushWindow | engine_cpp/src/session/session.cc:193-239 | the flush closure: state and status after a full or forced window |
| EngineSession.LiveSession.TakePcm | engine_cpp/src/session/session.cc:248-256 | a PCM message while active |
| EngineSession.LiveSession.TakeOpus | engine_cpp/src/session/session.cc:270-280 | an Opus message while active; a failed decode changes only the decoder |
| EngineSession.Run | engine_cpp/src/session/session.cc:110-317 | status and egress are those of the specification, and on every way out exactly what was reserved is released exactly once; a refused session releases nothing |
| EngineSession.Serve | engine_cpp/src/session/session.cc:241-316 | the loop and the final flush, releasing once on each of its exits |
| EngineSession.ReservesItsEstimate | engine_cpp/src/session/session.cc:124-134 | what is reserved and released is the estimate of the first message, or 200 MiB |
| SessionFacts.StepAccepts | engine_cpp/src/session/session.cc:241-306 | one message takes in exactly the audio the stream brings next, and leaves less than a window buffered |
| SessionFacts.AudioIsConserved | engine_cpp/src/session/session.cc:193-316 | the transcribed windows are a prefix of the audio accepted while active, all of it when the session ends well |
| SessionFacts.BufferStaysShort | engine_cpp/src/session/session.cc:241-306 | less than one window is buffered at every loop head |
| SessionEgress.EgressIsReplay | engine_cpp/src/session/session.cc:193-316 | what is written is a function of the windows: all of it on a good end, and otherwise at least all that belongs to the windows before the last; all windows but the last are full |
| SessionEgress.ReplayTranscripts | engine_cpp/src/session/session.cc:203-221 | in the replay of any windows segment ids are 1, 2, 3, ... despite silent and failed windows, and each transcript spans exactly its window |
| SessionEgress.SessionTranscripts | engine_cpp/src/session/session.cc:193-316 | on every exit the transcripts written have ids 1, 2, 3, ... and span their windows; at most the last one is missing |
| SessionEgress.SpokenWindows | engine_cpp/src/session/session.cc:208-216 | exactly the windows with text are transcribed, once each and in order |
| SessionEgress.ClockIsSamples | engine_cpp/src/session/session.cc:203-207 | the clock is the number of samples before it over sixteen, rounded down, while it does not overflow |
| SessionEgress.WindowSpan | engine_cpp/src/session/session.cc:203-207 | a full window spans at least 5000 ms unless the sample clock overflows |
| SessionEgress.PausesLeaveNoTrace | engine_cpp/src/session/session.cc:241-306 | from any state, deleting the pauses from the stream changes nothing but the paused flag |
| SessionEgress.SessionIgnoresPauses | engine_cpp/src/session/session.cc:248-301 | deleting PAUSE, RESUME, ignored controls and audio sent while paused leaves egress and status unchanged |
| SessionVerdict.SessionEnding | engine_cpp/src/session/session.cc:110-317 | the status and the egress of every session from its stream: no or a wrong first message, refusal, engine failure, a message it cannot take, a missing decoder, a refused write, or OK |
| SessionVerdict.SessionEndsWell | engine_cpp/src/session/session.cc:241-316 | OK iff admitted, nothing unacceptable before END_STREAM, a decoder for active Opus, and every write of the replay of all the audio taken; then all of it is written |
| SessionVerdict.AllAudioHeard | engine_cpp/src/session/session.cc:193-316 | the windows of a stream hold all its active audio in order, all but the last of them full |
| FanOutSteps.NextInv | gateway_go/internal/session/session.go:185-276 | every lock, send, close and receive of every goroutine keeps the invariant |
| FanOutSteps.NeverPanics | gateway_go/internal/session/session.go:185-276 | no step sends on a closed channel or closes a channel twice |
| FanOutRuns.ChannelSafety | gateway_go/internal/session/session.go:185-276 | in every state of every run: no panic, registered channels are open, an ended session has no subscribers, a session gone from the registry has ended |
| FanOutRuns.EndedForever | gateway_go/internal/session/session.go:185-196 | once ended, ended for good, and no subscriber is added |
| FanOutRuns.EndsTakeEffect | gateway_go/internal/session/session.go:185-196 | a MarkEnded that got through has ended the session, a Delete has also unregistered it |
| FanOutRuns.ClosedExactly | gateway_go/internal/session/session.go:185-249 | a subscriber's channel is closed iff its unsubscribe took it out or the session has ended |
| FanOutRuns.LateChannelClosed | gateway_go/internal/session/session.go:225-230 | a channel that came too late to join is open only while its maker has it |
| FanOutRuns.JoinsTakeEffect | gateway_go/internal/session/session.go:225-232 | Subscribe registers its channel iff the session has not ended |
| FanOutRuns.ClosedForever | gateway_go/internal/session/session.go:236-249 | a closed channel is never reopened and accepts nothing more |
| FanOutRuns.Delivery | gateway_go/internal/session/session.go:219-276 | accepted events were broadcast after subscribing, none twice, each broadcaster's in its order, first in first out, backlog within capacity |
| FanOutRuns.ReportsAreTrue | gateway_go/internal/session/session.go:253-276 | delivered plus dropped is the number of subscribers the session held when this broadcast took the lock; each of them has accepted or has lost the event |
| FanOutRuns.BornWhenJoined | gateway_go/internal/session/session.go:219-234 | a channel counts from the instant at which it was registered in a live session |
| FanOutRuns.CapacityAsAsked | gateway_go/internal/session/session.go:219-223 | every channel holds what its Subscribe asked for, or 32 |
| FanOutRuns.LostOnlyWhenFull | gateway_go/internal/session/session.go:267-273 | an event is dropped only when the subscriber's buffer is full |
| FanOutSteps.RegistryNext | gateway_go/internal/session/session.go:395-405 | Delete holds the registry's mutex from its lookup to the removal |
| Viewer.JoinAsViewer | gateway_go/internal/grpc/gateway_service.go:430-484 | frames are numbered 1, 2, 3, ...; ACTIVE, then the events in channel order, then one ENDED iff the channel closed; every frame shown was taken by the stream, and the loop gives up exactly on one that was not |
| Viewer.StreamUnique | gateway_go/internal/grpc/gateway_service.go:430-484 | what the selects find and which sends succeed decide frames and ending |
| Viewer.SendsSucceed | gateway_go/internal/grpc/gateway_service.go:430-484 | if all sends succeed the first find that is no event decides the ending, and ENDED is shown iff it is the close |
| Viewer.ViewerStream | gateway_go/internal/grpc/gateway_service.go:425-484 | in every interleaving the frames are ACTIVE and a prefix of what the channel accepted, after the join and in each broadcaster's order; when the close is seen they are ACTIVE, all the channel has or ever will have accepted, ENDED |
| Viewer.ReadsAreChannel | gateway_go/internal/grpc/gateway_service.go:447-462 | over every run what the consumer reads is what the channel hands out, and a close is seen only of a closed and drained channel |
| FanOutWitness.LostWithoutAGap | gateway_go/internal/grpc/gateway_service.go:430-484 | a run in which the second of three events is lost and the viewer is shown frames 1, 2 and 3 |
| Pipelines.NextInv | gateway_go/internal/grpc/gateway_service.go:348-369 | every start, swap, take and call keeps each stop function in exactly one place |
| Pipelines.StoppedAtMostOnce | gateway_go/internal/grpc/gateway_service.go:282-286 | over every interleaving no stop function is called twice, records are live pipelines of their session, starts minus stops are records plus in flight |
| Pipelines.LastWriterWins | gateway_go/internal/grpc/gateway_service.go:360-367 | a pipeline is recorded iff its swap is the latest of its session and nothing was taken out since |
| Pipelines.RecordsItsOwn | gateway_go/internal/grpc/gateway_service.go:348-363 | what a call records is the pipeline it started itself |
| Pipelines.CalledWasDropped | gateway_go/internal/grpc/gateway_service.go:282-286 | only a pipeline replaced by a newer one or taken out at the end is stopped, by the call that took it out |
| Pipelines.OneLiveWhenQuiet | gateway_go/internal/grpc/gateway_service.go:360-368 | with no call of the session under way only the recorded pipeline can run |
| Pipelines.TwoLiveIff | gateway_go/internal/grpc/gateway_service.go:348-368 | in every state of every run a session has two live pipelines iff a call holds a stop function of it beside the recorded one, or two calls hold one each |
| Pipelines.TwoLiveDuringRenegotiation | gateway_go/internal/grpc/gateway_service.go:348-368 | a run in which two pipelines of a session are live at once |
| Stitcher.JoinAssociative | frontend_web/src/hooks/useSentenceStitcher.ts:206-220 | joining is associative |
| Stitcher.JoinIdentity | frontend_web/src/hooks/useSentenceStitcher.ts:213-215 | the empty text is the identity of joining |
| Stitcher.JoinInsertsSpace | frontend_web/src/hooks/useSentenceStitcher.ts:206-220 | parts are joined as they are but for a space between two ASCII letters or digits |
| Stitcher.TrimIsSlice | frontend_web/src/hooks/useSentenceStitcher.ts:117-119 | trimming leaves the slice with only white space before and after it |
| Stitcher.SentenceStitcher.PushSegment | frontend_web/src/hooks/useSentenceStitcher.ts:117-152 | one push: trim, speaker change, merge, flush or re-arm |
| Stitcher.SentenceStitcher.FlushPending | frontend_web/src/hooks/useSentenceStitcher.ts:101-114 | hands out the pending line and clears the timeout |
| Stitcher.SentenceStitcher.TimeoutFires | frontend_web/src/hooks/useSentenceStitcher.ts:148-151 | the timeout callback |
| Stitcher.SentenceStitcher.DestroyStitcher | frontend_web/src/hooks/useSentenceStitcher.ts:153-163 | teardown |
| Stitcher.LinesPartitionSegments | frontend_web/src/hooks/useSentenceStitcher.ts:93-165 | over every run the lines and the pending text are exactly the groups determined by the calls alone: a segment joins the open group unless that ended a sentence, has another speaker, timed out or was torn down; each group is shown as its join, a question iff any part is, complete iff it ends a sentence |
| Stitcher.TimerArmedIffPending | frontend_web/src/hooks/useSentenceStitcher.ts:98-163 | in every run exactly one timeout is scheduled while text is pending and none otherwise |
| Stitcher.CompleteMeansEndsWithEnder | frontend_web/src/hooks/useSentenceStitcher.ts:140-144 | with one-unit enders complete means ending with an ender |
| Stitcher.LinesPerPush | frontend_web/src/hooks/useSentenceStitcher.ts:62-67 | a push hands out two lines iff it cuts off another speaker and ends a sentence by itself, else at most one |
| Stitcher.TwoLinesFromOnePush | frontend_web/src/hooks/useSentenceStitcher.ts:117-152 | a push that hands out two lines |
| Host.KeepLastSnoc | frontend_web/src/pages/Host/HostPage.tsx:344-348 | replace-or-append is what keeping the last of each key does with one more element |
| Host.TailStep | frontend_web/src/pages/Host/HostPage.tsx:323-326 | trimming to the panel size along the way loses nothing of the final panel |
| Host.MeetingRefinesHistory | frontend_web/src/pages/Host/HostPage.tsx:273-383 | in every reachable state the transcript is the keep-last form of all lines received, the hints are the last five of the keep-last form of all hints, overrides are curated |
| Host.PrincipalIsLatest | frontend_web/src/pages/Host/HostPage.tsx:275-416 | any principal in a reachable state is the latest authenticated one |
| Host.StageFromActions | frontend_web/src/pages/Host/HostPage.tsx:273-416 | which stage the page is at, from the actions alone |
| Host.FormFromActions | frontend_web/src/pages/Host/HostPage.tsx:283-316 | form, title, panel switch and room are what was last typed, switched and started |
| Host.LabelsFromActions | frontend_web/src/pages/Host/HostPage.tsx:355-383 | a speaker is shown under the curated label last given and not taken back |
| Host.SegmentIdBeforeColon | frontend_web/src/pages/Host/HostPage.tsx:344-347 | lines are keyed by the part of their id before the first colon |

## Left out

- Whisper, libopus, the embedder, Qdrant, gRPC and Pion: arbitrary oracle answers.
- The rationale text of a hint and the wording of error messages: formatting only.
- Audio sample values: a sample is the integer over 32768, no float rounding; scores are reals.
- FanOut: the session object is modelled on values as a transition system, not as a class updated in place; the connection ids and host liveness fields of the session play no part in it.
- Pipelines: modelled on values as a transition system; a pipeline that fails to start or has no stop function is a call without steps.
- BudgetProtocol: the atomic counter has one total modification order; other memory-ordering effects are not modelled.
- Viewer.JoinAsViewer: token checks and the registry lookup before the loop are not modelled; the select results are an arbitrary sequence.
- Registry creation and lookup, NextHintID, officer hints: easy members.
- The WebSocket viewer loop repeats the gRPC one.
- Delivery of the final flush to viewers when a pipeline is stopped: not decided by this code.
- Chunker.Split: sizes and offsets are unbounded numbers, since texts fit in memory.
- Stitcher: the display callback is taken not to call back into the stitcher.
- Host: browser handles of a meeting (capture, peer connection, subscription) and hint fields other than id and suggestion are carried along by the reducer untouched and are left out.
