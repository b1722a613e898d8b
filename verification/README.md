# Illyawish: the streaming, resuming and storing core, verified

Illyawish is a self-hosted chat application. This project models the parts of it in which
several functions, or several requests, have to agree, and proves what they are for:

* **Reasoning streams** (`ReasoningParser`, `ReasoningGrowth`, `ThinkBlocks`,
  `ReasoningStream`). Model output arrives in arbitrary chunks; the buffer splits all text
  so far again after each one and emits the difference. The batch splitter is specified
  recursively and the source's loop is proved to compute it. How its result moves when text
  is appended (`SplitGrows`) gives the exact conditions on the text, both ways, under which
  the stream ends with what the batch splitter says, and two concrete chunkings for which it
  does not.
* **One generation run** (`AssistantStream`). The event log as a grammar, followed from the
  first event to the terminal one, and its agreement with the stored message.
* **Resumable runs** (`ActiveRuns`, `Resume`, `Delivery`, `RunService`). Each critical section is one
  atomic step on a run with a ghost log of everything it published. The 512-event window
  refines that log; a client that resumes gets it exactly once, and from the model's deltas to
  the client's text nothing is lost (`ExecuteRun`); and in every interleaving of handlers, timers
  and the executing goroutine no run is left without someone to end it.
* **Server-sent events** (`Sse`, `SseCuts`). The server's frames and the client's chunked reader undo
  each other under any chunking, and what cut line ends do to any response (sections 9.2.5 and
  9.2.6 of the WHATWG HTML Standard).
* **Search** (`LikeSearch`). LIKE with an escape character (section 8.5 of ISO/IEC 9075-2),
  and the meaning of the list's whole condition.
* **Login rate limiter** (`LoginRateLimit`, `LoginOverlap`). The bound for a sliding window, which no
  branch shows, for attempts in turn and for attempts that overlap, and runs that reach it.
* **Markdown transfer** (`MarkdownLines`, `MarkdownTransfer`, `MarkdownExport`). Export and import with the
  source's regular expressions written out; the round trip holds exactly for clean messages,
  and imports produce nothing else.
* **References** (`Integrity`, `Services`). Presets, spaces, defaults and conversations over
  all runs of requests, since the database enforces no foreign keys.
* **Attachments and replay** (`Attachments`, `Hydration`, `Replay`). Links and inline lists,
  message ids that come again, the transactions that cut a conversation, and the clean-up
  behind them.
* **Knowledge search and paging** (`Cosine`, `Words`, `Chunking`, `Paging`).

`Text` and `Events` are shared. Go strings (bytes) and JavaScript strings (code units) are
sequences of characters. Clocks, stream deltas, results of writes, database-chosen ids and the
query's order of equal rows are parameters, so the theorems hold for all of them. Where the
source changes state the model is a class whose methods are proved against a specification
function of the old state; lemmas then speak about that function.

What an operation leaves in a row, a list or an event is stated field by field in lemmas that do
not mention the specification function (`UpdateStores`, `EditKeepsPast`, `TrimExactly`, `RunEnds`).

## Where the code differs from what one might expect

* Streaming and batch splitting disagree in two families of chunkings, both stated as an
  if-and-only-if on the text (`ContentExact`, `ReasoningExact`) with examples.
* A chunk boundary inside a CRLF can split one event into two (`CutMatters`). Which responses
  keep their events, for any number of chunks and cuts, is `CutsExactly`; it is no condition on
  single cuts, since a further cut can undo what another did (`CutUndone`).
* The cancel reason is read twice. A user's reason that is set between the two reads does not
  count, one of the timer does (`CancelledExactly`).
* Deleting a message leaves its link rows behind, and the reference count counts them. So the
  clean-up after a replay never removes an upload of a dropped message (`DroppedUploadsStay`),
  and after an edit only if the new message is given the dropped one's id
  (`EditTakesExactly`), although it is handed those messages' attachments
  (`LeftOverLinkKeepsUpload` is such a state).
* If a bulk deletion removes all uploads of a message, hydration falls back to the list in its
  row and shows them again (`PurgedUploadIsShown`), and only then (`ShownIsStoredExactly`).
* Two counting epochs can meet in one window: eight failures, not five, is the bound of the
  rate limiter (`AtMostEightInAnyWindow`, `EightIsReached`). `FiveExactly` says which runs stay at
  five, by what can be seen before each attempt is let through.
* The limiter's mutex is free between check and recording. With `k` attempts in flight the bound
  is `2k + 6` (`AtMostInAnyWindow`, `BoundIsReached`).

## Model

| member | source | states |
|---|---|---|
| ReasoningParser.SplitLeadingReasoningContent | backend/internal/chat/reasoning_parser.go:83-146 | the loop over `index` ends, and computes `Split`, the recursive meaning of leading think blocks |
| ReasoningParser.ComputeTrimPotentialTagSuffix | backend/internal/chat/reasoning_parser.go:171-183 | the loop over `size` computes `TrimPotentialTagSuffix`, whose meaning `TrimExactly` gives |
| ReasoningParser.Overlap | backend/internal/chat/reasoning_parser.go:171-183 | the suffix that is held back is a prefix of the tag, and no longer one is |
| ReasoningParser.TrimExactly | backend/internal/chat/reasoning_parser.go:171-183 | a text is what may be shown if and only if it is the value without the longest proper start of the tag that ends it |
| ReasoningParser.MayBecomeTag | backend/internal/chat/reasoning_parser.go:148-150 | a potential prefix is exactly a text that is no opening tag yet and that more text can make one |
| ReasoningGrowth.TrimGrows | backend/internal/chat/reasoning_parser.go:171-183 | later text never shortens what is shown in front of a possible closing tag |
| ReasoningGrowth.TrimStopsAtClose | backend/internal/chat/reasoning_parser.go:171-183 | what was shown never runs into a closing tag that later text completes |
| ReasoningGrowth.ContentIsSuffix | backend/internal/chat/reasoning_parser.go:83-146 | the answer is always the end of the text |
| ReasoningGrowth.ContentIs | backend/internal/chat/reasoning_parser.go:83-146 | the answer of any text in closed form: what is behind the blocks once that is an answer, and before the first block all text unless it may start a tag |
| ReasoningGrowth.SplitGrows | backend/internal/chat/reasoning_parser.go:83-146 | any further text extends both parts of the split, with two exceptions, each stated on the two texts alone: all-whitespace text stays in front of the answer if and only if `BlankWasNoText` does not hold, and where `TagWasText` holds the reasoning loses exactly the whitespace in front of the answer |
| ReasoningGrowth.BlankStays | backend/internal/chat/reasoning_parser.go:83-146 | all-whitespace text is a start of the new answer if and only if what follows cannot be a tag, or the answer behind the blocks has begun and its own whitespace starts with that text |
| ThinkBlocks.SplitOfPrinted | backend/internal/chat/reasoning_parser.go:88-145 | think-block round trip: printed blocks in front of an answer split into the bodies with the whitespace between them, and the answer with the whitespace in front of it |
| ThinkBlocks.ReadBlocks | backend/internal/chat/reasoning_parser.go:88-145 | the same for every remainder: an answer, nothing, the start of a tag, an unclosed block |
| ThinkBlocks.OpenBlockShown | backend/internal/chat/reasoning_parser.go:107-122 | behind any number of blocks, also none, the whole body of a block that is still open is reasoning, unless it ends in a start of the closing tag |
| ThinkBlocks.BlocksOf | backend/internal/chat/reasoning_parser.go:88-145 | every text whose first block is closed is the print of blocks and such a remainder |
| ThinkBlocks.TailOfBlocks | backend/internal/chat/reasoning_parser.go:88-145 | the tail that these conditions speak of: for printed blocks and a remainder it is the last gap and the remainder |
| ThinkBlocks.PartialTagShape | backend/internal/chat/reasoning_parser.go:92-139 | boundary kind (b) holds of a text if and only if it is printed blocks, non-empty whitespace and a non-empty start of the opening tag |
| ThinkBlocks.AnswerShape | backend/internal/chat/reasoning_parser.go:92-139 | an answer behind blocks has begun if and only if the text is printed blocks and an answer |
| ReasoningStream.AssistantResponseBuffer.ApplyDelta | backend/internal/chat/reasoning_parser.go:25-47 | the new fields and the emitted events are `Applied` of the old ones |
| ReasoningStream.AssistantResponseBuffer.FinishReasoning | backend/internal/chat/reasoning_parser.go:49-55 | `reasoning_done` is emitted once, and only after reasoning started |
| ReasoningStream.AssistantResponseBuffer.AppendReasoning | backend/internal/chat/reasoning_parser.go:57-70 | `reasoning_start` precedes the first `reasoning_delta`; empty chunks do nothing |
| ReasoningStream.AssistantResponseBuffer.AppendContent | backend/internal/chat/reasoning_parser.go:72-81 | a `delta` carries exactly what is appended to the answer; empty chunks do nothing |
| ReasoningStream.ParsedReasoningAnyChunking | backend/internal/chat/reasoning_parser.go:33-46 | for every chunking, the recorded reasoning is the batch reasoning, or that followed by exactly the whitespace in front of the answer; it is the former if and only if no boundary has `TagWasText` |
| ReasoningStream.ContentExact | backend/internal/chat/reasoning_parser.go:33-46 | for every chunking, the streamed answer is the batch answer if and only if no boundary has `BlankWasNoText`, a condition on the text before it and the next chunk |
| ReasoningStream.ReasoningExact | backend/internal/chat/reasoning_parser.go:25-47 | without native reasoning, the streamed reasoning is the batch reasoning if and only if no boundary has `TagWasText`: blocks, whitespace and the start of a tag that the next chunk makes no tag |
| ReasoningStream.NativeIsWoven | backend/internal/chat/reasoning_parser.go:28-40 | with native reasoning: each delta adds its own reasoning and then exactly what the parser records with it |
| ReasoningStream.StreamingEqualsBatch | backend/internal/chat/reasoning_parser.go:25-47 | streaming equals batch for every chunking with no interior boundary of kind (a) or (b) |
| ReasoningStream.BlankBoundaryMatters | backend/internal/chat/reasoning_parser.go:25-47 | chunks for which kind (a) makes the streamed answer differ |
| ReasoningStream.TagBoundaryMatters | backend/internal/chat/reasoning_parser.go:25-47 | chunks for which kind (b) makes the streamed reasoning differ |
| AssistantStream.StreamCall | backend/internal/chat/generation_streaming.go:149-188 | the callbacks of one model call, skipping empty ones, feed the buffer in order |
| AssistantStream.StreamCalls | backend/internal/chat/generation_streaming.go:61-90 | with auto-continue the second call goes on with the same buffer, and its error replaces the first |
| AssistantStream.ContinuesExactly | backend/internal/chat/helpers.go:47-64 | a second call follows if and only if the first ran into the token limit, or had produced an answer and broke off recoverably |
| AssistantStream.FedTwice | backend/internal/chat/generation_streaming.go:165-188 | two calls on one buffer are one call with the deltas of both |
| AssistantStream.AssistantMessage.Finalize | backend/internal/chat/generation_persistence.go:229-250 | the message in memory takes the final content, reasoning and status; the row does if the update succeeds |
| AssistantStream.CompleteFailedAssistantStream | backend/internal/chat/generation_streaming.go:190-221 | a stream that ended in an error stores what was shown: as cancelled if the error is a cancellation and one of the reads says stopped, as failed otherwise, and its last event says the same and carries the error |
| AssistantStream.CompleteAssistantStream | backend/internal/chat/generation_streaming.go:120-146 | a stream without an error is stored as completed, and its last event says so |
| AssistantStream.StreamIntoAssistantMessage | backend/internal/chat/generation_streaming.go:37-147 | before its terminal event the log spells exactly the content and the reasoning that are stored |
| AssistantStream.RunAssistant | backend/internal/chat/generation_streaming.go:37-221 | wire agrees with database: the log of every finished run follows the grammar to its one terminal event, and concatenated deltas equal what was finalized, also across auto-continue; the run is completed if the deciding call had no error, cancelled if its error is a cancellation and the reads say stopped, and failed otherwise, in the row and in the last event, which carries the error |
| AssistantStream.GrammarOrders | backend/internal/chat/generation_streaming.go:37-147 | what following the grammar means: message_start first and once, one reasoning_start before any reasoning_delta, reasoning_done iff it was opened and closed, a terminal event only last |
| ActiveRuns.StepKeepsValid | backend/internal/chat/active_run.go:51-146 | every critical section keeps: `events` is the last min(512, nextSeq) entries with consecutive numbers; a channel was sent one slice of the log, holds at most 128, and is open iff it is in the map; a set timer means unfinished and no subscribers; `done` is closed exactly when finished, and once |
| ActiveRuns.RunKeepsValid | backend/internal/chat/active_run.go:51-146 | the same in every reachable state of a run |
| ActiveRuns.ReplayIsSuffix | backend/internal/chat/active_run.go:60-65 | a replay is the log from one point to its end |
| ActiveRuns.ReplayAndChannelAreOneSlice | backend/internal/chat/active_run.go:60-90 | a subscription's replay and all its channel is ever sent are one contiguous slice of the log |
| ActiveRuns.ResumeIsGapFree | backend/internal/chat/active_run.go:60-65 | resuming after event n leaves no gap if and only if n is at most 512 behind |
| ActiveRuns.StepsAreMonotone | backend/internal/chat/active_run.go:93-146 | the log only grows, a finished run stays finished and silent, a cancel reason is written once, a closed channel stays closed and gets nothing more |
| ActiveRuns.PublishReaches | backend/internal/chat/active_run.go:93-116 | publishing numbers the event, keeps the last 512, and reaches every subscriber with fewer than 128 events queued; the others are closed and dropped |
| ActiveRuns.ChannelsAfter | backend/internal/chat/active_run.go:51-138 | what the other steps do to every channel: made by subscribing, closed by unsubscribing and finishing, read by its receiver, and otherwise untouched |
| ActiveRuns.TimerAfter | backend/internal/chat/active_run.go:118-138 | the timer is set exactly by scheduling on an unfinished run without subscribers, and stopped by a subscriber or the end; a run finishes once |
| ActiveRuns.ReasonIsFirst | backend/internal/chat/active_run.go:140-146 | after any steps the cancel reason is the first one given, and there is none if and only if none was given |
| ActiveRuns.ActiveRun.Subscribe | backend/internal/chat/active_run.go:51-91 | stops the timer, returns the replay, and registers a channel unless the run is finished |
| ActiveRuns.ActiveRun.Unsubscribe | backend/internal/chat/active_run.go:77-88 | closes and removes the channel if it is still registered |
| ActiveRuns.ActiveRun.Publish | backend/internal/chat/active_run.go:93-116 | numbers the event, keeps the window, queues it or drops each full channel |
| ActiveRuns.ActiveRun.Deliver | backend/internal/chat/active_run.go:108-115 | the loop over subscribers never sends on, or closes, a closed channel |
| ActiveRuns.ActiveRun.Finish | backend/internal/chat/active_run.go:118-138 | closes every open channel and `done`, once |
| ActiveRuns.ActiveRun.SetCancelReason | backend/internal/chat/active_run.go:140-146 | the step `Cancel`, of which `ReasonIsFirst` says what it leaves |
| ActiveRuns.ActiveRun.ScheduleDetachCancellation | backend/internal/chat/generation_active_run.go:143-157 | sets the timer unless finished, attended or already set |
| Resume.ReachableIsGood | backend/internal/chat/generation_active_run.go:93-127 | what a client consumed, what is on its connection and what its handler has yet to send are together a prefix of the log, in every reachable state |
| Resume.ExactlyOnce | backend/internal/chat/generation_active_run.go:93-127 | exactly-once resume: over any run of publishing, dropping, disconnecting and reconnecting no more than 512 behind, the client has consumed the log from its start with no gap and no duplicate |
| Resume.ReconnectCatchesUp | backend/internal/chat/generation_active_run.go:93-127 | from any reachable state, also after a slow channel was dropped, a client at most 512 behind can read its way to the whole log |
| Resume.DrainedHasAll | backend/internal/chat/generation_active_run.go:93-127 | nothing is missing at the end: a client that has drained its connection has the whole log if and only if its channel was sent all of it, and so always while the channel is open |
| Delivery.LogIsEmitted | backend/internal/chat/active_run.go:93-106 | the log of a run is what was published, numbered, whatever clients do meanwhile |
| Delivery.ClientReconstructs | backend/internal/chat/generation_active_run.go:28-31 | a client that consumed a finished run's whole log, over any connections, reconstructs exactly the stored content, reasoning and status |
| Delivery.ClientHasStart | backend/internal/chat/generation_active_run.go:93-127 | at any time what a client has put together is a start of what gets stored |
| Delivery.ExecuteRun | backend/internal/chat/generation_active_run.go:28-31 | the executor's call from end to end: in every run that publishes what it emitted, with any clients and connections, a client has a start of the final text at any time, and one with the whole log the content, reasoning and status that were stored |
| Delivery.LiveClientHasAll | backend/internal/chat/generation_active_run.go:22-54 | such runs exist for all events: a client that joins first and reads as they come has the whole log in the end |
| Delivery.CancelledExactly | backend/internal/chat/generation_streaming.go:201-208 | for any two reads of one run: completed without an error, cancelled if and only if the error is a cancellation and the first reason given was the user's before the first read or the timer's before the second, failed otherwise |
| RunService.ActKeepsInv | backend/internal/chat/generation_active_run.go:10-91 | every step of the registry, handlers, executor and timer keeps the registry invariant |
| RunService.NoOrphanRuns | backend/internal/chat/generation_active_run.go:16-31 | in every interleaving an unfinished run without subscribers or timer has a handler that will yet schedule detachment; once all are gone the timer is set |
| RunService.TimerMeansUnattended | backend/internal/chat/generation_active_run.go:143-157 | a set timer implies an unfinished run nobody listens to |
| RunService.OneUnfinishedRun | backend/internal/chat/generation_active_run.go:56-80 | a conversation has at most one unfinished run, and the registry holds it |
| RunService.LaunchEnters | backend/internal/chat/generation_active_run.go:56-71 | a request for an idle conversation makes a new run, enters it and gives it to its handler |
| RunService.OtherRunsUntouched | backend/internal/chat/generation_active_run.go:16-157 | an act of one run leaves every other run, and the other registry entries, as they are |
| RunService.EachRunIsARun | backend/internal/chat/generation_active_run.go:16-157 | refinement: in every interleaving the state of each run is that of a run by itself after just the acts that were about it |
| RunService.FirstCancelDecides | backend/internal/chat/generation_active_run.go:143-157 | in every later state the reason is the user's if their cancellation came before the timer's callback, detached if the callback came first, and none if neither came |
| RunService.ExpiryCancels | backend/internal/chat/generation_active_run.go:143-157 | an expired timer cancels the run as detached |
| RunService.RequestCompletes | backend/internal/chat/generation_active_run.go:13-80 | from every reachable state a request for an idle conversation can run to its end, with all events in order, and leaves the registry as it was |
| RunService.ActiveStreams.Register | backend/internal/chat/generation_active_run.go:56-69 | a busy conversation is refused, else its run is entered |
| RunService.ActiveStreams.Find | backend/internal/chat/generation_active_run.go:82-91 | joining does nothing if and only if nothing is found, else the new handler holds the found run; under the registry invariant what is found is the only run of the conversation that may be unfinished, and finding none means all its runs are finished |
| RunService.ActiveStreams.Remove | backend/internal/chat/generation_active_run.go:71-80 | a run removes its own entry and no other |
| Sse.ParseEvent | frontend/src/lib/sse.ts:89-117 | the loop over lines computes `Parsed` |
| Sse.LineMeans | frontend/src/lib/sse.ts:85-125 | a data line adds its value, an event line gives the name, one space behind the colon does not count, and any other line says nothing |
| Sse.EventRead | frontend/src/lib/sse.ts:85-125 | an event of any number of data lines comes back with all of them joined, and without a name it is a message |
| Sse.Reader.DispatchBufferedEvents | frontend/src/lib/sse.ts:51-73 | dispatches every part that ends in a blank line, and the remainder on the final flush |
| Sse.Reader.Feed | frontend/src/lib/sse.ts:37-43 | one read: the normalised chunk is appended and drained |
| Sse.StreamSse | frontend/src/lib/sse.ts:37-48 | the whole read loop and the flush |
| Sse.DrainInPieces | frontend/src/lib/sse.ts:51-73 | draining a text in two pieces dispatches the same as draining it at once |
| Sse.NormalizeSplitsExactly | frontend/src/lib/sse.ts:85-87 | normalising in two pieces is the same as at once if and only if no CRLF is cut |
| Sse.ChunkIndependent | frontend/src/lib/sse.ts:37-87 | for any text, the dispatch does not depend on the chunks as long as none cuts a CRLF |
| SseCuts.FlushedIsEvents | frontend/src/lib/sse.ts:51-117 | what the buffer loop and the flush dispatch are the events of the paragraphs of the text's lines |
| SseCuts.KeptExactly | frontend/src/lib/sse.ts:83-117 | the lines of one event, cut into any number of parts, dispatch what they do in one if and only if every part with data has all data and the event name of the whole; and never fewer frames |
| SseCuts.CutsExactly | frontend/src/lib/sse.ts:37-117 | a response of any number of chunks, with any number of cut line ends, dispatches what its text does in one chunk if and only if every event is kept by the parts that the cut line ends make of it |
| SseCuts.CutMatters | frontend/src/lib/sse.ts:37-117 | two chunks that cut a CRLF and dispatch two events where the uncut text has one |
| SseCuts.CutUndone | frontend/src/lib/sse.ts:37-117 | three chunks with two cut line ends that dispatch what the uncut text does, although one of the cuts alone changes it |
| Sse.RoundTrip | backend/internal/chat/streaming_http.go:38-43 | whatever the chunks, the client dispatches exactly the frames the server wrote, in order, and the flush adds nothing |
| Sse.PrefixDispatchesWholeFrames | frontend/src/lib/sse.ts:37-73 | after any part of the stream, exactly the frames wholly contained in it have been dispatched |
| LikeSearch.SearchMeansContains | backend/internal/chat/helpers.go:159-162 | the pattern built from escaped text matches exactly the texts that contain the text, up to any fold of characters |
| LikeSearch.ListedMeansMentions | backend/internal/chat/conversation_queries.go:24-52 | the whole WHERE clause, NULLs of the outer joins included, selects exactly the user's conversations, archived or not as asked, one of whose texts contains the trimmed search text |
| LikeSearch.EscapeChangesOnlySpecials | backend/internal/chat/helpers.go:159-162 | escaping leaves a text alone if and only if it has none of the three special characters |
| LikeSearch.UnescapeEscape | backend/internal/chat/helpers.go:159-162 | escaping can be undone |
| LoginRateLimit.LoginRateLimiter.Allow | backend/internal/auth/rate_limit.go:39-58 | the answer and the new entry of the key; other keys are untouched |
| LoginRateLimit.LoginRateLimiter.RecordFailure | backend/internal/auth/rate_limit.go:60-80 | the new entry of the key; other keys are untouched |
| LoginRateLimit.LoginRateLimiter.Reset | backend/internal/auth/rate_limit.go:82-86 | forgets the key; other keys are untouched |
| LoginRateLimit.RunTracks | backend/internal/auth/handler.go:67-97 | after any sequence of attempts the entry tells the truth about the failures recorded so far |
| LoginRateLimit.BlockedExactly | backend/internal/auth/rate_limit.go:39-80 | after any run a key is blocked exactly for ten minutes from its last failure, if that was at least the fifth of its epoch |
| LoginRateLimit.FailureCounts | backend/internal/auth/rate_limit.go:60-80 | when a failure opens an epoch, when it counts on, and when it blocks |
| LoginRateLimit.AtMostEightInAnyWindow | backend/internal/auth/rate_limit.go:39-80 | every half-open window of ten minutes contains at most eight recorded failures |
| LoginRateLimit.EightIsReached | backend/internal/auth/rate_limit.go:39-80 | eight are possible: the bound is exact |
| LoginRateLimit.AtMostFiveWhenSpaced | backend/internal/auth/rate_limit.go:39-80 | runs in which every epoch opens a window or more after the failure before it stay at five in every window |
| LoginRateLimit.FiveExactly | backend/internal/auth/rate_limit.go:39-80 | a run stays at five in every window if and only if no wrong attempt is let through, by an epoch that counts fewer than five, while the fifth last failure is still within the window |
| LoginOverlap.RunTracked | backend/internal/auth/handler.go:67-97 | when attempts overlap, checks and recordings in any order, the entry still describes the failures recorded so far |
| LoginOverlap.AtMostInAnyWindow | backend/internal/auth/handler.go:67-97 | with at most k attempts between check and recording at a time, any window contains at most 2k + 6 recorded failures |
| LoginOverlap.BoundIsReached | backend/internal/auth/handler.go:67-97 | for every k there is an interleaving with 2k + 6 failures in one window |
| LoginOverlap.SequentialIsOneInFlight | backend/internal/auth/handler.go:67-97 | attempts that follow one another are the runs with one in flight |
| LoginRateLimit.RetryAfterInRange | backend/internal/auth/rate_limit.go:47-50 | a reported retry-after lies between 0 and 600 seconds |
| LoginRateLimit.RetryAfterIsWait | backend/internal/auth/rate_limit.go:49-50 | the key stays blocked for the reported seconds, and is free one second later |
| LoginRateLimit.CheckForgets | backend/internal/auth/rate_limit.go:43-57 | a check forgets an entry if and only if it blocks nothing and its first failure is more than ten minutes old |
| MarkdownExport.BuildConversationMarkdown | frontend/src/pages/chat-page/conversation-transfer-utils.ts:6-44 | the loops over messages and attachments compute the text |
| MarkdownExport.ExportIsRendered | frontend/src/pages/chat-page/conversation-transfer-utils.ts:23-40 | the text is that of the same messages with their attachment links written in front of the content |
| MarkdownExport.LinkReads | frontend/src/pages/chat-page/conversation-transfer-utils.ts:26-34 | name, url and kind of an attachment can be read back from its link line |
| MarkdownExport.ChatRoundTripExactly | frontend/src/pages/chat-page/conversation-transfer-utils.ts:6-44 | importing the export of any messages, attachments included, gives each message's links and content if and only if there are messages and all these texts are clean |
| MarkdownTransfer.ParseConversationMarkdownImport | frontend/src/pages/chat-page/conversation-transfer-utils.ts:73-134 | the loop over lines computes `Imported` |
| MarkdownTransfer.FlushImportedMessage | frontend/src/pages/chat-page/conversation-transfer-utils.ts:173-191 | a section becomes a message unless it is blank or has no role |
| MarkdownLines.TrimSectionBlankLines | frontend/src/pages/chat-page/conversation-transfer-utils.ts:193-205 | both loops drop exactly the blank lines at the ends |
| MarkdownTransfer.RoundTripExactly | frontend/src/pages/chat-page/conversation-transfer-utils.ts:12-43 | exporting messages under a non-blank one-line title and importing the text gives the same messages if and only if there are any and each is clean: non-empty, no CR, first and last line not blank, no line a role heading |
| MarkdownTransfer.ModelReturns | frontend/src/pages/chat-page/conversation-transfer-utils.ts:106-132 | the model name in the header comes back trimmed, and a blank one leaves no settings |
| MarkdownTransfer.HeadingsAreRead | frontend/src/pages/chat-page/conversation-transfer-utils.ts:193-205 | which headings open a user or an assistant section |
| MarkdownTransfer.TitleReturns | frontend/src/pages/chat-page/conversation-transfer-utils.ts:78-128 | a plain title comes back unchanged |
| MarkdownTransfer.MarkIsIgnored | frontend/src/pages/chat-page/conversation-transfer-utils.ts:78-79 | a byte order mark makes no difference to an import |
| MarkdownTransfer.ImportsAreClean | frontend/src/pages/chat-page/conversation-transfer-utils.ts:78-117 | every message that an import yields, from any text, is clean |
| MarkdownTransfer.ImportIsStable | frontend/src/pages/chat-page/conversation-transfer-utils.ts:73-134 | import, export and import again gives the same messages as the first import, for every text that imports |
| MarkdownTransfer.ResolvedTitleUsable | frontend/src/pages/chat-page/conversation-transfer-utils.ts:119-160 | the title an import settles on is never blank and always one line |
| MarkdownTransfer.TitleIsChosen | frontend/src/pages/chat-page/conversation-transfer-utils.ts:119-127 | the heading is preferred to the file name and that to the fallback, each if it has a usable character; all usable characters stay in order, and a plain name is not changed |
| MarkdownTransfer.ExtensionGoes | frontend/src/pages/chat-page/conversation-transfer-utils.ts:119-127 | exactly the three importable extensions are dropped from a file name, in upper or lower case |
| Integrity.CloneUintSlice | backend/internal/chat/agent_defaults.go:3-20 | the loop computes `Cloned` |
| Integrity.ClonedExactly | backend/internal/chat/agent_defaults.go:3-20 | the result has no repetitions and exactly the non-zero values |
| Integrity.ClonedKeeps | backend/internal/chat/agent_defaults.go:3-20 | a list without zeros and repetitions comes back in the same order |
| Integrity.ClonedInOrder | backend/internal/chat/agent_defaults.go:3-20 | the non-zero values without repetitions, in the order in which each comes first |
| Integrity.FilterKnowledgeSpaceIDs | backend/internal/rag/knowledge_space_service.go:117-125 | the loop computes `Filtered` |
| Integrity.FilteredExactly | backend/internal/rag/knowledge_space_service.go:98-125 | exactly the deleted id goes, distinctness stays, and the length tells whether it was there |
| Integrity.CountIsLength | backend/internal/chat/service_validation.go:33-41 | the count equals the number of ids if and only if they are distinct and all the user's |
| Integrity.RequestKeepsIntegrity | backend/internal/chat/conversation_mutations.go:13-135 | every request keeps: at most one active preset per user; every non-zero preset id on a user or conversation names a preset of that user; every conversation's space ids are distinct, non-zero and owned |
| Integrity.RunKeepsIntegrity | backend/internal/provider/preset_service.go:57-219 | the same after any requests of any users in any order |
| Integrity.CreationStores | backend/internal/chat/conversation_mutations.go:26-88 | accepted exactly if the named spaces and preset are the user's, and then stored as given |
| Integrity.UpdateStores | backend/internal/chat/conversation_mutations.go:212-277 | an accepted update stores the given preset and spaces, keeps what was not given, and changes no other row; a refused one changes nothing |
| Integrity.ConversationIsDeleted | backend/internal/chat/conversation_mutations.go:111-135 | exactly the row of the user's conversation goes |
| Integrity.SettingsStore | backend/internal/chat/service_settings.go:35-57 | the default becomes the given preset if it is the user's, and nothing else changes |
| Integrity.PresetIsActivated | backend/internal/provider/preset_service.go:163-191 | the preset is the only active one of its user, and no preset changes its owner or goes away |
| Integrity.PresetIsDeleted | backend/internal/provider/preset_service.go:193-219 | the row goes, and every reference of its owner to it, and nothing else |
| Integrity.SpaceIsDeleted | backend/internal/rag/knowledge_space_service.go:68-115 | the space goes, and out of its owner's conversations, whose other ids stay in order, and nothing else |
| Integrity.RowIsAdded | backend/internal/rag/knowledge_space_service.go:28-66 | a new user has no default; a new space is added and nothing else changes |
| Services.Database.ValidateKnowledgeSpaceOwnership | backend/internal/chat/service_validation.go:27-44 | comparing counts accepts exactly the lists whose ids, zeros aside, are all the user's |
| Services.Database.ValidateProviderPresetOwnership | backend/internal/chat/service_validation.go:9-25 | accepts none, zero, or a preset of the user |
| Services.Database.CreatePreset | backend/internal/provider/preset_service.go:57-105 | the new preset is the user's only active one |
| Services.Database.ActivatePreset | backend/internal/provider/preset_service.go:163-191 | refuses a foreign preset, else makes it the only active one |
| Services.Database.DeletePreset | backend/internal/provider/preset_service.go:193-219 | removes the preset and every reference of its owner to it |
| Services.Database.UpdateChatSettings | backend/internal/chat/service_settings.go:35-58 | stores a default preset only if it is the user's |
| Services.Database.DeleteSpace | backend/internal/rag/knowledge_space_service.go:68-88 | removes the space and every reference of its owner's conversations to it |
| Services.Database.CleanupConversationReferences | backend/internal/rag/knowledge_space_service.go:98-115 | the loop over conversations takes the id out of each of the owner's lists |
| Services.Database.CreateConversation | backend/internal/chat/conversation_mutations.go:26-88 | stores a conversation only with owned spaces and an owned preset; ImportConversation writes the same fields |
| Services.Database.UpdateConversation | backend/internal/chat/conversation_mutations.go:212-277 | the same for the fields an update names |
| Services.Database.ResolvePresetForUser | backend/internal/provider/resolve_service.go:49-98 | an explicit id must exist, a default that does not is passed over, then the active preset |
| Services.ActivatedIsActive | backend/internal/provider/preset_service.go:88-99 | after creating or activating a preset it is the active one, and other users' active presets are as before |
| Services.StoredPreferenceResolves | backend/internal/provider/resolve_service.go:49-69 | after any run of requests a conversation's own preference never resolves to a missing record, and what it resolves to is the owner's |
| Services.ResolvesInOrder | backend/internal/provider/resolve_service.go:49-69 | an explicit preset is taken or refused; else the default if the user has it; else the active one |
| Services.StoredSpacesAreFound | backend/internal/rag/knowledge_document_service.go:261-269 | after any run of requests the count check of a search over a conversation's own spaces succeeds |
| Services.GivenSpacesAreFound | backend/internal/rag/knowledge_document_service.go:261-269 | for ids given with one message it succeeds if and only if each, zeros aside, is a space of the user |
| Services.OtherUsersUntouched | backend/internal/provider/preset_service.go:193-219 | no request of one user changes another's rows |
| Attachments.HydrateMessageAttachments | backend/internal/chat/message_attachments.go:85-121 | the two loops give each message the list of its link rows, or the list in its row if it has none |
| Attachments.ReplaceMessageAttachmentLinks | backend/internal/chat/message_attachments.go:52-83 | a message's old links go and each listed id gets one with its position, or the primary key refuses a list that repeats an id |
| Attachments.ValidateForUser | backend/internal/attachment/service.go:137-167 | the loop computes `Validated` |
| Attachments.ValidatedWhen | backend/internal/attachment/service.go:137-167 | validation succeeds if and only if every trimmed id is an upload of the user |
| Attachments.ValidatedExactly | backend/internal/attachment/service.go:137-167 | the result has no repetitions, names exactly what was given, and carries the stored details |
| Attachments.ValidatedInOrder | backend/internal/attachment/service.go:137-167 | the uploads come in the order in which they were given first |
| Attachments.ValidatedDoesNotRepeat | backend/internal/attachment/service.go:146-166 | validated lists are never refused |
| Hydration.StepKeepsLinked | backend/internal/chat/message_attachments.go:12-83 | uploads, writes, deletions, clean-ups and bulk deletions keep: a message's link rows are its written list, positions included, less uploads that are gone |
| Hydration.RowsAreKept | backend/internal/chat/message_attachments.go:95-110 | in any order the query may return, a message's rows come in the order of its list |
| Hydration.HydratesLastWritten | backend/internal/chat/message_attachments.go:85-121 | a message is shown with its last written list, less what a bulk deletion took, and with the list in its row if that is everything |
| Hydration.ShownIsStoredExactly | backend/internal/chat/message_attachments.go:85-121 | everything shown is still stored if and only if the message was written without attachments or one of them is left; the whole written list is shown if and only if all or none are left |
| Hydration.FinalizeStores | backend/internal/chat/generation_persistence.go:229-250 | the end of a run writes text, reasoning and status of one row and nothing else |
| Hydration.ShowsExactlyWhatWasWritten | backend/internal/chat/message_attachments.go:12-121 | without bulk deletions every message is shown with exactly its last written list after any run, even when message ids are used again |
| Hydration.CleanUpKeeps | backend/internal/attachment/service.go:227-264 | no clean-up of any list takes an upload that a message lists |
| Replay.MessageStore.CreateAssistantReply | backend/internal/chat/generation_persistence.go:13-48 | the user message and the placeholder are written with their links, or nothing is |
| Replay.MessageStore.PrepareAssistantReplay | backend/internal/chat/generation_persistence.go:50-104 | the outcome, and on success the reset message and the cut conversation |
| Replay.MessageStore.EditUserMessageForRegeneration | backend/internal/chat/generation_persistence.go:106-168 | the outcome, and on success the edited message, the cut conversation and the new placeholder |
| Replay.MessageStore.CleanupUnreferenced | backend/internal/attachment/service.go:227-264 | the loop removes exactly the uploads that are listed, up to space around the id, and that no link names |
| Replay.PreviousUserIs | backend/internal/chat/helpers.go:146-157 | the look-up finds the latest earlier user message of the conversation, or there is none |
| Replay.ReplayGoesThrough | backend/internal/chat/generation_persistence.go:58-78 | a replay goes through if and only if the message is an assistant message of the conversation in an allowed state with a user message before it |
| Replay.EditGoesThrough | backend/internal/chat/generation_persistence.go:114-130 | an edit goes through if and only if the message is the last user message of the conversation and the list names no upload twice |
| Replay.SentRows | backend/internal/chat/generation_persistence.go:13-48 | sending adds the user's text with its list and an empty streaming message, and changes no other row or link |
| Replay.SendShows | backend/internal/chat/generation_persistence.go:13-48 | what was sent is shown with its list, and every earlier message as before |
| Replay.ReplayKeepsPast | backend/internal/chat/generation_persistence.go:82-87 | a replay leaves all earlier messages and other conversations as they were, drops exactly the later ones, and empties its target but for the reasoning |
| Replay.EditKeepsPast | backend/internal/chat/generation_persistence.go:138-157 | an edit does too, gives the message the new text and list, and adds one empty streaming message behind it |
| Replay.ReplayFindsUser | backend/internal/chat/helpers.go:146-157 | after a replay and any clean-up the look-up of the user message cannot fail, and finds the message it found before |
| Replay.EditFindsUser | backend/internal/chat/generation_persistence.go:154-157 | after an edit the placeholder answers the edited message |
| Replay.SendFindsUser | backend/internal/chat/generation_persistence.go:13-48 | after sending the placeholder answers the sent message |
| Replay.ReplayShowsPast | backend/internal/chat/message_attachments.go:85-121 | after a replay and any clean-up every earlier message is shown with the attachments it had, and those shown from links are still stored |
| Replay.EditShowsPast | backend/internal/chat/message_attachments.go:85-121 | the same after an edit |
| Replay.EditShowsTarget | backend/internal/chat/message_attachments.go:85-121 | after an edit and any clean-up the edited message is shown with exactly its new list, all still stored, and the new message with nothing |
| Replay.ReplayShowsTarget | backend/internal/chat/message_attachments.go:85-121 | a replayed message is shown with nothing |
| Replay.DroppedUploadsStay | backend/internal/attachment/service.go:227-264 | what a clean-up behind a replay takes is exactly the listed uploads whose links were all the target's: links that dropped messages leave behind keep theirs |
| Replay.EditTakesExactly | backend/internal/attachment/service.go:227-264 | behind an edit it takes exactly the listed uploads that the new list does not carry and that only the edited message, or a dropped one whose id is used again, was linked to |
| Replay.LeftOverLinkKeepsUpload | backend/internal/attachment/service.go:378-387 | a reachable state in which a replay drops a message, no message lists its upload any more, and the clean-up leaves it stored |
| Replay.PurgedUploadIsShown | backend/internal/chat/message_attachments.go:112-118 | a reachable state in which an upload that a bulk deletion took is still shown |
| Cosine.CosineSimilarity | backend/internal/rag/knowledge_math.go:5-28 | the loop computes the score, and it lies in [-1, 1] |
| Cosine.CauchySchwarz | backend/internal/rag/knowledge_math.go:14-23 | dot² is at most the product of the norms, with equality if and only if one vector is a multiple of the other |
| Cosine.CauchySchwarzAlways | backend/internal/rag/knowledge_math.go:14-23 | the bound holds for zero vectors too |
| Cosine.ScoreSymmetric | backend/internal/rag/knowledge_math.go:5-28 | exchanging the vectors does not change the score |
| Cosine.ScoreScaled | backend/internal/rag/knowledge_math.go:5-28 | a positive factor does not change the score, a negative one negates it |
| Cosine.FullScoreIsParallel | backend/internal/rag/knowledge_math.go:24-27 | the score is 1 if and only if one vector is a positive multiple of the other on the common positions |
| Cosine.LawOfCosines | backend/internal/rag/knowledge_math.go:5-28 | the squared distance is the sum of the squared lengths less twice the lengths times the score, and a vector without length scores 0 |
| Chunking.ChunkText | backend/internal/rag/knowledge_chunking.go:10-36 | the loop over `start` and `end` computes `Chunks` of the words |
| Words.FieldsOfTrim | backend/internal/rag/knowledge_chunking.go:11-11 | trimming first does not change the words |
| Words.TrimExactly | backend/internal/rag/knowledge_chunking.go:11-11 | trimming takes the space at both ends, all of it and nothing else |
| Words.FieldsOfTwo | backend/internal/rag/knowledge_chunking.go:11-11 | any space divides the words before it from those behind it |
| Words.FieldsOfWord | backend/internal/rag/knowledge_chunking.go:11-11 | a word is its own only word |
| Words.FieldsOfJoin | backend/internal/rag/knowledge_chunking.go:26-26 | splitting joined words gives the words back |
| Chunking.ChunksAreWellCut | backend/internal/rag/knowledge_chunking.go:20-34 | all chunks but the last have 320 words, later ones more than 48, and each begins with the last 48 of the one before |
| Chunking.ChunkCount | backend/internal/rag/knowledge_chunking.go:11-35 | no chunk without words, one up to 320, else 1 + ceil((n - 320) / 272) |
| Chunking.ChunksRebuild | backend/internal/rag/knowledge_chunking.go:20-34 | the first chunk and each later one without its first 48 words are the document's words in order |
| Chunking.TextsRebuild | backend/internal/rag/knowledge_chunking.go:10-35 | the same read back from the chunk texts |
| Chunking.ChunkOfChunk | backend/internal/rag/knowledge_chunking.go:10-35 | chunking any produced chunk gives just that chunk |
| Paging.ListMessagesPage | backend/internal/chat/messages_page.go:20-66 | a page is the newest rows below the cursor, oldest first, with its first row as next cursor if rows remain; the limit is 50 if none is given and at most 200 |
| Paging.ReverseMessages | backend/internal/chat/messages_page.go:68-72 | the slice is reversed in place and nothing behind it changes |
| Paging.SelectedExactly | backend/internal/chat/messages_page.go:37-40 | the query selects exactly the conversation's rows below the cursor |
| Paging.CursorCuts | backend/internal/chat/messages_page.go:56-59 | moving the cursor to a selected row selects exactly the rows before it |
| Paging.PagesAreComplete | backend/internal/chat/messages_page.go:29-65 | following the cursor ends after max(1, ceil(n / limit)) pages, which put together oldest first are all rows with no loss or repeat |
| Paging.PageIs | backend/internal/chat/messages_page.go:29-65 | a limit from 1 to 200 is the page size, none means 50 and more means 200; the page holds the newest rows and says whether and where there are more |
| Paging.NewerRowsKeepOlderPages | backend/internal/chat/messages_page.go:37-40 | messages that arrive meanwhile do not change the older pages |

## Left out

- ReasoningStream.StreamingEqualsBatch: speaks of the recorded reasoning when the provider also sends native reasoning deltas; the two kinds interleave in the shown reasoning, which is then no longer the split of the text.
- AssistantStream.StreamIntoAssistantMessage: the branches on a failed `emit` are not modelled, because the only `emit` used is `run.publish`, which never reports an error; settings, history and the run summary are not modelled.
- RunService.ActKeepsInv: the service is a state machine over values with one step per critical section; only the registry map also exists as a class. Expiry of a timer is over-approximated: it may happen again. The time a timer takes, the cancelling of contexts and the grace period of a broken connection are not modelled.
- Resume.ExactlyOnce: covers clients that reconnect no more than 512 events behind, which is exactly when a replay has no gap (`ResumeIsGapFree`).
- LoginOverlap.AtMostInAnyWindow: successful logins, which reset the key, are not part of the runs; nor is a bound on how many attempts the server works on at a time.
- Sse.StreamSse: the last piece of the text decoder is empty or one more chunk. UTF-8 decoding, JSON encoding of payloads and response headers are not modelled.
- Attachments.ValidateForUser: the user's quota is a parameter, and validating and writing a list is one step, as within one request; an upload deleted by another request in between is not covered.
- Hydration.ShowsExactlyWhatWasWritten: the start-up migration that rebuilds links from the lists in the rows is not a step, and ids of new uploads are never ones used before.
- Services.Database.CreateConversation: quotas, titles, folders, tags and messages are not modelled; a request they refuse changes nothing. Users are never deleted by the application.
- Cosine.CosineSimilarity: over the reals, with the two square roots given; rounding to float32 is not modelled.
- MarkdownTransfer.TitleReturns: only plain titles are claimed to survive the round trip: the name cleaner is not idempotent.
- Paging.ListMessagesPage: the attachments of the page's messages are the subject of `Hydration`.
- Flushing of withheld partial tags at the end of a stream: the source does not do it.
- "At most one streaming message per conversation" is not kept by the source: the placeholder is written before the busy check.
- Rerank scores, prompt building, history trimming, quotas, HTTP and SQL execution, the file system, encryption, PDF extraction and the user interface.
- Validators and normalisers of single fields, session versions, data transfer objects: easy members.
