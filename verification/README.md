# Verification of the agent runtime's algorithms

A Dafny model of the parts of the agent runtime that carry real algorithms: the stream splitters, the
concurrent stream reader, the memory compaction loop, the rewriting of chat history, the byte scanners, and
the control of a run. Each module follows one source file; its methods have the loops and branches of the
Go code, and lemmas and contracts say what that code is for.

`dafny verify dfyconfig.toml` checks everything.

## What is modelled

- **GoStrings** - the few functions of Go's `strings` package that the code leans on. A Go string is a
  sequence of bytes (or of runes where the code ranges over runes), one `char` for each. `GoStrings.TrimSpaceIs` and
  `GoStrings.AsciiSpaces` say what trimming takes away.
- **ReasoningStream**, **LlmStream** (`agent/session/llm_stream.go`) - text that arrives in arbitrary chunks is
  split into text and `<think>` reasoning. The reference is a one-shot parse of the whole input; the loop carries
  the invariant that the parse of what was fed, continued by anything, goes on from the parser's state. Tool deltas
  are assembled per index. An event stream ends where it is closed, at an error, or at an abort.
- **StreamReader** (`agent/session/stream_reader.go`) - a reader and a ticker goroutine as a step system over their
  program counters, the two locks and the once. The pipe is an unbounded queue. All interleavings are covered; the
  source, the callback and the consumer may do anything at any time.
- **MemoryCompaction** (`agent/session/memory_compaction_levels.go`) - the loop that summarises the oldest entries.
  Entries are objects, because batches are looked up by pointer. The summariser is any function of the call number.
- **CompactionFates**, **CompactionRuns** - what one such step does to each entry, said on the memory as it is before
  the step, and what becomes of the last user's words over all rounds.
- **CompactionTerms**, **CoalesceTerms** - the main terms of the compaction and of the merging (which entries may go,
  how far a batch goes, which rows belong together), said in the fields of entries and rows and in plain numbers.
- **CoalesceSpec**, **MemoryMessages** (`agent/core_agent/memory_messages.go`) - the merging of the rows of one
  model round, first on values (which rows form a block, what a block becomes, what that keeps), then as the source
  does it, on message objects, with a proof that the two agree on the values and on which objects are passed on.
- **CoalesceTwice** - when a second pass of that merging changes nothing.
- **JsonArray** (`agent/core_agent/default_actions.go`) - the byte loop that cuts a streamed JSON array into its
  objects, against a grammar of brace-balanced objects, in both directions.
- **Jsonc**, **JsoncDocuments** (`agent/config/jsonc.go`) - the two passes that make JSON of JSONC, against a lexer,
  against positions in the text, and for whole documents against a grammar of JSONC (RFC 8259, sections 2 and 7,
  with comments and trailing commas).
- **JsonObjects** - the link between the two: every JSON object (RFC 8259, section 4) is one of the brace-balanced
  objects of JsonArray, so that arrays of JSON objects are split into them.
- **WorkerPool** (`agent/core_agent/tool_parallel.go`) - goroutines behind a counting semaphore as a step system.
- **Runner** (`agent/core_agent/runner.go`) - the admission of actions in a model round, its verdict, and the loop
  over rounds. A round starts from the actions its output is parsed to: control actions are handled during the
  dispatch, which ends when one gives an error back; tool calls are queued until everything is dispatched
  (`agent/core_agent/action_providers/compatible/stream.go`, `agent/core_agent/streamtypes/read.go`). Handlers, hooks,
  the stream and the model are oracles; deliveries are made one after the other.
- **Transcript**, **HistoryPairing** (`agent/memory/memory.go`) - the numbered transcript and the way back from its
  numbers to the entries; the pairing of native tool calls with the tool rows behind them.
- **Watchdogs** (`agent/core_agent/tool_repeat_watchdog.go`, `agent/core_agent/silent_tool_watchdog.go`) - when the
  two trackers warn, over whole histories of calls.
- **Sanitiser**, **SanitiserTies** (`agent/session/memory_compaction_output.go`) - what is kept of a summary, and when
  the text alone decides it.
- **Ecb** (`agent/ilink/cdn.go`) - ECB (section 6.1 of NIST SP 800-38A) with PKCS #7 padding (section 6.3 of
  RFC 5652), over any pair of block functions of which one undoes the other.

## Where the code does not do what one might expect

- A compaction step drops everything between the first and the last entry of its batch, protected entries included:
  exactly those with candidates in front and behind where the ones in front fall short of the target
  (`CompactionFates.ProtectedDroppedIff`; `CompactionFates.StepKeeps` for any entry). So the copy of the last user entry
  can be lost in a later round. `CompactionRuns.WordsLostIff` says exactly when a whole compaction loses the words,
  `CompactionRuns.NextRoundDropsIff` when the very next round does; `CompactionRuns.WordsAreLost` and
  `CompactionFates.CopyCanBeLost` give memories.
- The merging of chat rows is not idempotent. `CoalesceTwice.SecondPassIff` says exactly when a second pass changes
  nothing; `CoalesceTwice.TextsInFront`, `CoalesceTwice.CallsAroundText` and `CoalesceTwice.NilBetween` give inputs of
  each kind where it does. The merging also drops the text in front of a tool row that has a text of its own
  (`CoalesceSpec.PreludeText`).
- A tool row that stands behind a batch and names another call than the one at its place is consumed, and its output
  dropped (`HistoryPairing.OutputKeptIff` says exactly when, `HistoryPairing.OutputCanBeLost` gives a history).
- An array that the reader cuts off between two objects is accepted without an error (`JsonArray.JoinUndoesSplit`
  and `JsonArray.ShapeIsAccepted` together say exactly what is accepted).
- A callback of the stream reader that fails with io.EOF closes the pipe with that value, and the consumer cannot tell
  it from the end of the source. An io.EOF means that everything was copied exactly when no callback failed so
  (`StreamReader.CleanEnd`); `StreamReader.EofLosesBytes` is a run that loses the rest of the source.
- An event of type "error" without an error ends a stream as if it were complete and empty (`LlmStream.ErrIff`).
- Removing trailing commas is not idempotent; `Jsonc.CommasTwice` says exactly when a second pass changes something.
- Decryption looks only at the last byte of the padding, and accepts the empty ciphertext. An accepted ciphertext is
  the encryption of what it decrypts to exactly when it is not empty and its padding is uniform (`Ecb.ReencryptsIff`);
  otherwise it is the encryption of nothing (`Ecb.EncryptionOfNothing`, `Ecb.LoosePadding`).
- An error that the callback of a *tool call* returns (a done context, a failed memory record) does not stop the tool
  calls behind it (`Runner.ToolsRunOn`), while one that the callback of a control action returns ends the dispatch of
  what is parsed behind it (`Runner.ControlsEnd`); `Runner.HandlerRunsIff` has the exact condition. Either makes the
  round fail in the end, but for an io.EOF that ended the dispatch, or an unexpected end of file that ended it behind
  another action: of these nothing is heard, and what was parsed behind is lost (`Runner.ReadErrIff`,
  `Runner.LostSilently`).
- An answer is handled before the tool calls that the model wrote in front of it: they do not run, and the round
  fails (`Runner.AnswerBeforeTools`).
- Of several dominating phrases that stand in a summary equally often and are equally long, the one that is met first
  decides the cut (`Sanitiser.FirstMetWins`), so what is kept can depend on the order in which a map is ranged:
  `SanitiserTies.OrderDecides` is such a summary. The text alone decides exactly when a phrase stands three times in a
  row at its start or at most one dominating phrase is maximal (`Sanitiser.RepetitionUniqueIff`).
- A run keeps the answer tool as its only tool, and the flag for the extra round, exactly when every round of the limit
  goes on and the message cannot be updated for the extra one (`Runner.Run`, `Runner.CanStopShort`).
- The error for a summary that truncation leaves empty never occurs (`Sanitiser.SanitizeMemoryCompactionSummary`).

## Model

| member | source | states |
|---|---|---|
| ReasoningStream.UnparseParse | agent/session/llm_stream.go:214-258 | The one-shot parse loses nothing: writing every switch back as its tag gives the input; and no tag starts at a byte it reports |
| ReasoningStream.ParseUnparse | agent/session/llm_stream.go:214-258 | A log is the parse of the input it stands for exactly when its bytes carry the current mode and no tag starts at one of them |
| ReasoningStream.ParseAtTag | agent/session/llm_stream.go:232-255 | Up to the first tag the parse reports the bytes in front of it, then a switch, then the parse of what follows in the other mode |
| ReasoningStream.ParseCarry | agent/session/llm_stream.go:260-268 | What is further than a tag's length less one from the end can be reported whatever comes next |
| ReasoningStream.ResumesConserves | agent/session/llm_stream.go:205-258 | Everything emitted with its tags written back, then the buffer, is the input so far |
| ReasoningStream.MergeIsRuns | agent/session/llm_stream.go:191-194 | Segments merged by kind are determined by the bytes they carry, so they do not depend on where the splitter cut |
| ReasoningStream.ReasoningParser.constructor | agent/session/llm_stream.go:196-203 | A new parser is at the start of a text with nothing carried |
| ReasoningStream.ReasoningParser.Feed | agent/session/llm_stream.go:205-208 | A feed emits exactly the bytes it logs; the parse of all input, continued by anything, goes on from the parser's state; nothing is lost; the carried buffer is shorter than the tag searched for |
| ReasoningStream.ReasoningParser.Flush | agent/session/llm_stream.go:210-212 | What was emitted since the start is the one-shot parse of everything fed, and nothing is carried any more |
| ReasoningStream.ReasoningParser.Consume | agent/session/llm_stream.go:214-258 | The shared loop: segments say what the log says; without a flush the parse resumes at the state left, with a flush the buffer is parsed to its end |
| ReasoningStream.SplitBuffer | agent/session/llm_stream.go:260-268 | Carries the last bytes that may begin a tag (all, if the buffer is shorter than the tag) and emits the rest |
| ReasoningStream.SplitChunks | agent/session/llm_stream.go:205-268 | Chunk invariance: for every way of cutting a text, feeding the chunks and flushing gives the text and reasoning bytes, and the merged segments, of the one-shot parse of the whole; these are the bytes that the text means as it was written, with `<think>` and `</think>` around reasoning |
| ReasoningStream.ThinkBlock | agent/session/llm_stream.go:216-255 | `<think>` opens reasoning, `</think>` ends it, and what is behind is read like a new text: for every text without the one and reasoning without the other |
| ReasoningStream.OpenThink | agent/session/llm_stream.go:219-255 | A `<think>` that is not closed leaves the rest as reasoning; `PlainText`: without it everything is text |
| ReasoningStream.ReadsAsWritten | agent/session/llm_stream.go:214-258 | A text written as plain text and reasoning blocks in turn is read block by block as it was meant |
| ReasoningStream.EverythingIsWritten | agent/session/llm_stream.go:214-258 | Every input is such a text |
| LlmStream.InterleavingInvariance | agent/session/llm_stream.go:115-132 | The built calls and their order depend only on the fragments that each index received |
| LlmStream.SwapNeighbours | agent/session/llm_stream.go:107-138 | Neighbouring events that are not both text and not fragments of one index may be swapped without changing the text or any index's fragments |
| LlmStream.AscendingUnique | agent/session/llm_stream.go:293-297 | A set of indexes has one ascending order |
| LlmStream.SortInts | agent/session/llm_stream.go:297 | Sorting gives the ascending list of the same indexes |
| LlmStream.EmitSegments | agent/session/llm_stream.go:270-287 | The text builder grows by the text bytes of the segments; the callback gets all their bytes, with kinds and in order |
| LlmStream.AddFragment | agent/session/llm_stream.go:115-129 | After a tool delta each builder still is what its index's fragments assemble to: last non-empty id and name, arguments concatenated |
| LlmStream.BuildToolCalls | agent/session/llm_stream.go:289-316 | One call for each builder, in ascending order of the index, whatever order the map is ranged in |
| LlmStream.Collect | agent/session/llm_stream.go:84-140 | The loop over events stops at the first error event or abort only; otherwise the text is parsed whole and the builders, finish reason and usage follow from all events |
| LlmStream.Stream | agent/session/llm_stream.go:39-147 | Unless an event stops it: the text is the text part of the one-shot parse of all deltas, the calls are what each index's own fragments assemble to in ascending order, finish and usage are the last ones; the callback saw the bytes of the parse and the reasoning deltas of the provider, shuffled into one another with each in its order, and the tool deltas as they came. The first event that stops it decides the result |
| LlmStream.ErrIff | agent/session/llm_stream.go:104-105 | The result is an error exactly when, among error events and aborts, the first one is an abort or brings an error |
| LlmStream.CallIs | agent/session/llm_stream.go:121-126 | A call has the last ID and the last name that one of its fragments brought |
| LlmStream.ArgumentsAre | agent/session/llm_stream.go:127-129 | A call has the arguments of its fragments, one behind the other |
| LlmStream.FinishIs | agent/session/llm_stream.go:133-137 | The finish reason is that of the last finish event |
| LlmStream.UsageIs | agent/session/llm_stream.go:133-137 | The usage is that of the last finish event that brings any |
| StreamReader.InvStep | agent/session/stream_reader.go:23-151 | Every step of every goroutine keeps the invariant: locks, places, bytes, calls, the sealed end and who closes |
| StreamReader.RunInv | agent/session/stream_reader.go:23-151 | So it holds after every run, whatever the interleaving |
| StreamReader.CallbacksSeeGrowingPrefixes | agent/session/stream_reader.go:59-89 | Callbacks see growing prefixes of the source, one at a time, and only the last can fail; the consumer has a prefix of the source |
| StreamReader.NoCallAfterError | agent/session/stream_reader.go:73-83 | Once the callback has failed it is never called again |
| StreamReader.CleanEnd | agent/session/stream_reader.go:110-151 | An io.EOF at the consumer means that it got exactly the source's bytes, that the source ended cleanly and that the callback accepted the full content and never failed, exactly when no callback failed with io.EOF |
| StreamReader.EndStays | agent/session/stream_reader.go:48-57 | After its end the consumer gets nothing more, and after the end of a complete copy nothing is called or read any more |
| StreamReader.EofLosesBytes | agent/session/stream_reader.go:73-104 | A run in which the ticker's callback fails with io.EOF: the consumer sees a clean end and never gets the second chunk |
| StreamReader.EndVerdict | agent/session/stream_reader.go:134-149 | Unless the source failed, the consumer's end is io.EOF exactly when nothing failed or the callback failed with io.EOF; when both failed it is the error of one of them; any other error is the callback's or the source's, never the pipe's own |
| StreamReader.RecordedErrorWins | agent/session/stream_reader.go:113-137 | A callback error that is recorded while the reader has not reached its check, and the pipe is open, is the consumer's end in every later state |
| StreamReader.FailedTickerCloses | agent/session/stream_reader.go:98-103 | A ticker whose callback has failed closes the pipe itself, without the reader |
| StreamReader.TickReports | agent/session/stream_reader.go:59-76 | A tick calls the callback with the content exactly when that is not what was reported last |
| StreamReader.NotStuck | agent/session/stream_reader.go:48-108 | No deadlock: an unfinished goroutine can move or waits for one that can |
| StreamReader.ReaderWindsDown | agent/session/stream_reader.go:111-150 | Once the source has ended each step of the reader brings it nearer its end and no other step sets it back |
| StreamReader.ClosedOnce | agent/session/stream_reader.go:48-57 | The pipe is closed once; a later close changes nothing and nothing is written after it |
| MemoryCompaction.BatchUnique | agent/session/memory_compaction_levels.go:112-146 | The description of a batch fits exactly one list: the shortest run of oldest candidates that reaches the scope's share of the candidate tokens |
| MemoryCompaction.SelectL2BatchEntries | agent/session/memory_compaction_levels.go:112-146 | Selects that batch; it is empty exactly when there is no candidate, and one entry when the candidates have no tokens |
| MemoryCompaction.TakeUntil | agent/session/memory_compaction_levels.go:136-145 | The oldest candidates up to the first with which the target is reached |
| MemoryCompaction.FindLastRealUserEntry | agent/session/memory_compaction_levels.go:82-98 | The last entry that a user really wrote, none exactly when there is none |
| MemoryCompaction.BatchContainsEntryID | agent/session/memory_compaction_levels.go:158-168 | True exactly when the id is not zero and occurs in the batch |
| MemoryCompaction.ReplaceEntryBatch | agent/session/memory_compaction_levels.go:257-286 | Replaces exactly the span from the first to the last entry of the batch, everything in between included; leaves the list alone when no entry of the batch occurs |
| MemoryCompaction.BuildLevel2ReplacementEntries | agent/session/memory_compaction_levels.go:189-255 | Fresh entries with the stated contents: summary question, summary, and a copy of the preserved user entry, numbered from the oldest entry of the batch |
| MemoryCompaction.SummaryIsThere | agent/session/memory_compaction_levels.go:189-255 | After a round, where the span was: the question, behind it the trimmed summary as the assistant's words, and behind it the copy of the user's words when the ID of the last user entry occurs in the batch; every field of the three |
| MemoryCompaction.CloneMemoryEntries | agent/session/memory_compaction_levels.go:330 | The loop works on fresh, distinct copies of the entries that are not nil, in order |
| MemoryCompaction.SummariseOnce | agent/session/memory_compaction_levels.go:350-382 | One round does one step and logs it with the totals before and after |
| MemoryCompaction.LogsChain | agent/session/memory_compaction_levels.go:355-382 | Consecutive logs chain: each round starts from what the one before left, and its total before is the previous total after |
| MemoryCompaction.TokensFall | agent/session/memory_compaction_levels.go:386-388 | Rounds that shrink the memory take at least one token each |
| MemoryCompaction.CallBound | agent/session/memory_compaction_levels.go:349-389 | Before another call the memory is still above the target, which bounds the number of calls by the initial tokens |
| MemoryCompaction.Loop | agent/session/memory_compaction_levels.go:349-389 | Terminates for every summariser; totals strictly decrease in every round except possibly the last; it stops only when the target is met, there is no batch or summariser, the last round did not shrink, or the summariser failed |
| MemoryCompaction.TriggerIff | agent/session/memory_compaction_levels.go:72-80 | Compaction is due exactly when forced, or when limit and trigger are positive and a hundred times the tokens reach trigger times limit |
| MemoryCompaction.TargetIff | agent/session/memory_compaction_levels.go:57-70 | The target is met exactly when there is none or a hundred times the tokens stay below target plus one times limit |
| MemoryCompaction.RunGraduatedMemoryCompaction | agent/session/memory_compaction_levels.go:317-399 | When it runs at all, in plain numbers, and then the loop's guarantees for the result: entries, logs, summary, levels, totals, error and number of calls; the resulting memory holds the summary |
| CompactionTerms.BatchIs | agent/session/memory_compaction_levels.go:100-110 | A round takes only entries of level 0 to 2 that are no protected copy; none of these stands in front of its span, and inside the span it takes all of them |
| CompactionTerms.BatchReaches | agent/session/memory_compaction_levels.go:112-145 | How far a batch goes, in plain numbers: to the share in percent, 80 when none is given, of all tokens that may go |
| CompactionTerms.CountsAre | agent/session/memory_compaction_levels.go:148-156 | The tokens of an entry are the stored count, or the estimate where there is none |
| CompactionTerms.UserIs | agent/session/memory_compaction_levels.go:82-98 | The user entry of a round is the last one that is not synthetic, of the role user, and neither question nor copy of a compaction |
| CompactionTerms.StopsIff | agent/session/memory_compaction_levels.go:349-389 | The reasons to stop, in plain numbers and fields |
| CompactionTerms.RoundsStartAbove | agent/session/memory_compaction_levels.go:349 | Every round starts from a memory whose tokens are above the target |
| CompactionTerms.LoggedIDs | agent/session/memory_compaction_levels.go:371-382 | A log names the entries of the batch that have an ID, in order |
| CompactionFates.StepTokens | agent/session/memory_compaction_levels.go:349-382 | A round of the loop takes the tokens of its span from the total and adds those of its replacement |
| CompactionFates.CandidateInSpanIsInBatch | agent/session/memory_compaction_levels.go:100-146 | Every candidate inside the span of a batch belongs to the batch |
| CompactionFates.InBatchIff | agent/session/memory_compaction_levels.go:131-145 | A candidate is in the batch exactly when it is the first or the candidates in front of it fall short of the target |
| CompactionFates.InSpanIff | agent/session/memory_compaction_levels.go:262-284 | The span is exactly the entries of the batch and whatever stands between candidates of the batch |
| CompactionFates.StepKeeps | agent/session/memory_compaction_levels.go:112-146 | Exactly which entries a step drops, in terms of the memory before it: the first candidate, and behind it whatever has a candidate at or behind it while those in front fall short of the target |
| CompactionFates.ProtectedDroppedIff | agent/session/memory_compaction_levels.go:100-110 | A protected entry is dropped exactly when there are candidates in front of it and behind it, and those in front are below the target |
| CompactionFates.LastUserFate | agent/session/memory_compaction_levels.go:350-370 | What becomes of the last real user entry: when it is dropped, by the same condition, and that it is copied exactly when its id is positive and occurs in the batch |
| CompactionFates.LastUserSurvives | agent/session/memory_compaction_levels.go:350-370 | With a positive id and a level of 0 to 2 it survives every step, itself or as a copy with the same trimmed content |
| CompactionFates.CopyCanBeLost | agent/session/memory_compaction_levels.go:262-284 | A memory in which the copy is lost: two candidates around it, all summarised at once |
| CompactionRuns.WordsLostIff | agent/session/memory_compaction_levels.go:349-389 | Over all rounds: the words of the last user entry (with a positive id and a level of 0 to 2) are in the memory, in the entry or in a protected copy, exactly as long as no round drops the copy |
| CompactionRuns.NextRoundDropsIff | agent/session/memory_compaction_levels.go:349-382 | The round behind the one that made the copy drops it exactly when candidates stand behind the first span and the two summary entries fall short of the next target |
| CompactionRuns.WordsAreLost | agent/session/memory_compaction_levels.go:349-389 | A memory of three entries: every compaction of it that comes to its end, whatever the summaries say, makes two rounds or more and loses the words |
| CoalesceSpec.FirstBlockRows | agent/core_agent/memory_messages.go:45-115 | A block covers a non-empty front part of the rows |
| CoalesceSpec.BlocksPartition | agent/core_agent/memory_messages.go:45-121 | The blocks are a partition of the rows; each merge is one contiguous run that shares a non-empty source id (or a single row), with at most one text row in front, crosses no user, system, multi-tool or other-source row, and goes on as far as it can |
| CoalesceTerms.MergeIs | agent/core_agent/memory_messages.go:125-161 | A merge begins with an assistant row of one call; the text in front is an assistant row without calls, not synthetic, of the same trimmed source (both may be blank); it takes in nils, tool rows, and one-call rows of its own non-blank source |
| CoalesceTerms.TextIsMerged | agent/core_agent/memory_messages.go:51-54 | Every such text directly in front of a one-call row is merged into it |
| CoalesceTerms.CallIsTaken | agent/core_agent/memory_messages.go:57-85 | A merge goes on: a row that may be taken in, with only such rows between, is in it |
| CoalesceTerms.BlockBecomes | agent/core_agent/memory_messages.go:86-119 | What remains of a block: nothing of a nil, a row as it is, of a merge one message with all calls in order and then the tool results |
| CoalesceTerms.StaysIn | agent/core_agent/memory_messages.go:39-123 | No row is lost but nils, calls merged into others, and texts that belong to the call behind them |
| CoalesceSpec.CoalesceKeeps | agent/core_agent/memory_messages.go:39-123 | The flattened sequence of calls, the sequence of tool results, and all rows that are not merged stay as they were |
| CoalesceSpec.PairingSurvives | agent/core_agent/memory_messages.go:39-123 | If every tool result belonged to a call of its nearest preceding non-tool message, it still does |
| CoalesceSpec.PreludeText | agent/core_agent/memory_messages.go:177-201 | Whose text each field of a merged row has: content, phase and raw output are the tool row's own unless blank, reasoning and signature those in front unless blank, everything else the tool row's |
| CoalesceTerms.ContentIs | agent/core_agent/memory_messages.go:177-185 | The text in front is taken over exactly when the call has no text of its own, whatever form the two contents have |
| MemoryMessages.CloneModelMessageForMerge | agent/core_agent/memory_messages.go:163-175 | A fresh object with the same value |
| MemoryMessages.MergeAssistantPreludeInto | agent/core_agent/memory_messages.go:177-201 | The fields of the copy afterwards; only the copy is written |
| MemoryMessages.AbsorbRows | agent/core_agent/memory_messages.go:57-85 | The inner loop takes in exactly the rows that join: calls into the merged message, tool results behind it |
| MemoryMessages.MergeRound | agent/core_agent/memory_messages.go:51-115 | One merge turns the rows of one block into what the block becomes: a new object, and the tool results as they are |
| MemoryMessages.CoalesceAssistantNativeToolMessages | agent/core_agent/memory_messages.go:39-123 | The pass on objects gives what the pass on values gives, without writing to any message it was given; rows that are not merged and all tool results are the given objects, and a merged row is none of them |
| CoalesceTwice.SecondPassIff | agent/core_agent/memory_messages.go:39-123 | A second pass changes nothing exactly when, nils aside, no kept text stands in front of a one-call merge of its round and no two one-call merges of one round are neighbours |
| CoalesceTwice.TextsInFront | agent/core_agent/memory_messages.go:51-54 | Of two text rows in front of a tool row the first pass takes one and a second pass the other |
| CoalesceTwice.CallsAroundText | agent/core_agent/memory_messages.go:66-83 | Two calls of one round around a text of that round: the first pass joins the text to the second call, and a second pass joins the calls |
| CoalesceTwice.NilBetween | agent/core_agent/memory_messages.go:47-53 | A nil between a text and its call stops the first pass only |
| JsonArray.StreamJSONArrayObjects | agent/core_agent/default_actions.go:185-277 | The byte loop delivers the objects and the result of the recursive reading of the input, for every reader, callback and way the input ends |
| JsonArray.Switch | agent/core_agent/default_actions.go:239-263 | One byte moves depth, string and escape state as the scanner does, and ends the object exactly at depth 0 |
| JsonArray.ThroughBody | agent/core_agent/default_actions.go:239-263 | The scanner passes a brace-balanced body whole, including braces and escaped quotes in strings, and comes out one level up |
| JsonArray.SplitUndoesJoin | agent/core_agent/default_actions.go:185-277 | For any balanced objects, separators made of blank, tab, newline, return and comma, white space in front and bytes behind the bracket, the splitter delivers exactly the objects, in order |
| JsonArray.RefusalStops | agent/core_agent/default_actions.go:226-232 | When the k-th callback refuses, the objects before it were delivered, its pipe is closed empty, and its error is the result |
| JsonArray.OtherByteIsRefused | agent/core_agent/default_actions.go:203-225 | Any byte but blank, tab, newline, return, comma, `{` and `]` between objects is refused after the objects before it were delivered; likewise in front of the array |
| JsonArray.CutOff | agent/core_agent/default_actions.go:265-277 | An input that ends or fails inside an object leaves its pipe with the bytes that came, closed at the end of the file only; between objects the end of the file is no error |
| JsonArray.ReadBack | agent/core_agent/default_actions.go:236-263 | The bytes of a delivered object are the text of a balanced object |
| JsonArray.JoinUndoesSplit | agent/core_agent/default_actions.go:185-277 | Whatever is accepted is white space and an array of balanced objects with separators (possibly cut off between objects), and the pipes carry exactly those objects |
| JsonArray.ShapeIsAccepted | agent/core_agent/default_actions.go:185-277 | Everything of that shape is accepted with those objects |
| JsonObjects.ObjectOf | agent/core_agent/default_actions.go:236-263 | Every JSON object is a balanced object for the byte loop |
| JsonObjects.JsonArraysAreSplit | agent/core_agent/default_actions.go:185-277 | An array of JSON objects is split into exactly the texts of its objects, in order |
| Jsonc.StripComments | agent/config/jsonc.go:16-71 | The flag loop computes the recursive stripping |
| Jsonc.LexLosesNothing | agent/config/jsonc.go:22-69 | The tokens of a text (other bytes, string literals, comments) are the whole text |
| Jsonc.StripKeepsTokens | agent/config/jsonc.go:16-71 | Stripping removes the comments and nothing else: what is left reads as the same tokens, every literal byte for byte |
| Jsonc.StripOnce | agent/config/jsonc.go:16-71 | No comment opener is left outside strings, a text is unchanged exactly when it has no comment, and a second pass changes nothing |
| Jsonc.LookAhead | agent/config/jsonc.go:99-106 | Finds whether a closing bracket is next behind white space |
| Jsonc.StripTrailingCommas | agent/config/jsonc.go:73-111 | The flag loop computes the recursive removal |
| Jsonc.CommasDropExactly | agent/config/jsonc.go:73-111 | Exactly the commas outside strings that only white space separates from a closing bracket are deleted |
| Jsonc.UnchangedIff | agent/config/jsonc.go:73-111 | A text is unchanged exactly when it has no such comma |
| Jsonc.CommasTwice | agent/config/jsonc.go:73-111 | A second pass changes nothing exactly when no comma stands in front of one that is deleted with only white space between |
| Jsonc.CommasNotIdempotent | agent/config/jsonc.go:73-111 | `[1,,]` is changed again by a second pass |
| JsoncDocuments.JsoncBecomesJson | agent/config/jsonc.go:8-10 | The passes take any JSONC document to the document without comments and then to it without trailing commas, changing nothing else; a last line comment may be ended by the end of the file |
| JsoncDocuments.JsoncToJson | agent/config/jsonc.go:8-10 | What reaches the decoder is a plain JSON text of the same value |
| JsoncDocuments.PlainJsonStays | agent/config/jsonc.go:8-10 | Each pass is the identity on JSON |
| WorkerPool.Capacity | agent/core_agent/tool_parallel.go:12-20 | The concurrency of every pool: the given one when it is between 1 and the count, ten for none, the count when it is less than these |
| WorkerPool.CountsStep | agent/core_agent/tool_parallel.go:22-40 | Every step keeps the semaphore equal to the tasks that hold a token, within capacity, and the group equal to the tasks not gone |
| WorkerPool.RunInv | agent/core_agent/tool_parallel.go:22-44 | The whole invariant holds after every run |
| WorkerPool.AtMostMax | agent/core_agent/tool_parallel.go:31-33 | At no time do more tasks run than the capacity, and fn is called at most once for an index |
| WorkerPool.ReturnsRight | agent/core_agent/tool_parallel.go:28-44 | When it returns every index was called exactly once and is gone; the result is nil exactly when no task failed and otherwise is the error of a task |
| WorkerPool.FirstErrorWins | agent/core_agent/tool_parallel.go:34-40 | The error offered first is kept to the end |
| WorkerPool.NeverStuck | agent/core_agent/tool_parallel.go:28-44 | Some step is always possible until it returns |
| WorkerPool.RunEnds | agent/core_agent/tool_parallel.go:28-44 | No run is longer than six steps for each task and two for the caller |
| Runner.Turn.ApplyControlAction | agent/core_agent/runner.go:468-583 | The flags after one control action, in every branch, and the error returned |
| Runner.Turn.ToolCallCallback | agent/core_agent/runner.go:686-785 | The same for one tool call, which never answers |
| Runner.Dispatch | agent/core_agent/action_providers/compatible/stream.go:83-103 | The parsed actions up to the first control action that gives an error back are dispatched: control actions handled in order, tool calls queued in order; the error is kept unless it is io.EOF |
| Runner.Wait | agent/core_agent/action_providers/compatible/stream.go:305-320 | The error kept is the result unless it is an unexpected end of file behind a dispatched action |
| Runner.ReadErrIff | agent/core_agent/action_providers/compatible/stream.go:207-216 | The reading of the output fails over an action exactly when a tool call gives an error back to the open round, or a control action does that is not silent |
| Runner.LostSilently | agent/core_agent/action_providers/compatible/stream.go:207-210 | A control action that gives io.EOF back: what is parsed behind it does not run, and the reading does not fail over the actions |
| Runner.UnexpectedEndIsHeard | agent/core_agent/action_providers/compatible/stream.go:309-313 | An unexpected end of file given back by the first action is heard; behind an action that was dispatched it is not |
| Runner.DeliverQueue | agent/core_agent/streamtypes/read.go:96-119 | The queued tool calls are delivered behind them, whatever errors they give back; the first of these is the result |
| Runner.HandlerRunsIff | agent/core_agent/runner.go:477-499 | The handler of a parsed action runs exactly when the action is dispatched, has a name, is in a live context, and nothing that is delivered before it answered or failed |
| Runner.ToolsRunOn | agent/core_agent/streamtypes/read.go:116-118 | A tool call whose result is not recorded gives its error back, and the next one still runs |
| Runner.ControlsEnd | agent/core_agent/action_providers/compatible/stream.go:95-98 | A control action that gives an error back ends the dispatch: what is parsed behind it does not run |
| Runner.AnswerBeforeTools | agent/core_agent/streamtypes/read.go:104-118 | An answer behind a tool call is handled first; the tool call does not run and the round fails |
| Runner.HandledInOrder | agent/core_agent/runner.go:468-785 | Handlers run once each: control actions in the order parsed, then tool calls in the order parsed |
| Runner.FlagsIff | agent/core_agent/runner.go:468-583 | There is no error exactly when nothing fails and an answer, if any, is the last of the list |
| Runner.ActedIff | agent/core_agent/runner.go:567-571 | The flag for other actions is set exactly when one that is no answer went through |
| Runner.ReturnedIff | agent/core_agent/runner.go:493-581 | A callback gave an error back exactly when an admitted action met a done context or was not recorded |
| Runner.AnswersIff | agent/core_agent/runner.go:477-567 | An action answers exactly when it is the control action "answer", in a live context, and handler and updates succeed |
| Runner.FailsIff | agent/core_agent/runner.go:468-566 | An action fails exactly when it has no name, or, in a live context, its handler fails without being refused by the mode, its refusal cannot be shown, or an update fails |
| Runner.ActsIff | agent/core_agent/runner.go:500-581 | An action acts exactly when it has a name, is in a live context, and succeeds without being an answer, or its refusal is shown and recorded |
| Runner.BackIs | agent/core_agent/runner.go:493-581 | The error a callback gives back: of a done context, else of the record, unless the action fails |
| Runner.FirstErrorStays | agent/core_agent/runner.go:468-583 | The error of a round is that of the first action that fails, or of the one behind the answer; nothing later replaces it |
| Runner.AnswerAloneIff | agent/core_agent/runner.go:810-812 | Answer seen, no error and nothing else acted: exactly for a list of deliveries that is one successful answer |
| Runner.OneAnswerIff | agent/core_agent/runner.go:810-812 | The same of the parsed actions: exactly when the first is an answer that succeeds, and either it is the only one or recording it ended the dispatch with io.EOF |
| Runner.Conclude | agent/core_agent/runner.go:793-994 | The verdict from the flags, the read error and the hooks: when the round ends the run, when it fails, and with which error |
| Runner.ExecuteAgentIteration | agent/core_agent/runner.go:362-995 | Without a text answer of the model's own a round ends the run exactly when nothing around it fails and the first action is the control action "answer" in a live context, its handler and updates succeed, and either it is recorded and the only one or recording it fails with io.EOF |
| Runner.Begin | agent/core_agent/runner.go:1073-1104 | An empty tool list is filled from the registry first; the first round is reached exactly when neither the user text, the message nor the supplements fail |
| Runner.Loop | agent/core_agent/runner.go:1106-1124 | Round after round, up to the limit: each is made exactly when the one before went on, its supplements were read and the message was updated; when the loop ends the run, goes on or fails |
| Runner.MakesUnique | agent/core_agent/runner.go:1050-1151 | The world of a run fixes the number of its rounds |
| Runner.Run | agent/core_agent/runner.go:1050-1151 | The number of rounds in terms of the world, at most one more than the limit (the state's, else the configured, else a thousand; one round in single-step mode), the extra one with the answer tool alone; success exactly when the last round ended the run or none was left; afterwards the tools are those of the first round again (the state's own or, when it has none, those of the registry), except exactly when every round of the limit goes on and the message cannot be updated for the extra one |
| Runner.CanStopShort | agent/core_agent/runner.go:1131-1137 | For every limit a world in which the tools are not restored |
| Transcript.EntryLines | agent/memory/memory.go:487-523 | The lines of one entry and the change to the suppressed messages |
| Transcript.MemoryTranscriptItemsFromEntries | agent/memory/memory.go:482-526 | The loop computes the numbered lines of all entries |
| Transcript.Numbering | agent/memory/memory.go:466-526 | MsgIDs are exactly 1..n, entry indexes never fall, no line is blank, no entry has more than two lines |
| Transcript.SuppressedIff | agent/memory/memory.go:495-517 | A request is left out exactly when an earlier entry of its model message showed the raw output and no entry of that message without a tool call came between |
| Transcript.LinesAre | agent/memory/memory.go:487-523 | The lines of an entry, said on its fields: raw output; for a tool call the request, unless shown elsewhere, and the result; else the text |
| Transcript.ResultIs | agent/memory/memory.go:895-907 | A tool result shows the output, else the error, else the info, else the title, else the status, or a fixed sentence for a success without output |
| Transcript.HasToolCallIff | agent/memory/memory.go:100-112 | An entry has a tool call exactly when one of seven fields is not blank |
| Transcript.OneMessageIff | agent/memory/memory.go:563-574 | Two entries are of one model message exactly when they name the same one, else have the same number |
| Transcript.MsgIDsToEntryIndexes | agent/memory/memory.go:529-561 | Succeeds exactly when there is a transcript, the list is not empty and all ids are in range; gives the entries by first mention; otherwise the error names what is missing |
| Transcript.FirstOccurrencesAre | agent/memory/memory.go:544-556 | The answer has exactly the entries meant, none twice, ordered by first mention |
| HistoryPairing.CollectFollowingToolRows | agent/memory/memory.go:313-326 | The tool rows that follow without a gap, at most the given number |
| HistoryPairing.BatchEntries | agent/memory/memory.go:364-391 | One entry for each call of a batch, in order, with its own row's answer when the row is for it |
| HistoryPairing.MemoryEntriesFromChatHistory | agent/memory/memory.go:328-444 | The loop gives the entries made row by row |
| HistoryPairing.ExactlyThese | agent/memory/memory.go:328-444 | The entries are exactly: text of batches, every call of every batch, and every other row that no batch takes - each once, in order, with the stated content |
| HistoryPairing.CallSays | agent/memory/memory.go:364-391 | The entry of a call: its own ID, name and arguments, the provider fields of its batch, and output, notes, error and status of its own row when there is one |
| HistoryPairing.BatchSays | agent/memory/memory.go:338-362 | When a batch has a text entry, and what it says |
| HistoryPairing.RowSays | agent/memory/memory.go:394-441 | The entry of a row on its own, for tool rows, rows whose role names the tool, and all others |
| HistoryPairing.RowIsAloneIff | agent/memory/memory.go:328-444 | Which rows have an entry of their own: all but batches, and tool rows behind a batch within the number of its calls |
| HistoryPairing.OutputKeptIff | agent/memory/memory.go:379-389 | A tool row's output is in the result, and in one entry, exactly when the row does not stand in the place of another call's; there output, error, notes and status are the row's own, each in its place |
| HistoryPairing.OutputCanBeLost | agent/memory/memory.go:382-387 | A history in which an output is lost: one call, and behind it a result that names another |
| Watchdogs.ToolRepeatTracker.Observe | agent/core_agent/tool_repeat_watchdog.go:44-82 | The tracker's new state and whether it warns, in every branch |
| Watchdogs.CountIsTrailingRun | agent/core_agent/tool_repeat_watchdog.go:57-70 | For any history and thresholds the count is the length of the trailing run of equal fingerprints |
| Watchdogs.WarningSchedule | agent/core_agent/tool_repeat_watchdog.go:71-81 | With one threshold T a call warns exactly when it is the T-th of its run, or ten, twenty, ... after that |
| Watchdogs.ScheduleOf | agent/core_agent/tool_repeat_watchdog.go:49-55 | T is what the calls bring, else what the tracker was made with, else five |
| Watchdogs.SilentToolTracker.Observe | agent/core_agent/silent_tool_watchdog.go:47-68 | The tracker's new state and whether it warns, in every branch |
| Watchdogs.SilentToolTracker.Reset | agent/core_agent/silent_tool_watchdog.go:38-44 | Count and warning are cleared |
| Watchdogs.SilenceIs | agent/core_agent/silent_tool_watchdog.go:38-68 | For any thresholds: the count is the length of the streak without output, and the tracker has warned exactly when some call of the streak had reached its threshold |
| Watchdogs.SpeaksUpOnce | agent/core_agent/silent_tool_watchdog.go:47-68 | With one threshold T it warns exactly at the T-th call of a streak, so once, and never for a shorter one |
| Watchdogs.SpeaksUpOf | agent/core_agent/silent_tool_watchdog.go:51-57 | T is what the calls bring, else what the tracker was made with, else ten |
| Sanitiser.TruncateConsecutiveRepeat | agent/session/memory_compaction_output.go:44-68 | The text is cut to its shortest phrase (of 12 to min(n/3, 200) runes) that stands three times in a row at its start, exactly when there is one |
| Sanitiser.CountPhrases | agent/session/memory_compaction_output.go:84-92 | How often each phrase of one length stands in the text, overlaps included, and where first |
| Sanitiser.BestOfLength | agent/session/memory_compaction_output.go:93-108 | No dominating phrase of the length beats the one kept; which one is kept is given by the order in which the map is ranged |
| Sanitiser.FirstMetWins | agent/session/memory_compaction_output.go:93-108 | Of the dominating phrases of one length that stand there most often, the first in the order of the map is kept |
| Sanitiser.TruncateDominantRepeatedPhrase | agent/session/memory_compaction_output.go:70-116 | Exactly when a phrase makes up most of the text, it is cut behind the first copy of one that stands there most often, and of those is the longest |
| Sanitiser.CutUniqueIff | agent/session/memory_compaction_output.go:93-115 | The text alone decides that cut exactly when at most one dominating phrase is maximal in number and then in length |
| Sanitiser.SecondIs | agent/session/memory_compaction_output.go:150-160 | The cut is at the first copy of the marker behind its first copy |
| Sanitiser.TruncateAgentPlanningLoop | agent/session/memory_compaction_output.go:133-148 | The first marker of the list that occurs twice and has forty runes in front of its second copy decides the cut; nothing is cut exactly when there is none |
| Sanitiser.PlanningIff | agent/session/memory_compaction_output.go:168-195 | What is refused as planning, on the trimmed text: one "let me start", two "the user asks", or three markers in more than 180 runes that name nothing done or current |
| Sanitiser.UsableIff | agent/session/memory_compaction_output.go:139-163 | A marker can be used when it stands there twice and forty trimmed runes stand in front of its second copy |
| Sanitiser.PeriodIff | agent/session/memory_compaction_output.go:44-68 | A phrase in a row has 12 to 200 runes and stands three times from the start |
| Sanitiser.DominatesIff | agent/session/memory_compaction_output.go:70-115 | A dominating phrase has 12 to 200 runes, at most half of the text, stands there three times, and has 55 percent of it |
| Sanitiser.TruncateRepetitive | agent/session/memory_compaction_output.go:34-42 | The phrase in a row decides when there is one, else the dominating phrase; without either the text stays |
| Sanitiser.RepetitionUniqueIff | agent/session/memory_compaction_output.go:34-42 | The text alone decides what is left without repetition exactly when a phrase stands three times in a row at its start or at most one dominating phrase is maximal |
| Sanitiser.SanitizeMemoryCompactionSummary | agent/session/memory_compaction_output.go:14-32 | The result is the judgement on what stands in front of the repetition and then of the planning, trimmed after each, and the only possible one when the text alone decides the cut; an accepted summary is a trimmed, non-empty front part of the trimmed input that does not look like planning; without repetition and loop it is the whole; one of the errors never occurs |
| SanitiserTies.OrderDecides | agent/session/memory_compaction_output.go:84-115 | A summary of 62 runes of which 13 or 44 are accepted, depending on the order in which the map is ranged |
| Ecb.CryptBlocks | agent/ilink/cdn.go:151-154 | The loop fills the buffer with the function of each block |
| Ecb.Pad | agent/ilink/cdn.go:199-204 | The buffer holds the plaintext and behind it the padding |
| Ecb.EncryptAESECB | agent/ilink/cdn.go:193-212 | Pads with PKCS #7 and encrypts each block |
| Ecb.DecryptAESECB | agent/ilink/cdn.go:141-164 | Decrypts each block and cuts the padding off, with an error for a broken length or padding length |
| Ecb.RoundTrip | agent/ilink/cdn.go:141-216 | Decryption gives back every plaintext, and the ciphertext has the announced size |
| Ecb.BlockByBlock | agent/ilink/cdn.go:207-209 | Each block of the result depends on its own block alone |
| Ecb.NotWholeIff | agent/ilink/cdn.go:147-149 | A ciphertext is refused for its length exactly when that is no multiple of 16 |
| Ecb.PaddingIs | agent/ilink/cdn.go:199-204 | The padded text is the plaintext and behind it as many bytes as are missing to a multiple of 16, never none, each saying how many |
| Ecb.DecryptedIff | agent/ilink/cdn.go:156-163 | Exactly what is accepted: nothing, or blocks whose last byte is a padding length from 1 to 16 |
| Ecb.ReencryptsIff | agent/ilink/cdn.go:156-163 | An accepted ciphertext is the encryption of what it decrypts to exactly when it is not empty and every byte of the padding is its length |
| Ecb.EncryptionOfNothing | agent/ilink/cdn.go:156-163 | An accepted ciphertext that is not the encryption of what it decrypts to is the encryption of no plaintext |
| Ecb.LoosePadding | agent/ilink/cdn.go:156-163 | There are such ciphertexts: blocks with a padding that is not uniform, and the empty one |

## Left out

- HTTP, databases, emitters, provider clients and rendering: plumbing without algorithms.
- Integers are unbounded: overflow of token sums, counters and sequence numbers is not modelled; division truncates as in Go.
- LlmStream.BuildToolCalls: the arguments of a call are the raw concatenated text; decoding them as JSON is not modelled.
- LlmStream.Stream: does not model the branch for clients without streaming (one feed and a flush of the whole answer, which `ReasoningStream.SplitChunks` covers), nor the raw request hooks.
- StreamReader.InvStep: a section under the content lock is one step; data races outside the locks and the timing of ticks are not modelled.
- MemoryCompaction.RunGraduatedMemoryCompaction: the prompt that the summariser gets and the `Updated` time of entries are not modelled; the token estimate is any function of an entry's data.
- JsonArray.StreamJSONArrayObjects: consumers that close their end of the pipe early, which makes a write fail, are not modelled.
- JsoncDocuments.JsoncToJson: numbers and literals are any words of letters, digits, signs and dots, and strings may hold control characters; both are more than JSON allows, so the identity covers all of JSON.
- Runner.ExecuteAgentIteration: deliveries are made one after the other; parallel tool calls racing on the flags, prompt building, the footer texts and the writing of parts are not modelled, and a text answer of the model's own is a given flag.
- Runner.Dispatch: how one parsed action expands to several tool calls, the parser's own errors, and clients without streaming, which report every error of the dispatch, are not modelled.
- Runner.Wait: that an error of the dispatch which is kept, and then makes nothing of itself, hides a later error of the parser or the stream is not modelled.
- Runner.Run: the messages prepared between rounds and the context of the run are part of the oracles.
- Transcript.MemoryTranscriptItemsFromEntries: roles, creation times and byte sizes of lines, and their rendering as text, are not modelled; lower-casing of a status covers ASCII letters.
- HistoryPairing.MemoryEntriesFromChatHistory: the list of raw reasoning items is handed on as a list, not as its JSON text.
- Watchdogs.ToolRepeatTracker.Observe: how a tool call is reduced to a fingerprint, the exempt tools, and the warning texts are not modelled.
- Sanitiser.SanitizeMemoryCompactionSummary: runes that are not valid UTF-8 are not modelled.
- AES itself and the handling of keys in `agent/ilink/cdn.go`.
- `agent/config/yaml.go`, `agent/session/critical_info.go` and the stall watchdog with its timers.
- `agent/core_agent/stream_reader.go` and the reader loop in `agent/core_agent/streamtypes/read.go`, which resemble `agent/session/stream_reader.go` but fire or close in another order.
- Role and status normalisers, option builders, message converters and struct copies: they would add only easy members.
