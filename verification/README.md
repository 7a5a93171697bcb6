# A verified model of the refinery workbench

The workbench runs a local assistant: an agent loop drives a grammar-constrained
language model and a set of tools, streams what happens to a browser, and answers
from documents it has ingested, chunked and indexed. This Dafny project models the
parts of it in which something must hold over whole runs or over all inputs, and
proves that it does, or exactly when it does.

Everything the outside world decides is a parameter or a nondeterministic choice:
what the model utters and when, which tools fail and how, how a stream is cut, when a
heartbeat fires, which request to the vector store raises and what it had done by
then, which child process dies, in what order tasks run.

Modules, one per component:

- `Codes` texts as code points, with lone surrogates; `Json` the reader behind
  `json.loads` and the spellings RFC 8259 allows; `Grammar` the sampling grammar as a
  derivation relation; `Client` the incremental answer decoder and the authoritative
  parse; `Protocol` the two put together over all derivable texts.
- `Events` the contract events and the protocol of a run, as an acceptor; `Wire` one
  generation as two interleaved tasks; `History` what the loop's running variables
  mean; `Compaction`; `AgentLoop` the run itself, as a class proved step by step;
  `Session` the browser's reducer and stored-session parser; `Transcript` decoder,
  loop, stored row and screen end to end; `Sse` the frame printer and its parser; `Torn`
  the same when the stream stops early;
  `Contract` the events as objects, and a run all the way from the loop through the
  stream to the screen.
- `Packing` the greedy loop shared by pagination and sentence packing; `Chunk`,
  `Pages` and `Layout` document splitting; `Corpus`, `Fuse`, `Search` the three stores,
  fusion and hybrid retrieval; `Budget`, `Snippet` and `Payload` what of it fits the
  model's window, and what is cited; `Sorting`.
- `Passages`, `Tables`, `Terms`, `Focus`, `Panels` and `Leniency` say what chunks, table
  cells, query terms, snippets, the screen's panels and a response outside the grammar
  come to, by places, characters and fields and without the functions that make them,
  and prove that those make just that. `Utterance` proves that the grammar lets the
  model say every answer and every call.
- `Manager` the single-resident model manager as a state machine over its awaits.

Code that mutates state is modelled by classes and loops, each proved against a
function or a predicate whose own properties are then lemmas. Protocols between tasks
are state machines over their atomic steps.

What the code does differs in places from what its comments say; the model follows
the code, and the exact condition is proved:

- `compact` is documented as idempotent; it is so only in three cases
  (`Compaction.IdempotentExactly`).
- `truncate_to_tokens` can exceed its budget by one (`Budget.TruncateOvershoots`).
- The ranking example in `fuse.py` holds for k up to 15 and for no larger k
  (`Fuse.ExampleExactly`); two lists show it fail at 60 (`Fuse.ExampleFails`).
- The header of `loop.py` says a repeated call aborts the run. It does if and only if
  the call last succeeded and the act before was a nudge already
  (`AgentLoop.RepeatAborts`, `AgentLoop.RepeatSurvives`).
- An answer uttered with an escaped surrogate pair is put on the wire once live and
  once more from the parse (`Transcript.GrammarAnswerShown`). The live token then
  holds half of a pair, which UTF-8 cannot encode, so its event cannot be sent
  (`Contract.PairCannotBeSent`).
- A directory ingest stopped by an unreadable file leaves the sparse index behind
  (`Corpus.AbortedLoad`).
- The budget of a search result is enforced by dropping entries, but never the last
  one, which may be over it alone (`Payload.OverExactly`, `Payload.OneEntryOver`).
- A stream that ends in good order before `done` is no error to the client: unless it
  ends inside the data of a frame, the screen stays busy (`Contract.EndedEarly`).
- A final answer that begins like a stop marker reopens as a stopped run
  (`Session.AnswerReopens`).

## Model

| member | source | states |
|---|---|---|
| AgentLoop.AgentLoop.constructor | backend/agent/loop.py:217-257 | the state a run starts from satisfies every invariant below |
| AgentLoop.AgentLoop.Run | backend/agent/loop.py:276-491 | against any model and any tools: the run ends with exactly one `done`, last on the wire, its step count at most the maximum and equal to the number of agent steps, its token totals the sums over answered requests, reason `error` exactly when a fatal error with one of three codes stands right before it, `cancelled` only where the flag was set, `final_answer` exactly when the last turn answered; LLM_ERROR exactly when its last generation raised, LOOP_DETECTED exactly when its last call repeated a successful one right after a nudge, TOOL_RETRIES_EXCEEDED exactly when its last result was the third counted failure in a row; which calls were executed, nudged or neither, what each step has on the wire, and the whole conversation, are those the meaning of the history determines (`HistoryOf`, `RecordsOf`, `TalkOf`); one assistant row is stored, the answer or the marker; audit log and wire differ at most by swap events lost before LLM_ERROR; the whole wire, event by event, is a function of the turns (`RanOver`: `ScriptOf`, then the closing events of `FateOf`); the history of calls kept every rule of module History |
| AgentLoop.ScheduleBlind | backend/agent/loop.py:294-325 | turns that differ only in how generation and consumer take turns, with swap events before tokens, give the same history, conversation, step records, usage and wire |
| AgentLoop.SameWire | backend/agent/loop.py:276-491 | two whole runs over such turns stop after the same step for the same reason and have yielded the same events, one for one |
| AgentLoop.AgentLoop.TakeStep | backend/agent/loop.py:276-489 | one pass of the loop body, entered only with every tool below its retry cap: acts, messages, the step's record and whether and how the run ends are exactly what the history so far and the turn determine (`Conduct`) |
| AgentLoop.AgentLoop.Conclude | backend/agent/loop.py:317-328 | a generation that raised ends the run with LLM_ERROR and the pending swap events lost; an answered one is settled first and then dealt with as the history determines |
| AgentLoop.AgentLoop.Generate | backend/agent/loop.py:294-316 | the queue-draining loop ends where the interleaved machine of module Wire ends, for every schedule |
| AgentLoop.AgentLoop.Drain | backend/agent/loop.py:324-325 | all pending swap events go out, in order, and none is left |
| AgentLoop.AgentLoop.Finish | backend/agent/loop.py:259-274 | a marker row is stored unless an answer was; then `done`, audited as it is yielded |
| AgentLoop.AgentLoop.FailRun | backend/agent/loop.py:319-323 | the very error given, then `done` with reason error: a completed run; what was pending is exactly what is lost |
| AgentLoop.AgentLoop.AnswerRun | backend/agent/loop.py:337-348 | the answer is stored and chunked unless it was shown live; the step's tokens are what was shown plus what is chunked |
| AgentLoop.AgentLoop.TakeCall | backend/agent/loop.py:350-489 | a call that is one of the two most recent executions and did not fail when last executed is nudged, and ends the run with LOOP_DETECTED when no nudge is left; any other call is executed; the loop's running variables decide this as the history itself, read by places, would (`IsRepeat`) |
| AgentLoop.AgentLoop.Execute | backend/agent/loop.py:386-413 | one call: the call and its own result on the wire, then its citations and artifacts, and all summaries moved on by exactly this act |
| AgentLoop.AgentLoop.Report | backend/agent/loop.py:393-411 | a call event is directly followed by its result and fills the current step's record; citations and artifacts come after, in order, and nothing else |
| AgentLoop.AgentLoop.Weigh | backend/agent/loop.py:413-489 | a tool that is down leaves the grammar and is not counted; the third counted failure in a row, and nothing else here, ends the run, with TOOL_RETRIES_EXCEEDED; any other result is handed to the model |
| AgentLoop.AgentLoop.Nudge | backend/agent/loop.py:359-385 | the model's words and the corrective message are added, the act is remembered, and nothing is executed |
| AgentLoop.AgentLoop.Shorten | backend/agent/loop.py:280-283 | compaction exactly when the window is over three quarters full, keeping system prompt and question |
| AgentLoop.ChunksSpell | backend/agent/loop.py:345-346 | cutting an answer into 48-character tokens loses nothing |
| AgentLoop.ChunksAre | backend/agent/loop.py:345-346 | each piece is the next 48 characters, the last one what is left, and none is empty |
| AgentLoop.SummaryIs | backend/agent/loop.py:399 | what a result event says is the first 200 characters of the content, or of the error when there is no content |
| AgentLoop.UnavailableIs | backend/agent/loop.py:43-49 | a failed tool counts as down exactly when its error has one of four phrases in it somewhere, in whatever case |
| AgentLoop.MarkerIs | backend/agent/loop.py:259-267 | the rows and notes a run without an answer leaves, word for word |
| AgentLoop.Verdict | backend/agent/loop.py:430-434 | after one more result a tool is at its cap exactly when its running counter says so |
| AgentLoop.FatalExactly | backend/agent/loop.py:317-441 | after any history that kept the rules: a turn is fatal with LLM_ERROR if and only if its generation raised, with LOOP_DETECTED if and only if it repeats a successful call right after a nudge, with TOOL_RETRIES_EXCEEDED if and only if it brings a tool to three counted failures, and never otherwise |
| AgentLoop.RepeatAborts | backend/agent/loop.py:9-11 | the exact condition of the documented loop detection, by places in the history: a call that is one of the two most recent executions aborts if and only if its latest execution succeeded and the act before it was a nudge |
| AgentLoop.OtherCallRuns | backend/agent/loop.py:350-413 | a call that is neither of the two most recent executions is executed by the next turn, with its own arguments and its own result, and nothing else is |
| AgentLoop.RepeatedCall | backend/agent/loop.py:357-385 | a call that is one of them is executed if it last failed; otherwise nothing is executed and nothing goes on the wire: a nudge, or nothing right after one |
| AgentLoop.RepeatSurvives | backend/agent/loop.py:357-385 | the same successful call three times: executed, nudged, and only then the end |
| History.DisciplinedAt | backend/agent/loop.py:350-442 | anywhere in a history: a call was executed only if it was not one of the two most recent executions or had last failed, every nudge answered such a repeat, and every tool was below its cap |
| History.SoonAgainFailed | backend/agent/loop.py:357-359 | in any run: of two executions of the same call with at most one other between them, the latest before the second failed |
| History.NudgeAnswersRepeat | backend/agent/loop.py:357-368 | in any run: a nudged call is one of the two most recent executions, and its latest execution succeeded |
| History.NudgesBetween | backend/agent/loop.py:367-368 | no more than the allowed nudges between two executed calls |
| History.FailuresSnoc | backend/agent/loop.py:413 | the last_failed map keeps meaning: the latest execution of this signature failed |
| History.StreaksSnoc | backend/agent/loop.py:430-433 | the fail_streak map keeps meaning: counted failures since the last success |
| History.StreakIs | backend/agent/loop.py:430-433 | the streak of a tool is the number of its executions that failed, without being down, with no success of it since |
| History.NeverAgain | backend/agent/loop.py:217-223 | if responses obey the grammar they were asked under, a tool that reported itself down is never executed again and no unregistered tool ever is |
| Wire.EveryInterleaving | backend/agent/loop.py:294-325 | under every interleaving of generation and consumer: audited is yielded followed by pending, nothing unaudited is yielded, tokens and swap events are neither lost, repeated nor reordered |
| Wire.ScheduleInvisible | backend/agent/loop.py:312-316 | when swap events precede tokens, the schedule cannot be seen on the wire |
| Wire.WireFixed | backend/agent/loop.py:302-325 | with swap events first, what a generation has yielded when it ends and what it leaves pending do not depend on the schedule: everything and nothing if there was a token, nothing and everything if not |
| Events.FollowSound | contracts/contracts/events.py:24-94 | any event sequence the protocol accepts pairs each result with the call right before it and each `done` with a true step count |
| Events.FollowGeneration | backend/agent/loop.py:302-316 | swap events and tokens extend the bubble and the step's text by exactly the token texts |
| Compaction.Compact | backend/agent/compact.py:27-58 | the pop, slice and digest loops compute head, one digest, last four |
| Compaction.CompactKeeps | backend/agent/compact.py:27-58 | more than six messages become at most seven; the kept head and the last four survive word for word |
| Compaction.DigestSays | backend/agent/compact.py:41-58 | nothing collapsed goes missing: the messages kept at the front are the first up to two while they are the system's or the user's; the digest is its heading and then, in order and divided by line feeds, one line for every message up to the last four, each its role in brackets and its first 200 characters, with an ellipsis exactly when there were more |
| Compaction.ThresholdIs | backend/agent/compact.py:19-24 | the threshold: characters divided by four, rounded down, are more than three quarters of the window, which counts as at least one |
| Compaction.CompactAgain | backend/agent/compact.py:28-29 | a second run changes only the digest's text |
| Compaction.IdempotentExactly | backend/agent/compact.py:28-29 | the documented idempotence holds if and only if there was nothing to do, fewer than two messages are kept at the front, or the middle already reads as the one fixed digest |
| Compaction.CompactTwice | backend/agent/compact.py:28-29 | a prompt, a question and any five short replies are compacted differently the second time |
| Transcript.AnswerShown | backend/agent/loop.py:337-348 | the last step's tokens spell the stored answer if and only if the live decode equals the parse or is empty |
| Transcript.GrammarAnswerShown | backend/llm/client.py:308-314 | under the grammar an answer is on the wire exactly once if and only if it was not uttered with an escaped surrogate pair |
| Transcript.CallShown | backend/llm/client.py:338-351 | the call on the wire is the call that was uttered: unless it is one of the two most recent executions, it runs, and its event and its signature have the parsed name and arguments |
| Transcript.RunLeaves | frontend/src/store/session.ts:384-400 | after any completed run the live screen is idle with one row per step and all token texts in the bubble, and the reopened session shows exactly one assistant message for it |
| Session.FindLast | frontend/src/store/session.ts:435-438 | the backward loop finds the last match or none |
| Session.SessionStore.Send | frontend/src/store/session.ts:136-155 | a blank message or a busy store changes nothing; otherwise the per-turn panels are reset and two messages appended |
| Session.SessionStore.Receive | frontend/src/store/session.ts:270-405 | setting the store from an event is the reducer, with rows patched where the loop finds them |
| Panels.ListsAre | frontend/src/store/session.ts:357-382 | after any events: artifacts, citations and errors, recoverable or not, are what was there followed by exactly those that arrived, in order and with their own fields |
| Panels.LatestShown | frontend/src/store/session.ts:272-311 | after any events: session, router, model, step and phase are what the last event that concerns them says, and the swap is the last loading unless a ready or a done came after it; without any, they are untouched |
| Panels.TurnShows | frontend/src/store/session.ts:136-176 | over a turn, and a stream that breaks off in it: artifacts, citations and errors are added to those of earlier turns, the transport error last; router, swap and steps begin anew; session and model stay |
| Panels.TurnTimed | frontend/src/store/session.ts:313-352 | each row counts from the arrival of its own step; one that never had a result stands at what it had counted when the run failed or ended |
| Session.StoppedOnScreen | frontend/src/store/session.ts:180-199 | stopping anywhere in a run, even before its first event, leaves an idle, settled screen: a row for each step begun, none ticking, no swap, the text and citations so far, marked cancelled at the step reached |
| Session.FoldShows | frontend/src/store/session.ts:270-405 | after every prefix of every accepted run the screen says exactly what has happened: row i is step i with its call and that call's result, ticking only while open, and the bubble is all token texts |
| Session.CompletedOnScreen | frontend/src/store/session.ts:384-400 | folding a whole run from the state `send` left ends idle with exactly n rows, none ticking, a result for every call, the run's stop reason and statistics |
| Session.DroppedOnScreen | frontend/src/store/session.ts:168-176 | a stream that dies anywhere leaves an idle screen with nothing ticking and the text so far |
| Session.MarkerRoundTrip | frontend/src/store/session.ts:224-237 | the stored marker parses back to its reason, and to its note if and only if the note does not begin with white space |
| Session.StoppedReopens | backend/agent/loop.py:259-267 | the notes the loop writes never do, so every stopped run reopens with its reason and note |
| Session.AnswerReopens | frontend/src/store/session.ts:227-233 | a final answer reopens unchanged if and only if it does not itself begin with a marker |
| Session.AnswerMisread | frontend/src/store/session.ts:227-233 | an answer that reads `[stopped: error] ` and a note reopens as that note on a run stopped by an error |
| Client.FinalAnswerStreamer.constructor | backend/llm/client.py:77-83 | a new decoder has read nothing |
| Client.FinalAnswerStreamer.ScanOpening | backend/llm/client.py:85-102 | rescanning the whole buffer agrees with reading it one character at a time |
| Client.FinalAnswerStreamer.Feed | backend/llm/client.py:104-151 | feeding one more piece returns exactly the text the character machine newly shows |
| Client.FinalAnswerStreamer.DecodeBuffer | backend/llm/client.py:116-148 | the decoding loop is the character machine from whatever state the cut left |
| Client.CutsDoNotMatter | backend/llm/client.py:104-151 | on any input, started, done and emitted do not depend on how it was cut |
| Client.ShownGrows | backend/llm/client.py:104-151 | emitted only grows by extension |
| Client.Generate | backend/llm/client.py:241-315 | one retry and only before the first piece; the tokens spell what the decoder shows of the response used; `streamed` exactly when that is a non-empty final answer |
| Leniency.CleanIs | backend/llm/client.py:321-327 | a fenced response is read as what stands between the line of its first fence and the last fence behind it, or the end; any other as it is, trimmed |
| Leniency.ParseIs | backend/llm/client.py:318-355 | the parse of any text: malformed, and its own answer, exactly when it is no object with a `tool` or a `final`; a tool called final in any case is an answer, any other one call with its arguments, with none when they are missing or empty, refused when they are no object; `final` without `tool` is an answer |
| Leniency.FinalTextIs | backend/llm/client.py:154-172 | the answer in a tool's shape: a text is itself; of an object the first of five fields that shows something, or else every field that is not null, once, in order, as `key: value`; anything else written out, null as nothing |
| Json.ReadStringYield | backend/llm/client.py:333-334 | the string reader undoes every spelling of a string section 7 of RFC 8259 allows, joining surrogate pairs |
| Json.ReadsWhatIsWritten | backend/llm/client.py:333-334 | the value reader undoes every spelling of every value, with any blanks section 2 of RFC 8259 allows |
| Json.LoadsWhatIsWritten | backend/llm/client.py:333-334 | so does the whole-text parse, with blanks around |
| Grammar.StringOf | backend/agent/grammar.py:24 | every text the string rule derives is a JSON string and blanks |
| Grammar.NumberOf | backend/agent/grammar.py:25 | every text the number rule derives is a JSON number and blanks |
| Grammar.ValueOf | backend/agent/grammar.py:21 | every text the value rule derives is a JSON value and blanks |
| Grammar.ObjectOf | backend/agent/grammar.py:22 | every text the object rule derives is a JSON object and blanks |
| Grammar.ArrayOf | backend/agent/grammar.py:23 | every text the array rule derives is a JSON array and blanks |
| Protocol.GrammarHonored | backend/agent/grammar.py:30-55 | every text the grammar derives parses as not malformed, as a final answer or exactly one call of a named tool other than final; with no tools always as an answer; only the answer shape shows anything live |
| Protocol.DecoderAgrees | backend/llm/client.py:85-151 | on every derivable answer the live text equals the parsed text if and only if no surrogate pair is escaped, and is empty exactly when the answer is |
| Protocol.StreamedExactly | backend/llm/client.py:308-314 | such an answer is marked streamed if and only if it is not empty and has no escaped pair |
| Protocol.PairCounterexample | backend/llm/client.py:122-126 | an escaped pair is decoded as two lone surrogates live and as one character by the parse |
| Protocol.FinalParses | backend/llm/client.py:352-355 | the answer shape parses to its own text |
| Protocol.ToolParses | backend/llm/client.py:338-351 | the tool shape parses to that call with those arguments, or to an answer when the name is a spelling of final |
| Protocol.ShowsNothing | backend/llm/client.py:93-102 | a tool shape shows nothing live |
| Utterance.ValueSaid | backend/agent/grammar.py:21-26 | the other direction: every way of writing a JSON value with the grammar's blanks, escapes and number lengths is derivable |
| Utterance.AnyAnswer | backend/agent/grammar.py:30-55 | no answer is unutterable: for every text there is a derivable response that parses to exactly that answer |
| Utterance.AnyCall | backend/agent/grammar.py:30-55 | no call is unutterable: for every registered name and every such arguments object there is a derivable response that parses to exactly that call |
| Sse.CompactIsFaithful | contracts/contracts/events.py:141-143 | the compact writer's output is a tree that means the value it was given and holds no control character |
| Sse.DumpLoads | contracts/contracts/events.py:141-143 | a serialised event parses back to itself |
| Sse.StreamEvents | backend/sse.py:31-46 | the generator loop yields each event's frame in order, with a ping frame for every quiet interval before it and before the end |
| Sse.SepIsStable | frontend/src/api/sse.ts:14 | the leftmost frame separator is never changed by later input, on any input |
| Sse.SplitAppend | frontend/src/api/sse.ts:85-96 | splitting what has arrived and then the rest is splitting everything |
| Sse.SepIs | frontend/src/api/sse.ts:14 | a separator is two line breaks, each a line feed with or without a carriage return before it, and nothing else |
| Sse.DataSays | frontend/src/api/sse.ts:115-121 | line by line: the values of a frame's data lines, trimmed, with a line feed between one and the next; lines of other fields do not count |
| Sse.StreamReader.Push | frontend/src/api/sse.ts:85-96 | after any chunk the reader has delivered exactly the complete frames so far and holds the residue |
| Sse.StreamReader.Finish | frontend/src/api/sse.ts:97-99 | a last frame without its blank line is still delivered |
| Sse.StreamChat | frontend/src/api/sse.ts:79-105 | what is delivered depends only on the characters, never on the chunks |
| Sse.RoundTrip | frontend/src/api/sse.ts:83-138 | for every event list, every placement of pings and every cutting, the client is told exactly the original events, in order |
| Contract.DecodesEncoded | contracts/contracts/events.py:24-94 | each of the twelve events can be told from its object, whatever other fields that has |
| Contract.SayableIs | contracts/contracts/events.py:141-143 | an event can be written for the wire if and only if its texts hold no lone surrogate |
| Contract.PairCannotBeSent | backend/llm/client.py:122-126 | whatever tokens spell an answer uttered with an escaped pair as it is decoded live, one of them cannot be sent |
| Contract.StreamToScreen | frontend/src/api/sse.ts:83-138 | however the stream is cut and wherever heartbeats fall, the store ends as if it had been handed the events themselves |
| Contract.RunArrives | frontend/src/store/session.ts:158-167 | a completed run sent through frames, heartbeats, cuts and the parser leaves the screen idle with one row per step, all token texts in the bubble and the run's own reason to stop |
| Contract.BrokenStream | frontend/src/api/sse.ts:100-104 | a connection that breaks anywhere, even inside a frame, leaves the screen of a whole prefix of the run, idle, with nothing ticking |
| Contract.EndedEarly | frontend/src/api/sse.ts:78-105 | a reader that ends in good order anywhere in a run: the screen shows the events that arrived whole and is idle if and only if they end the run or the stream stopped inside the data of the next frame, which is a fatal error; otherwise it stays as those events left it |
| Contract.StaysBusy | frontend/src/api/sse.ts:85-99 | stopping right behind any frame before the run is over leaves the store busy, and a step just begun ticking |
| Torn.WhatArrives | frontend/src/api/sse.ts:85-99 | for every cut of a stream with heartbeats: the first events in order, then one fatal call exactly when the cut is inside the data of the next |
| Torn.CutObject | frontend/src/api/sse.ts:122-129 | no proper, non-empty front of a serialised object parses |
| Torn.ValueMore | backend/llm/client.py:333-334 | a value closed by its quote or bracket is read the same whatever is written behind it |
| Packing.PackedSplits | ragsvc/ingest/textdoc.py:156-161 | greedy packing keeps every item in order, in groups that fit or hold one item |
| Packing.PackedFewest | ragsvc/ingest/textdoc.py:156-161 | no split into groups that fit has fewer groups |
| Pages.Paginate | ragsvc/ingest/textdoc.py:139-162 | paginate writes the page numbers 1..n into the blocks of the greedy packing and touches nothing else |
| Pages.FewestPages | ragsvc/ingest/textdoc.py:139-162 | its pages hold all blocks in order, each at most the page size or one block, and are as few as possible |
| Pages.CarrySections | ragsvc/ingest/pipeline.py:123-141 | the in-place pass gives every block the last section named at or before it, across pages |
| Pages.RunningIs | ragsvc/ingest/pipeline.py:132-141 | what that section is: the latest named one, or none when none was named |
| Pages.ChunkPages | ragsvc/ingest/pipeline.py:243-247 | after sections are carried, chunks are made of the pages' blocks in order; every chunk's span holds the pages of its own blocks and ends no later than the next begins |
| Pages.IngestText | ragsvc/ingest/pipeline.py:179-188 | the same from a text document's blocks, through paginate |
| Chunk.SentencesInk | ragsvc/ingest/chunk.py:27 | splitting into sentences loses nothing but white space |
| Passages.SentencesAre | ragsvc/ingest/chunk.py:27 | the sentences, by places: each ends at the first mark followed by white space, or with the text, and the next begins behind all of that white space |
| Chunk.SplitLongText | ragsvc/ingest/chunk.py:58-72 | the loop computes the greedy packing of the sentences |
| Chunk.PiecesKeepSentences | ragsvc/ingest/chunk.py:58-72 | its pieces are runs of whole sentences in order, within the budget or one sentence, and together have the text's ink |
| Chunk.TailTokensLoop | ragsvc/ingest/chunk.py:30-55 | the reversed loop computes the overlap |
| Chunk.BackwardLongest | ragsvc/ingest/chunk.py:41-47 | which is the longest run of final sentences that fits |
| Chunk.Accumulator.Flush | ragsvc/ingest/chunk.py:114-148 | closing a chunk renders it and seeds the next with the tail of its prose alone |
| Chunk.Accumulator.Take | ragsvc/ingest/chunk.py:153-161 | a table or a fitting paragraph is placed by the rule: new chunk if it would not fit, closed at once if a table fills it |
| Chunk.Accumulator.TakeLong | ragsvc/ingest/chunk.py:163-177 | an over-long paragraph becomes one chunk for each of its pieces |
| Chunk.ChunkBlocks | ragsvc/ingest/chunk.py:92-184 | the whole loop computes the grouping and its chunks |
| Chunk.GroupsKeep | ragsvc/ingest/chunk.py:150-183 | the chunks' own blocks end to end are the input with each over-long paragraph replaced by its pieces; every chunk fits counting its carry-over or owns one block; every chunk ends for a stated reason |
| Chunk.OnlyOneWay | ragsvc/ingest/chunk.py:150-183 | those rules determine the grouping: there is no other |
| Chunk.TablesWhole | ragsvc/ingest/chunk.py:7-9 | the tables the chunks own are the tables of the input, each once, whole and in order |
| Chunk.OverlapIsProse | ragsvc/ingest/chunk.py:142-148 | a carry-over depends only on the prose of the chunk before |
| Chunk.OwnVerbatim | ragsvc/ingest/chunk.py:117-124 | every non-blank block a chunk owns stands in its text word for word |
| Passages.ChunkInk | ragsvc/ingest/chunk.py:114-124 | apart from white space a chunk's text is its heading, if it was put in front, the carry-over and its own blocks, in this order and nothing else |
| Passages.CarryFirst | ragsvc/ingest/chunk.py:114-124 | a carry-over that is not blank stands in the chunk's text word for word, before every own block; the own blocks stand there in order with a blank line between any two |
| Passages.ChunkSays | ragsvc/ingest/chunk.py:125-141 | a chunk's own fields: its number, the pages of its first and last block, the first section any of them names, its text counted as stored, and the marks for tables and doubtful readings |
| Passages.CarryIs | ragsvc/ingest/chunk.py:142-148 | what a chunk hands on: the most final sentences of its prose that fit the overlap together, or the tail of it when not one does; nothing without overlap or prose |
| Chunk.SpansInOrder | ragsvc/ingest/chunk.py:119-133 | for blocks in page order a chunk's span runs from its first block's page to its last block's, and chunks follow one another |
| Layout.GroupRows | ragsvc/ingest/layout.py:64-79 | the two loops compute the rows |
| Layout.RowsPartition | ragsvc/ingest/layout.py:64-79 | every line is in exactly one row; rows are bands no taller than the tolerance whose anchors are more than the tolerance apart |
| Layout.RowsLeftToRight | ragsvc/ingest/layout.py:64-79 | within a row, fragments stand from left to right |
| Layout.ColumnsCover | ragsvc/ingest/layout.py:82-105 | every line is in one column, and on a two-column page exactly those wholly inside the middle band are in both |
| Layout.ColumnsAre | ragsvc/ingest/layout.py:82-105 | a page has two columns exactly when it has twelve lines, none crosses the middle fifth and either side has at least five and a quarter of them; then they are the left ones and the right ones, else there is one with all |
| Layout.Runs | ragsvc/ingest/layout.py:210-225 | the spans are disjoint, increasing, at least two rows long, and cover exactly the rows with three or more cells that have such a neighbour |
| Layout.ConfirmedApart | ragsvc/ingest/layout.py:227-234 | and stay so after confirmation |
| Layout.TableHolds | ragsvc/ingest/layout.py:111-164 | every line of an aligned table can be read in its markdown, cell-escaped; which cell, module Tables says |
| Layout.FlushParagraph | ragsvc/ingest/layout.py:410-417 | a paragraph becomes an item, or had nothing to show |
| Layout.PlaceProse | ragsvc/ingest/layout.py:356-378 | headings and paragraphs take exactly the lines no table took; each item is one heading or the longest stretch of rows that no heading, table or wide gap breaks |
| Layout.PlaceColumn | ragsvc/ingest/layout.py:339-378 | every line of a column that shows anything is in exactly one item; the tables among the items are exactly the confirmed maximal runs of rows with three or more cells, the others the stretches between |
| Layout.ContentHolds | ragsvc/ingest/layout.py:380-399 | a line can be read in the text of the block it went into |
| Layout.BuildBlocks | ragsvc/ingest/layout.py:259-400 | without ruled regions: every line outside the native tables that shows anything is in exactly one block, those wholly in the middle band of a two-column page in two; every native table that shows anything is exactly one block, in the column of its centre and at its top; blocks come column by column, top to bottom, each under the last heading before it; and each column is laid out as `PlaceColumn` says |
| Tables.ColumnsAre | ragsvc/ingest/layout.py:134-148 | the columns of a table: the left edges, sorted, fall into groups of neighbours at most six points apart with wider gaps between groups; each group of more than one is a column, at its mean, and there is no other |
| Tables.CellExactly | ragsvc/ingest/layout.py:151-164 | a cell holds exactly the texts of the row's fragments whose nearest column, the leftmost of those, it is, in the order of the row |
| Tables.LineInCell | ragsvc/ingest/layout.py:151-164 | every fragment has such a column, strictly nearer than those left of it, and can be read in that cell |
| Tables.MarkdownReads | ragsvc/ingest/layout.py:111-131 | the markdown of a table cut again at its line breaks and its bare pipes gives back every cell in its own row and column, behind a header and a rule |
| Tables.AlignedReads | ragsvc/ingest/layout.py:111-164 | the markdown of an aligned table, read back so and unescaped: each cell says exactly the fragments of its row that stand in its column; an empty header cell is given its column's number |
| Tables.BlockSays | ragsvc/ingest/layout.py:380-399 | an item becomes a block of its own kind, text and page, marked exactly when its mean confidence is low, under the last heading before it |
| Tables.NativeStands | ragsvc/ingest/layout.py:285-337 | a native table stands at its own top, in the right column exactly when the page has two and some line there starts no more than two points to the right of its centre |
| Tables.FreeLines | ragsvc/ingest/layout.py:285-300 | a line is left to the columns exactly when its middle is in no native table's box |
| Corpus.Service.ReplaceChunks | ragsvc/ragdb.py:249-275 | a document's rows are replaced by one for each new chunk, with its document, index, file name, page, section and text, and the others are untouched |
| Corpus.Service.Upsert | ragsvc/index/qdrant_store.py:87-109 | batches of 256: all of the points, or whatever got through before the batch that failed; success exactly when no batch failed |
| Corpus.Service.DeleteVectors | ragsvc/index/qdrant_store.py:111-128 | a document's vectors go, or the call raises, perhaps having worked |
| Corpus.Service.IngestFile | ragsvc/corpus.py:102-204 | whatever the dense side does: every chunk is stored under its id with its own index, file name, page, section and text, the sparse index has its text, and the vector the same fields when the document is indexed; the document is registered with its own name and path; nothing else changes; tables consistent, the chunk count exact, `indexed` exactly when every dense call worked, the sparse index rebuilt; an unreadable file changes nothing |
| Corpus.Service.IngestDirectory | ragsvc/corpus.py:207-216 | all files, then one rebuild; an unreadable file stops it before the rebuild, and then the sparse index is in step if and only if no chunk had been added |
| Corpus.AbortedLoad | ragsvc/corpus.py:207-216 | a directory of one good and one unreadable file leaves a chunk the sparse index does not know |
| Corpus.Service.DeleteDocument | ragsvc/corpus.py:219-229 | the rows always go; vectors are left behind exactly when the delete had no effect and there were some |
| Corpus.Service.Reindex | ragsvc/corpus.py:232-249 | unknown id, missing file or a new ingest under the same id; a document that drifted agrees again exactly when the embedding goes through |
| Corpus.Service.Rebuild | ragsvc/index/bm25.py:97-108 | the sparse index holds exactly the chunk table's ids and texts |
| Corpus.Service.ServeAll | ragsvc/corpus.py:8-12 | after any sequence of requests: tables consistent, counts exact, every stored row one of the chunks of a file ingested under its document, field by field, every row marked indexed has exactly its chunks as vectors; the registered documents are known from the requests alone; the sparse index is in step if and only if no directory ingest was cut short after adding chunks since the last rebuild; and if nothing dense failed and nothing was re-ingested into no chunks, vectors and chunks are the same |
| Corpus.Service.Serve | ragsvc/corpus.py:106-249 | one request: it rebuilds the sparse index exactly when it gets to its end, and otherwise puts it out of step exactly when it added chunks |
| Corpus.DenseHitsAreLive | ragsvc/index/search.py:126-131 | a dense hit from a document that has not drifted is a live chunk with the very row the tables hold |
| Search.Hydrate | ragsvc/index/search.py:58-79 | payloads at hand are kept, others come from the chunk table, and nothing else is invented |
| Search.Find | ragsvc/index/search.py:82-170 | with `kept` the candidates that can be attributed to a file, in fused order: the hits are the first top_k of `kept`, or, when a reranker is there and more than one is kept, of `kept` by logit with ties in fused order; each carries its candidate's ranks and the payload of its source, and its score is what the reranker says of that very passage or else what fusion gave it; no candidate left out is better than a hit; no id twice |
| Sorting.SortStable | ragsvc/index/search.py:142 | the sort behind reranking is stable: equal keys stay in the order they came |
| Search.HitsAreLive | ragsvc/index/search.py:126-131 | with no drift and the sparse index in step, every candidate is a live chunk |
| Fuse.Collect | ragsvc/index/fuse.py:53-62 | the nested loops compute the accumulated map |
| Fuse.AddAllAt | ragsvc/index/fuse.py:53-62 | every id found anywhere has the exact sum of its shares and its rank in each list |
| Fuse.ReciprocalRankFusion | ragsvc/index/fuse.py:38-65 | the result is the front of the one ranking of all candidates; a limit of zero means the default |
| Fuse.TopMeans | ragsvc/index/fuse.py:64-65 | in strict order by score and id, exact, and everything left out is behind everything kept |
| Fuse.OrderBlind | ragsvc/index/fuse.py:53-65 | the order of the sources does not change the result |
| Fuse.BothBeatOne | ragsvc/index/fuse.py:11-14 | for two lists without repeats, neither longer than k+1, every id found by both is strictly ahead of every id found by one |
| Fuse.TieBeyond | ragsvc/index/fuse.py:11-14 | one place further the bound fails: two lists of length k+2 in which an id found by both ties with one found by one and comes after it |
| Fuse.BothFirstExactly | ragsvc/index/fuse.py:11-14 | what both lists found is always ahead of what one found if and only if neither may be longer than k+1 |
| Fuse.SharesCompare | ragsvc/index/fuse.py:11-14 | for any k and any ranks: a and b together beat c twice, or tie with it, exactly as k(2c-a-b)+(a+b)c-2ab is positive, or zero |
| Fuse.UnevenAhead | ragsvc/index/fuse.py:53-65 | the same for two ids found by both of two lists, with the tie going to the smaller id |
| Fuse.ExampleExactly | ragsvc/index/fuse.py:11-14 | an id ranked 1 and 25 is ahead of one ranked 8 by both if and only if k is at most 15 |
| Fuse.ExampleFails | ragsvc/index/fuse.py:11-14 | two lists of 25 with such ids, fused as the program does with k = 60: the one ranked 8 twice comes out first, the other second |
| Budget.TruncateKeeps | ragsvc/ragbudget.py:64-96 | a prefix, no longer than the budget buys |
| Budget.TruncateIs | ragsvc/ragbudget.py:78-96 | exactly what is kept of a text over the budget: its first 17/5 characters a token, cut back to their last line break if that lies in the last 15% of them, and then to the last character that is not white space |
| Budget.TruncateOvershoots | ragsvc/ragbudget.py:64-68 | the promised bound is missed, by one, if and only if the budget is a positive multiple of five, the text reaches the cut, and neither a late line break nor white space at the cut shortens it |
| Budget.TailOvershoots | ragsvc/ragbudget.py:99-118 | the mirror image for the tail |
| Budget.OvershootExample | ragsvc/ragbudget.py:64-68 | seventeen letters at a budget of five are all kept and count as six, from either end |
| Budget.Fit | ragsvc/ragbudget.py:141-174 | for any counter the content is within the limit or is the bare notice; untouched exactly when it fits |
| Budget.PassesAre | ragsvc/ragbudget.py:163-174 | each pass has what the one before overshot by, and four, less; the answer is the first pass within the limit, or the bare notice when none of them is |
| Budget.PassSays | ragsvc/ragbudget.py:156-172 | a pass shows the text truncated to its allowance, and behind it how much of how much that is and where the rest can be read |
| Budget.FallbackFirstPass | ragsvc/ragbudget.py:163-172 | with the fallback estimator, whenever the notice alone fits the limit, the first pass already fits |
| Snippet.TermsAreTerms | ragsvc/tools.py:108-117 | query terms are longer than two characters and hold no white space; which they are, module Terms says |
| Terms.TermsExactly | ragsvc/tools.py:105-117 | both ways, by characters of the lowered query: a term is longer than two characters, no stopword, and an identifier - a maximal run of letters and digits with single joints between them - or a part of one between joints; every such identifier, and every such part of it, is a term |
| Snippet.Window | ragsvc/tools.py:247-259 | the slice around the earliest term |
| Snippet.WindowHoldsTerm | ragsvc/tools.py:247-259 | a window shows the earliest term whole when it is at most 57 characters long and the budget at least 25 |
| Snippet.LongerIsCut | ragsvc/tools.py:253-255 | at that budget a longer term is cut |
| Snippet.Picker.Take | ragsvc/tools.py:163-203 | a line is kept whole if it fits, as a window over all that is left if allowed and there is room, else not at all; the accounted cost never passes the budget |
| Snippet.RankLines | ragsvc/tools.py:216-217 | all lines once, by terms carried, then brevity, then position |
| Snippet.TakeHeading | ragsvc/tools.py:223-226 | only the first line that is not blank |
| Snippet.TakeHeader | ragsvc/tools.py:227-230 | the first two of at least three table lines |
| Snippet.TakeRest | ragsvc/tools.py:232-235 | the remaining lines that carry a term, best first |
| Snippet.BestDecided | ragsvc/tools.py:205-218 | the best line is kept if and only if it fits or the budget is at least 29 |
| Snippet.PiecesGapped | ragsvc/tools.py:237-244 | kept lines in document order, an ellipsis between two exactly when lines were left out between them |
| Snippet.PutTogether | ragsvc/tools.py:237-244 | the output loop computes that |
| Snippet.FocusedSnippet | ragsvc/tools.py:134-244 | the scored path is taken exactly when some line of at least two carries a term; its charges sum to at most the budget; what is kept is what the takes in their order keep, and put together with its gaps it is the snippet; otherwise the passage is cut from the front |
| Focus.RankedIs | ragsvc/tools.py:216-217 | of two ranked lines the first has more terms, or as many and fewer tokens, or as many of both and stands first |
| Focus.CarriedIs | ragsvc/tools.py:120-131 | a line carries the terms that occur in it when it is lowered |
| Focus.NothingElseFits | ragsvc/tools.py:205-235 | a kept line carries a term, or stands right behind the best one, or is the heading, or is one of the first two of a table's three lines; only the two best may be windows; and every such line that is left out is too long for what is left of the budget at the end |
| Focus.WindowIs | ragsvc/tools.py:247-259 | a window, by places: 17/5 characters for each token and at least 80, from a third of that before the earliest term, or behind the first blank within 30 characters, with dots at each end that is not the line's |
| Snippet.WindowedLineShows | ragsvc/tools.py:160-203 | a line that carries a term and is kept as a window still shows one |
| Payload.HitsPayload | ragsvc/tools.py:274-326 | for any counter: entries are made for the hits in order while any of the budget is left; kept is the longest front whose finished text is within the budget, a single entry if there is none |
| Payload.SharesAre | ragsvc/tools.py:291-318 | the first hit's share is two fifths of the budget less 60, towards zero; each later one an equal part of what the entries before it have left, rounded down; a snippet has what its entry does not need without it |
| Payload.UnusedPassesOn | ragsvc/tools.py:285-316 | below the first hit shares never shrink while entries keep to theirs |
| Payload.AllServed | ragsvc/tools.py:291-316 | if every entry keeps to its share every hit gets one, and together they leave room for the frame |
| Payload.FrameEnough | ragsvc/tools.py:39-40 | by the estimator the finished text of up to 107 entries costs at most 60 more than they do one by one |
| Payload.NothingDropped | ragsvc/tools.py:291-326 | then no hit is dropped and the result is within the budget |
| Payload.OverExactly | ragsvc/tools.py:319-325 | the result is over the budget if and only if no front of the entries is within it; by the estimator, if and only if the first entry alone is not |
| Payload.LongNameOver | ragsvc/tools.py:303-325 | a first hit whose file name alone has 17/5 characters for each token of the budget is such a case |
| Payload.OneEntryOver | ragsvc/tools.py:322 | one hit, at the default budget of 1000, that is over it |
| Payload.PayloadLoads | ragsvc/tools.py:303-326 | whatever is kept parses back to its hits, in order and field by field |
| Payload.CitationsFrom | backend/agent/loop.py:495-523 | unreadable content cites nothing; of the first five hits those with all five fields, well typed, are cited and no field is made up; `hits` that cannot be sliced is not caught |
| Payload.SearchIsCited | backend/agent/loop.py:495-523 | from the search tool to the screen: the citations are the first five entries the model is shown, each with its own document, file, page and snippet |
| Manager.StepKeeps | backend/llm/manager.py:209-250 | every stretch between two awaits, every death of a child and every abandoned call keeps the invariant |
| Manager.SingleResident | backend/llm/manager.py:209-250 | under every interleaving: at most one child alive, a resident model is what the current child was started with and has answered since, each ready directly follows its own loading, and a call returns only with its model resident |
| Manager.SettleKeeps | backend/llm/manager.py:241-250 | readiness is declared only after a probe succeeded |
| Manager.AnsweringReturns | backend/llm/manager.py:213-215 | a call that finds its model resident and answering returns at once, with children, process, residency and announcements as they were and the lock free |
| Manager.ResidentLeftAlone | backend/llm/manager.py:213-215 | while a model is resident and every probe answers, any interleaving of calls for it starts, stops and announces nothing |
| Manager.WhatIsAnnounced | backend/llm/manager.py:222-250 | a loading names the caller's own model and what was resident, and never one found answering; a ready answers a successful probe and names what is resident then |
| Manager.WhatIsStarted | backend/llm/manager.py:229-241 | a server is started for the caller's own model, with none of ours alive and the port quiet or waited for long enough; one is stopped only for a caller whose model does not answer |
| Manager.ExternalOnly | backend/llm/manager.py:216-221 | in external mode nothing is ever started, stopped or announced; a call returns only if its model is the one that is there, and raises only if it is not or the call was given up |
| Manager.EnsureSwaps | backend/llm/manager.py:222-250 | from any state with the lock free, a call for another model gets it when nothing goes wrong: the old server stopped, a new one with that model that has answered, and a loading and a ready, in this order, for a caller that listens |

## Left out

- Client.Generate: httpx transport, status codes, the non-streaming request and the token counts are not modelled; an attempt is its non-empty pieces and how it ended.
- Client.Feed's `int(text, 16)` on four characters that are not all hex digits is an arbitrary function, because Python accepts signs, blanks and underscores there; derivable texts never reach it.
- Python's `str()` of a value that is not a string, and whether a number is zero, are arbitrary functions of the parse; the recursion limit of `json.loads` is not modelled.
- Grammar.ValueOf: the grammar is an abstract syntax tree of the rules; the notation llama.cpp parses, and the sampler itself, are not part of this model.
- Protocol.GrammarHonored: tool names are taken to hold no quote, backslash or control character, as the registry's snake_case names do.
- Contract.DecodesEncoded: numbers are read exactly, though JavaScript keeps integers exact only up to 2^53; the client does not check fields, so an object with a field missing is not modelled further than being no event.
- Sse.RoundTrip: texts that cannot be encoded as UTF-8 (lone surrogates) cannot be sent and are excluded; decoding bytes into characters is the platform's and is left out; `JSON.parse` is modelled by the same reader as `json.loads`.
- Contract.RunArrives: fields the client does not read (`ts`, `confidence`, `score` and the like) are arbitrary other members of the object.
- Sse.StreamReader.Push: aborting the fetch and the error callback's wording are left out.
- AgentLoop.AgentLoop.Run: the tool_calls and artifacts tables, audit records that are not events, the AGENT_UNNEST_OBS switch and the wording of corrective messages are left out; one Turn holds what the world decides in one step.
- AgentLoop.AgentLoop.Report: which citations and artifacts a result yields is arbitrary, except that only a successful search cites, at most five hits.
- Compaction.Compact: a message's content is a text; list-valued content is taken by its `str()`.
- Session.SessionStore.Receive: ids, timestamps other than those rows freeze with, the model picker and the attachments are left out; strings are code points, not UTF-16 units, which the operations modelled here cannot tell apart.
- Chunk.ChunkBlocks: uuid, doc_id and filename of a chunk are left out; `tail_to_tokens` is an arbitrary function there, as the token counter is.
- Pages.IngestText: reading the file formats and the OCR batches of the page path are left out; ChunkPages starts from their numbered pages.
- Pages.Paginate: block objects are taken to be distinct, as the readers create them.
- Table splitting by rows (`table_markdown_blocks`) is left out: it would only add easy members.
- Layout.BuildBlocks: ruled regions are left out, because a region with fewer than four lines drops their text; medians, modes and the heading test are parameters, and sums are over reals.
- Corpus.Service.ServeAll: chunk and document ids are taken to be fresh, as uuid4 makes them; the SQL side does not fail; the page table, timestamps and the order of the sparse index's ids are left out.
- Search.Find: embedding, BM25 scoring and the reranker are arbitrary; timings are left out.
- Fuse.ReciprocalRankFusion: scores are exact rationals, not floats.
- Budget.TruncateOvershoots: 3.4 is 17/5 and 0.85 is 17/20, exactly; the tokenizer's own branch is an arbitrary counter with its truncation (module Budget, `Meter`).
- Budget.Fit: writing the spilled file is left out; its path is a parameter.
- Snippet.FocusedSnippet: `str.splitlines` is a parameter; `str.lower` is taken character by character, which U+0130 alone does not obey.
- Payload.HitsPayload: the snippet is an arbitrary function of text and allowance; page and rounded score are numbers as they are written; 0.40 is 2/5, exactly; spilling the full text is left out.
- Payload.CitationsFrom: which values Citation takes for an integer or a float is arbitrary; the warning that is logged is left out.
- Manager.SingleResident: `shutdown`, orphan reaping and `startup`'s external probe are left out, as are timeouts as numbers: a deadline may pass at any poll.
- Router decisions, endpoints, the sandbox, netguard, registry look-ups and rendering to office formats are not part of this model.
