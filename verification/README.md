# Primagen agent runtime: a verified model

Primagen is a C99 agent runtime. This project models its five stateful components in Dafny and
proves what their documentation, tests and callers rely on.

To verify: `dafny verify dfyconfig.toml`.

| file | modules | what it is about |
|---|---|---|
| Text.dfy | Text | leading white space |
| Codec.dfy | Wrappers, Sequences, Varint | base-128 varints, the scanner and the writer |
| Wire.dfy | Wire, Buffers | tagged fields as a syntax with a rendering; skipping; the growable byte buffer |
| Frame.dfy | Frames | the long-connection frame: parser, encoder, round trip |
| FrameBytes.dfy | FrameBytes | the frame on the wire, byte by byte: each field number, cut fields, what is written |
| Reassembly.dfy | Reassembly | sixteen slots of multi-part messages; the ring of recent event ids |
| History.dfy | History | the grammar of a conversation history and the cut that fits it to a window |
| SessionStore.dfy | SessionStore | a session, its file, rollback, consolidation, loading |
| Protocol.dfy | Protocol | one session of the agent loop as a state machine and its invariant |
| Runs.dfy | Runs | whole runs over any number of sessions: safety, accounting, termination |
| Recording.dfy | Recording | what a run leaves behind, with and without recording |
| Answers.dfy | Answers | what each step sends, records and asks for, in the event's own terms; where replies go over whole runs |
| AgentLoop.dfy | Orchestrator, AgentLoop | the linked task list and the handlers, proved to be the protocol's steps |
| CronFields.dfy | CronFields | schedule text: numbers, fields, tokens of at most seven characters |
| CronSearch.dfy | CronSearch | the minute search, the daily closed form, the kinds of schedule |
| CronOutcome.dfy | CronOutcome | what a schedule written in the documented forms asks for, from its text to its next run |
| CronWorker.dfy | CronWorker | the linked job list and one pass of the worker over it |
| CronPass.dfy | CronPass | one pass and one change of the job list, job by job and field by field |
| Stream.dfy | Streaming | the incremental parser of streamed replies |
| StreamLines.dfy | StreamLines | what single lines of a streamed reply do, character by character |
| Executor.dfy | Executor | the tool executor's queue, worker pool and shutdown |
| SyncWait.dfy | SyncWait | the reference-counted synchronous wait with a timeout |
| MessageBus.dfy | MessageBus | the closable ring queue |
| SessionTable.dfy | SessionTable | the bucketed table of sessions |

## How the model is built

Code that changes things step by step is modelled by classes and methods over fields, arrays and
linked nodes. Each such method is proved equal to a function of the old state, and the properties
are lemmas about that function and about runs of it. Concurrency is a state machine whose steps
are the sections the C code executes under one mutex; a run is any sequence of enabled steps, so
every interleaving is covered.

- The agent loop: `CellStep` is one handler on one session, `Step` carries it into a world of many
  sessions, `Loop.HandleEvent` does the same on session objects and the task list. `CellInv` is the
  invariant: waiting for the LLM means one LLM result and no tool result to come over a closed
  history; waiting for tools means exactly the results the history lacks, counted by
  `pending_tool_count`; no task means nothing outstanding. A history is `Closed` when every tool
  result follows its owner and every call is answered exactly once before the next message that is
  no tool result.
- The functions that specify an operation are pinned a second time, in the operation's own terms and
  without naming them: what a step of the agent loop sends and records (`Answers`), what each field
  number does to a frame and which bytes are written (`FrameBytes`), which word of a schedule is which
  field and when it next runs (`CronOutcome`), what a pass does to each job (`CronPass`), what a line of
  a stream adds (`StreamLines`).
- The codec follows the Protocol Buffers Encoding guide ("Base 128 Varints", "Message Structure",
  "Last One Wins"). `Render` writes a field given as syntax; parsing is proved against `Apply` on
  that syntax, and holds for tags and lengths that are not the shortest varint.
- The cron search works on a calendar that gives each day its year, month, day of month and day of
  week, with days of fixed length.
- The streaming parser keeps the `[DONE]` line in its buffer with its end overwritten by NULs; that
  NUL stops `strchr` for good. The model has the same buffer, so the chunk theorem needs no
  assumption about NULs in the stream.

## Where the code does not do what one would expect

Each of these is stated as an exact condition, with an input that shows it and the code kept as it
is.

- A rollback below `last_saved_count` clamps the count without forcing a rewrite, so the file keeps
  the dropped messages (`ApplySyncedExact`, `RollbackBelowSavedGoesStale`).
- A message that must leave no record, accepted while automatic consolidation is due, is saved by the
  consolidation and stays in the file (`StepStoreExact`, `RunInStepExact`, `NoRecordLeavesNoTrace`,
  `SavedUnrecordedExample`). The messages in memory are restored all the same.
- The context cut cannot find the owner of a result with an empty call id unless the owner is the
  message right before it (`AdjustedStartExact`, `WindowExact`, `OrphanedResultExample`).
- A history saved while tool results were outstanding is loaded as it is, so after a restart the next
  request carries an unanswered call (`EveryRestartIsSafe`, `RestartedRequestExact`,
  `OpenRestartExample`).
- `%7s` splits a field of more than seven characters over the following fields (`TokensExact`).
- A field with a dash is read as one range, from its first number to the end of its first range. A list
  that mixes values and ranges therefore means what it lists only if its items together are that range
  (`MixedExact`, `RangeThenValueExample`, `ValueThenRangeExample`).
- The search tests the year before the date fields are normalised, so the first minute of the year 2100
  can still be found (`InLimitsExact`, `FoundPastLimitExact`, `FoundPastLimitExample`).
- A job added during a callback is lost when the fired job goes away and nothing lies before it in
  the list (`PassExact`, `ArrivalKeptExact`, `LostArrivalExample`): the list is relinked from the node
  after it.
- Adding a job under a known name with an invalid schedule is refused, but the old job has already
  been given that schedule and payload (`RejectedAddExact`, `RejectedAddExample`).
- A request submitted after the last worker has left is never run (`LossExact`, `LateRequestExample`).
- A timeout noticed after the callback has run is reported as a timeout although the result is
  already written (`ReturnExact`, `TimeoutWithResultExact`, `TimeoutWithResultExample`).

## Model

| member | source | states |
|---|---|---|
| Varint.SignExtendTruncates | plugins/channels/feishu_channel/feishu_ws.c:265-270 | a 32-bit value widened to 64 bits for writing and cut back on reading is unchanged, negatives included |
| Varint.VarintBytesDenote | plugins/channels/feishu_channel/feishu_ws.c:117-124 | the written bytes are one complete varint that denotes the value |
| Varint.VarintBytesShortest | plugins/channels/feishu_channel/feishu_ws.c:117-124 | no varint of the same value is shorter than the written one |
| Varint.ReadComplete | plugins/channels/feishu_channel/feishu_ws.c:63-75 | scanning a complete varint takes exactly its bytes and is not affected by what follows |
| Varint.VarintRoundTrip | plugins/channels/feishu_channel/feishu_ws.c:63-75 | reading undoes writing for every 64-bit value before any bytes |
| Varint.ReadVarint | plugins/channels/feishu_channel/feishu_ws.c:63-75 | the scan stops after the first byte below 0x80 or at the end, and its value is the base-128 number modulo 2^64 |
| Wire.WrittenFieldsWellFormed | plugins/channels/feishu_channel/feishu_ws.c:126-139 | what the field writers emit is a whole field of that number and wire type |
| Wire.SkipField | plugins/channels/feishu_channel/feishu_ws.c:77-93 | the offset moves by the size the wire type asks for, never past the end |
| Wire.SkipWhole | plugins/channels/feishu_channel/feishu_ws.c:77-93 | skipping after the tag takes exactly the body of a well-formed field |
| Wire.ReadTag | plugins/channels/feishu_channel/feishu_ws.c:187-191 | the tag of a rendered field reads back, and leaves its body and the rest |
| Buffers.ByteBuf.Ensure | plugins/channels/feishu_channel/feishu_ws.c:95-106 | doubling makes room for the extra bytes and keeps the contents |
| Buffers.ByteBuf.Add | plugins/channels/feishu_channel/feishu_ws.c:108-113 | the contents are the old contents followed by the bytes |
| Buffers.ByteBuf.AddVarint | plugins/channels/feishu_channel/feishu_ws.c:117-124 | the loop appends exactly the varint of the value |
| Buffers.ByteBuf.AddBytes | plugins/channels/feishu_channel/feishu_ws.c:130-134 | appends the rendering of a length-delimited field |
| Buffers.ByteBuf.AddVarintField | plugins/channels/feishu_channel/feishu_ws.c:136-139 | appends the rendering of a varint field |
| Frames.ParseHeaderMsg | plugins/channels/feishu_channel/feishu_ws.c:187-212 | the header loop computes the fold of header fields, or refuses a length past the end |
| Frames.ParseField | plugins/channels/feishu_channel/feishu_ws.c:214-263 | one field moves the offset forward within bounds and has the effect of one parsing step |
| Frames.ParseFrame | plugins/channels/feishu_channel/feishu_ws.c:214-263 | the frame loop terminates and computes the fold of parsing steps from an empty frame; what each step does to each field is in the FrameBytes rows |
| Frames.StepRendered | plugins/channels/feishu_channel/feishu_ws.c:214-263 | one step on any well-formed field consumes exactly that field and applies its meaning |
| Frames.ParseIsCompositional | plugins/channels/feishu_channel/feishu_ws.c:214-263 | parsing whole fields followed by any bytes is applying the fields and then parsing those bytes |
| Frames.UnknownFieldIgnored | plugins/channels/feishu_channel/feishu_ws.c:77-93 | a well-formed unknown field at any boundary changes nothing, whatever follows |
| Frames.LastOneWins | plugins/channels/feishu_channel/feishu_ws.c:219-257 | of two scalars or byte strings of one number only the second counts, whatever whole fields lie between and whatever bytes follow |
| Frames.EncodeHeaders | plugins/channels/feishu_channel/feishu_ws.c:271-283 | the loop appends one field per header with both parts, in order |
| Frames.EncodeFrame | plugins/channels/feishu_channel/feishu_ws.c:265-288 | the buffer gains exactly the rendering of the frame's fields in writing order |
| Frames.HeaderRoundTrip | plugins/channels/feishu_channel/feishu_ws.c:187-212 | a written header parses back to its two strings |
| Frames.FrameRoundTrip | plugins/channels/feishu_channel/feishu_ws.c:214-288 | parsing an encoded frame of at most 64 headers yields it with strings cut at a NUL and half-filled headers dropped |
| Frames.FrameRoundTripExact | plugins/channels/dingtalk_channel/dingtalk_ws.c:225-330 | the frame comes back unchanged if and only if its headers are complete and no string holds a NUL |
| FrameBytes.ToInt32Exact | plugins/channels/feishu_channel/feishu_ws.c:223-226 | the cast keeps the value modulo 2^32 and lands in the signed 32-bit range |
| FrameBytes.SeqIdRead | plugins/channels/feishu_channel/feishu_ws.c:219-220 | a varint field 1 sets the sequence id to its value modulo 2^64, and nothing else |
| FrameBytes.LogIdRead | plugins/channels/feishu_channel/feishu_ws.c:221-222 | a varint field 2 sets the log id, and nothing else |
| FrameBytes.ServiceRead | plugins/channels/feishu_channel/feishu_ws.c:223-224 | a varint field 3 sets the service to the low 32 bits, and nothing else |
| FrameBytes.MethodRead | plugins/channels/feishu_channel/feishu_ws.c:225-226 | a varint field 4 sets the method to the low 32 bits, and nothing else |
| FrameBytes.HeaderRead | plugins/channels/feishu_channel/feishu_ws.c:227-239 | with fewer than 64 headers a well-formed header field appends exactly its header; with 64, or when malformed, the frame is refused |
| FrameBytes.PayloadTypeRead | plugins/channels/feishu_channel/feishu_ws.c:240-248 | a length-delimited field 7 sets the payload type to its bytes, and nothing else |
| FrameBytes.PayloadRead | plugins/channels/feishu_channel/feishu_ws.c:249-257 | a length-delimited field 8 sets the payload to its bytes, and nothing else |
| FrameBytes.HeaderKeyRead | plugins/channels/feishu_channel/feishu_ws.c:195-199 | in a header, field 1 is the key |
| FrameBytes.HeaderValueRead | plugins/channels/feishu_channel/feishu_ws.c:200-205 | and field 2 the value |
| FrameBytes.CutField | plugins/channels/feishu_channel/feishu_ws.c:214-263 | a field 5, 7 or 8 that announces more bytes than there are refuses the frame; any other is skipped to the end |
| FrameBytes.CutHeaderField | plugins/channels/feishu_channel/feishu_ws.c:192-194 | inside a header every such field refuses it |
| FrameBytes.FixedSkipped | plugins/channels/feishu_channel/feishu_ws.c:77-93 | eight or four bytes are skipped for the fixed wire types, cut short or not, and none for the wire types without a size |
| FrameBytes.CStringIs | plugins/channels/feishu_channel/feishu_ws.c:274-284 | what is written of a string is its bytes up to the first NUL |
| FrameBytes.FrameWritten | plugins/channels/feishu_channel/feishu_ws.c:265-288 | the bytes of an encoded frame, tag by tag: 08, 10, 18, 20, then 2A for each header with 0A and 12 inside, 3A and 42 |
| Reassembly.Assembler.FindSlot | plugins/channels/feishu_channel/feishu_ws.c:311-325 | the slot chosen is the message's own, else the first free one, else the first |
| Reassembly.Assembler.CombinePayload | plugins/channels/feishu_channel/feishu_ws.c:306-362 | the slots and the result are those of one delivery, and the slots stay well formed |
| Reassembly.Assembler.CleanupExpired | plugins/channels/feishu_channel/feishu_ws.c:364-371 | exactly the slots older than five seconds are freed |
| Reassembly.StepKeepsWellFormed | plugins/channels/feishu_channel/feishu_ws.c:306-371 | no two slots ever share a message id and no occupied slot is complete |
| Reassembly.DeliverRefinesTable | plugins/channels/feishu_channel/feishu_ws.c:306-362 | a delivery changes its own message as if it were alone and no other, except the evicted first slot when there is no room |
| Reassembly.FewIdsHaveRoom | plugins/channels/feishu_channel/feishu_ws.c:311-325 | with at most sixteen ids about, no slot is ever evicted |
| Reassembly.OrderIndependent | plugins/channels/feishu_channel/feishu_ws.c:306-362 | in any order, with repeats and other messages between, only the last missing part yields, and yields the concatenation |
| Reassembly.ConcatParts | plugins/channels/feishu_channel/feishu_ws.c:345-356 | parts are put together in order, each whole |
| Reassembly.FirstPart | plugins/channels/feishu_channel/feishu_ws.c:326-337 | a first part, or one that names another count, starts its message over with that part alone |
| Reassembly.FurtherPart | plugins/channels/feishu_channel/feishu_ws.c:338-362 | a further part joins the others; the last one missing yields them in order and frees the slot |
| Reassembly.PickExact | plugins/channels/feishu_channel/feishu_ws.c:311-325 | a part goes to its own slot, else the lowest free one, else the first of the sixteen |
| Reassembly.CleanedExact | plugins/channels/feishu_channel/feishu_ws.c:364-371 | exactly the slots more than 5000 milliseconds old are freed |
| Reassembly.AcceptedAreSpacedOut | plugins/channels/feishu_channel/feishu_ws.c:426-438 | over any stream of events an id is let through at most once in any twenty-one |
| Reassembly.AcceptedExact | plugins/channels/feishu_channel/feishu_ws.c:426-438 | an event is refused if and only if its id is among the last twenty let through |
| Reassembly.RingContents | plugins/channels/feishu_channel/feishu_ws.c:426-438 | the ring's cells are exactly the last twenty accepted ids |
| Reassembly.EventRing.IsDuplicate | plugins/channels/dingtalk_channel/dingtalk_ws.c:336-349 | answers whether the id is among the last twenty accepted ones and otherwise records it |
| History.ClosedSuffix | src/session/session.c:494-525 | a suffix of a closed history that does not start inside a block is closed |
| History.ClosedPrefix | src/session/session.c:307-430 | a history that a further message, not a tool result, leaves closed was closed before |
| History.ResultHasOwner | src/session/session.c:494-525 | in a closed history every result's owner is an assistant message that made that call |
| History.ClosedMeans | src/session/session.c:494-525 | a history is closed if and only if it starts with no result and behind every other message stand exactly as many results as it made calls, for the same calls, and no more |
| History.AdjustContextStart | src/session/session.c:494-525 | the nested loops terminate and compute the fixed point of stepping back |
| History.SnapshotForContext | src/session/session.c:527-580 | the snapshot is the window: the whole history when it fits, else a suffix of at least the window size; it is marked truncated when shorter |
| History.AdjustedStartStops | src/session/session.c:494-525 | on any history the start moves down only, only onto a message that made calls, and stops where no call message precedes it and no earlier message made the call it answers |
| History.AdjustedStartExact | src/session/session.c:494-525 | on a closed history the start moves to the greatest index not above it that is no tool result, except exactly at an unrepairable cut |
| History.WindowExact | src/session/session.c:494-580 | a history that fits is the window; of a longer one the window is a suffix of at least that size, closed if and only if the cut is repairable, then the shortest such closed suffix, and otherwise the last messages of exactly that number |
| History.OrphanedResultExample | src/session/session.c:482-525 | a closed history of three messages whose window of one is an orphaned result |
| SessionStore.RecordRoundTrip | src/session/session.c:194-229 | a message written as a record reads back unchanged |
| SessionStore.RecordedFields | src/session/session.c:194-229 | the role names written, and which fields are written when |
| SessionStore.ReadFields | src/session/session.c:362-405 | two roles are recognised, every other is the user's, and absent fields read as empty |
| SessionStore.Session.Save | src/session/session.c:252-305 | appends the unsaved messages, or rewrites the file when asked to, when it is missing, or when the count is past the end |
| SessionStore.SaveExact | src/session/session.c:252-305 | the file after a save, line by line, rewritten or appended to |
| SessionStore.Session.Load | src/session/session.c:307-430 | the loaded session is the fold of the file's lines |
| SessionStore.LoadedCursor | src/session/session.c:307-430 | any file loads as a session that needs no rewrite, with the last metadata line's cursor, or with everything archived when there is none |
| SessionStore.Session.RollbackMessages | src/session/session.c:439-459 | truncates the messages and clamps both counters |
| SessionStore.RollbackExact | src/session/session.c:439-459 | a rollback keeps the first messages, brings back each counter beyond them and leaves the file alone |
| SessionStore.Session.MaybeAutoConsolidate | src/agent/agent_loop.c:51-114 | with a window of messages past the cursor and the memory files written the cursor moves to the end and the file is rewritten with it; otherwise only a cursor beyond the end is brought back |
| SessionStore.ConsolidatedExact | src/agent/agent_loop.c:51-114 | the cursor, the counters and the metadata line after a consolidation, and that nothing else ever changes |
| SessionStore.ConsolidatedRests | src/agent/agent_loop.c:59-68 | after a consolidation the session is not due until a window of further messages came, and then it is |
| SessionStore.ArchivesOncePerWindow | src/agent/agent_loop.c:51-114 | over any run of additions, saves, rollbacks and consolidations messages are archived at most once per window of messages added |
| SessionStore.SaveCompletes | src/session/session.c:252-305 | any save, incremental or not, leaves one metadata line and every message in the file |
| SessionStore.ApplySyncedExact | src/session/session.c:432-459 | an operation keeps file and session in step if and only if it is no rollback below the saved count |
| SessionStore.RunSynced | src/session/session.c:252-459 | so does any run of such operations |
| SessionStore.LoadRestoresSaved | src/session/session.c:307-430 | loading restores exactly the saved messages, cursor and counters |
| SessionStore.IncrementalRefinesFull | src/session/session.c:252-430 | after any legal run a save and a load give what a full rewrite would give, all messages included |
| SessionStore.RollbackBelowSavedGoesStale | src/session/session.c:439-459 | after a rollback below the saved count no later append makes the file load as the session |
| Protocol.InboundKeepsInv | src/agent/agent_loop.c:840-910 | an inbound message, accepted, refused as busy or empty, keeps pending counts and history grammar |
| Protocol.LlmResultKeepsInv | src/agent/agent_loop.c:587-750 | so does an LLM result: an error, a text or tool calls |
| Protocol.AnswerArrives | src/agent/agent_loop.c:785-795 | a tool result leaves one answer fewer outstanding, and the last one closes the history |
| Protocol.ToolResultKeepsInv | src/agent/agent_loop.c:752-811 | so does a tool result: waiting on, giving up at the turn limit, asking again |
| Protocol.CellStepKeepsInv | src/agent/agent_loop.c:587-910 | every step of a session keeps the invariant |
| Runs.StepAccounted | src/agent/agent_loop.c:587-910 | a task starts with one request, makes one request per turn it gains, sends one final reply when it ends, and nothing else is sent for it |
| Runs.BusyTurnsAway | src/agent/agent_loop.c:871-881 | a busy session turns a message away without being changed |
| Runs.ResultMakesProgress | src/agent/agent_loop.c:709-811 | every consumed result ends the task or lowers turns left, phase and results to come, lexicographically |
| Runs.EveryTaskResolves | src/agent/agent_loop.c:587-811 | whatever is answered, the task ends with exactly one final reply, a closed history and at most the allowed number of requests |
| Runs.RequestCarriesWindow | src/agent/agent_loop.c:522-562 | each request carries the window of the history as it then is |
| Runs.NamedRequestIsClosed | src/agent/agent_loop.c:522-562 | when calls are named, that window is closed |
| Runs.StepKeepsInv | src/agent/agent_loop.c:975-1000 | a step of the whole loop keeps every session's invariant, tasks keyed by session, and the balance of replies and requests |
| Runs.OtherSessionsUntouched | src/agent/agent_loop.c:975-1000 | an event changes no session but its own |
| Runs.EveryRunIsSafe | src/agent/agent_loop.c:587-1000 | the invariant holds after every run from nothing, for any arrival order and number of sessions |
| Runs.EveryRequestIsClosed | src/agent/agent_loop.c:627-811 | over every run whose calls are named, every request ever made carries a window in which each call is answered exactly once after its owner |
| Runs.EveryRestartIsSafe | src/agent/agent_loop.c:846-850 | from session files the invariant holds at the start if and only if every loaded history is closed, and then after every run |
| Runs.EveryRestartedRequestIsClosed | src/agent/agent_loop.c:627-850 | and then every request of a run whose calls are named is closed |
| Runs.RestartedRequestExact | src/agent/agent_loop.c:846-910 | the first request of a loaded session, when nothing is cut, is closed if and only if the loaded history is |
| Runs.OpenRestartExample | src/agent/agent_loop.c:846-910 | a loaded history ending in an unanswered call, and the open request it leads to |
| Recording.StepStoreExact | src/agent/agent_loop.c:893-910 | a step keeps session and file in step if and only if it does not accept an unrecorded message while consolidation is due |
| Recording.NoRecordKeepsMessages | src/agent/agent_loop.c:460-489 | in any state of the protocol, an unrecorded task leaves its session's messages as they were however many rounds it took, with both counters at most their count |
| Recording.RunProjects | src/agent/agent_loop.c:975-1000 | a run of many sessions, seen from one session, is the run of that session's own events |
| Recording.UnrecordedInEveryRun | src/agent/agent_loop.c:460-489 | so in every run from nothing, with other sessions' events between, an unrecorded task leaves its session's messages as they were |
| Recording.RunInStepExact | src/agent/agent_loop.c:893-906 | sessions and files are in step at every point of a run if and only if the run never accepts an unrecorded message while consolidation is due |
| Recording.SavedUnrecordedExample | src/agent/agent_loop.c:51-114 | a first unrecorded message under a window of one: its task rolls back and its file still holds it |
| Recording.NoRecordLeavesNoTrace | src/agent/agent_loop.c:460-489 | with session and file in step before, an unrecorded task leaves the whole session and its file as they were if and only if its acceptance did not consolidate |
| Answers.CommandIs | src/agent/agent_loop.c:857-869 | a command is exactly a text whose first character past the white space is a slash |
| Answers.InboundSays | src/agent/agent_loop.c:883-910 | an accepted message is recorded with its sender's name in front, starts a task at turn one for its chat and asks the LLM once, over a window of 30 messages or as configured; nothing is sent |
| Answers.InboundSaves | src/agent/agent_loop.c:51-114 | it reaches the file exactly when 100 messages, or as configured, lie past the cursor and the memory files are written |
| Answers.BusySays | src/agent/agent_loop.c:871-881 | a busy session answers with the notice and keeps its state |
| Answers.QuietSays | src/agent/agent_loop.c:840-869 | an empty message does nothing and a command at most creates the session |
| Answers.ErrorSays | src/agent/agent_loop.c:726-740 | an error ends the task with one reply, the apology and the error, which is also recorded and saved unless the task leaves no record |
| Answers.TextSays | src/agent/agent_loop.c:587-625 | a text ends the task with one reply to its chat: the reminder's confirmation in the first turn, else the cleaned text, else the raw text; a recorded history gains exactly that message, or nothing when it is empty |
| Answers.CallsSay | src/agent/agent_loop.c:627-707 | the text is sent as progress if there is one, the message is recorded with its calls, unknown tools turned into skill loads of that name, and exactly those calls are outstanding |
| Answers.ResultSays | src/agent/agent_loop.c:752-811 | an outcome is recorded with its call; the last one asks again one turn further, or, at 15 turns or as configured, ends the task with the apology, which is sent and not recorded |
| Answers.WorldSays | src/agent/agent_loop.c:975-1000 | the loop over sessions takes over exactly what the event's own session did, its messages and requests behind the earlier ones |
| Answers.EveryReplyIsRouted | src/agent/agent_loop.c:428-458 | over every run, whatever is sent goes to a chat a message came from, and a final reply to the chat whose message started its task |
| Orchestrator.SessionOrchestrator.AddTask | src/agent/session_orchestrator.c:94-119 | the list gains the task at its end whatever it holds; with a new key and id the table by session key gains it |
| Orchestrator.SessionOrchestrator.Append | src/agent/session_orchestrator.c:106-115 | the walk to the last node links a new one behind it |
| Orchestrator.SessionOrchestrator.Unlink | src/agent/session_orchestrator.c:129-135 | the node after `previous`, or the head, leaves the linked list |
| Orchestrator.SessionOrchestrator.RemoveTask | src/agent/session_orchestrator.c:121-157 | the walk with its previous node unlinks the task of that id and no other; the table loses its key |
| Orchestrator.SessionOrchestrator.SnapshotTask | src/agent/session_orchestrator.c:232-260 | the walk finds what the table holds for the key |
| Orchestrator.SessionOrchestrator.UpdateState | src/agent/session_orchestrator.c:262-275 | only the state of the key's task changes |
| Orchestrator.SessionOrchestrator.UpdatePending | src/agent/session_orchestrator.c:277-290 | only the pending count of the key's task changes |
| Orchestrator.SessionOrchestrator.DecrementPending | src/agent/session_orchestrator.c:292-308 | lowers the count by one and returns it, or -1 without a task |
| Orchestrator.SessionOrchestrator.IncrementTurn | src/agent/session_orchestrator.c:310-323 | only the turn of the key's task changes |
| Orchestrator.TableRemove | src/agent/session_orchestrator.c:121-157 | unlinking a task from the list removes its key from the table |
| AgentLoop.Loop.StartTask | src/agent/agent_loop.c:428-458 | the session gets the new task, waiting for the LLM at turn one |
| AgentLoop.Loop.RemoveActiveTask | src/agent/agent_loop.c:460-489 | an unrecorded task's messages are rolled back and the task is gone |
| AgentLoop.Loop.TriggerLlm | src/agent/agent_loop.c:522-562 | one more LLM result is awaited and the request carries the window |
| AgentLoop.Loop.ProcessInbound | src/agent/agent_loop.c:840-910 | is the protocol's inbound step on that session and touches no other; a slash command is left to the dispatcher |
| AgentLoop.Loop.HandleLlmError | src/agent/agent_loop.c:726-740 | records and sends the apology and ends the task |
| AgentLoop.Loop.HandleTextResponse | src/agent/agent_loop.c:587-625 | sends the reminder's confirmation, the cleaned text or the raw text, in this order of preference, as the final reply; records it when it is not empty and ends the task |
| AgentLoop.Loop.RewriteCalls | src/agent/agent_loop.c:627-641 | exactly the calls to unknown tools become skill loads of that name |
| AgentLoop.Loop.HandleToolCalls | src/agent/agent_loop.c:627-707 | records the calls, awaits one result for each, and sends the progress text if any |
| AgentLoop.Loop.HandleLlmResult | src/agent/agent_loop.c:709-750 | is the protocol's LLM step on that session |
| AgentLoop.Loop.HandleToolResult | src/agent/agent_loop.c:752-811 | is the protocol's tool step on that session |
| AgentLoop.Loop.HandleEvent | src/agent/agent_loop.c:975-1000 | on session objects and the task list, one event is one step of the many-session protocol |
| AgentLoop.Loop.ProcessAll | src/agent/agent_loop.c:975-1000 | the worker's run over any events is the protocol's run |
| CronFields.AtoiOfShow | src/cron/cron.c:71-116 | a written number reads back whatever non-digit follows |
| CronFields.CronFieldMatches | src/cron/cron.c:71-116 | the scan with its comma loop decides the field's matching predicate |
| CronFields.FieldMeansSpec | src/cron/cron.c:71-116 | a field written as any, step, range or list matches exactly the values it denotes |
| CronFields.DashMakesOneRange | src/cron/cron.c:84-91 | a field that starts with a range matches that range, whatever follows its second number |
| CronFields.MixedMeansOneRange | src/cron/cron.c:84-91 | a list of values and ranges with a range in it matches one range: from its first number to the end of its first range |
| CronFields.CoversExact | src/cron/cron.c:84-91 | checkable on the items: they cover an interval exactly if none sticks out, its start is listed, and so is the successor of each item's end |
| CronFields.MixedExact | src/cron/cron.c:71-116 | such a list matches exactly the numbers it lists if and only if it has no range or its items together are that one range |
| CronFields.RangeThenValueExample | src/cron/cron.c:84-91 | "1-3,5" does not match 5 |
| CronFields.ValueThenRangeExample | src/cron/cron.c:84-91 | "1,3-5" matches 2 |
| CronFields.TokensExact | src/cron/cron.c:124-125 | words joined by spaces come back as the fields if and only if none is longer than seven characters |
| CronOutcome.WordsAreFields | src/cron/cron.c:118-128 | five words of at most seven characters are minute, hour, day of month, month and day of week in this order; further words are ignored |
| CronOutcome.FieldTexts | src/cron/cron.c:71-111 | what a field matches for any text: star, step, first dash, single number |
| CronOutcome.ListTexts | src/cron/cron.c:93-107 | a list without a dash matches the number of each nonempty piece |
| CronOutcome.AtoiExact | src/cron/cron.c:77-111 | the number read from a text with a sign, behind space, or with no number in it |
| CronSearch.FieldsOf | src/cron/cron.c:130-141 | day, hour, minute and second put together break down into themselves |
| CronSearch.DayFieldsMatch | src/cron/cron.c:156-161 | the five-way disjunction decides the rule that day of month and day of week are alternatives only when both are given |
| CronSearch.SearchNextRun | src/cron/cron.c:118-181 | the result is the least matching whole minute after now, and none exactly when none lies within the limits |
| CronSearch.NextRunUnique | src/cron/cron.c:118-181 | that condition determines the result |
| CronSearch.InLimitsExact | src/cron/cron.c:137-141 | the year limit admits every minute up to 2099 and the first minute of a later year that follows one |
| CronSearch.FoundPastLimitExact | src/cron/cron.c:137-141 | a time found lies past 2099 if and only if it is the first minute of that year |
| CronSearch.FoundPastLimitExample | src/cron/cron.c:137-141 | a minute before the year 2100 the every-minute schedule finds its first minute |
| CronSearch.NextDailyRun | src/cron/cron.c:183-195 | today's time or, when it has passed, tomorrow's |
| CronSearch.DailyMatches | src/cron/cron.c:118-195 | the daily fields match exactly the minutes of that hour and minute |
| CronSearch.DailyIsLeast | src/cron/cron.c:183-195 | no matching minute lies between now and the closed form |
| CronSearch.DailyIsSearch | src/cron/cron.c:118-195 | the closed form is what the search finds, as long as the year limit is not reached |
| CronSearch.ScheduleNextRun | src/cron/cron.c:197-236 | the dispatch yields the outcome the schedule defines; what that is for each form of text is in the CronOutcome rows |
| CronSearch.OutcomeUnique | src/cron/cron.c:197-236 | a schedule and a time have one outcome |
| CronSearch.OutcomeOf | src/cron/cron.c:197-236 | and they have one for every schedule text |
| CronSearch.RecurringIsLater | src/cron/cron.c:197-236 | a recurring schedule is always rescheduled strictly later than now |
| CronSearch.DailyTextIsDaily | src/cron/cron.c:49-65 | "M H * * *" is read as that hour and minute by the daily parser |
| CronSearch.DailyTextIsFields | src/cron/cron.c:124-128 | and as its five fields by the standard parser |
| CronSearch.DailyScheduleOutcome | src/cron/cron.c:49-236 | every "M H * * *" schedule recurs at the closed form, whichever of the two paths computes it |
| CronOutcome.DailyExact | src/cron/cron.c:49-65 | of the texts of five documented forms the daily parser reads exactly a single minute and hour with three stars |
| CronOutcome.SpecsOutcome | src/cron/cron.c:118-236 | five documented forms that fit their fields recur at the first minute after now, within 366 days and before 2100, whose minute, hour and month they denote and whose day one of the two day fields denotes; without such a minute a single hour and minute recur at that time of day, and all else is invalid |
| CronOutcome.EveryOutcome | src/cron/cron.c:203-208 | an interval recurs that many seconds later, 60 unless it is positive |
| CronOutcome.InOutcome | src/cron/cron.c:209-214 | a delay runs once that many seconds later, 1 unless it is positive |
| CronOutcome.AtOutcome | src/cron/cron.c:199-219 | a time runs once at that time, and an empty or missing schedule once, now |
| CronWorker.CronService.Push | src/cron/cron.c:639-640 | the job becomes the head of the list |
| CronWorker.CronService.FindById | src/cron/cron.c:410-422 | with distinct ids the walk finds the fired job again |
| CronWorker.CronService.Unlink | src/cron/cron.c:448-463 | the node after `prev` leaves the list and the rest stays linked |
| CronWorker.CronService.Settle | src/cron/cron.c:431-468 | the fired job is rescheduled or removed and the cursor stands behind it |
| CronWorker.CronService.FireDue | src/cron/cron.c:399-468 | one firing, with jobs added during its callback, has the effect of one step of the pass |
| CronWorker.CronService.RunPass | src/cron/cron.c:393-472 | the pass over the linked list terminates, leaves the list and the calls of the specified pass, and keeps ids distinct |
| CronWorker.PassExact | src/cron/cron.c:393-472 | exactly the due jobs fire, once and in list order; the list afterwards is the rescheduled and untouched jobs behind what arrived after the leading jobs that went away |
| CronWorker.SurvivorsRest | src/cron/cron.c:393-472 | nothing of the list is due after a pass, and a second pass at that time would do nothing |
| CronWorker.NothingLostExact | src/cron/cron.c:448-463 | as many jobs are kept as were added if and only if none came during the callback of a leading job that went away |
| CronWorker.ArrivalKeptExact | src/cron/cron.c:448-463 | a job added during a callback is in the list afterwards if and only if that callback was not of one of the leading jobs that fired and went away |
| CronWorker.IdsStayDistinct | src/cron/cron.c:393-681 | over any passes, additions and removals ids stay distinct as long as each new one is new, so every pass finds its jobs again |
| CronWorker.LostArrivalExample | src/cron/cron.c:448-463 | a one-time job alone in the list takes the job its callback adds with it |
| CronPass.RestingJob | src/cron/cron.c:398-399 | a job whose time has not come neither fires nor changes |
| CronPass.FiringJob | src/cron/cron.c:399-468 | a job whose time has come fires; a recurring one gets its next time with retry count and status cleared, any other leaves the list |
| CronPass.PassLeaves | src/cron/cron.c:393-472 | the list after a pass is what the callbacks added, newest first, without what came with the leading jobs that went away, and then the survivors in order |
| CronWorker.CronService.AddJob | src/cron/cron.c:582-649 | updates the first job of that name, or puts the job at the head, or refuses an invalid schedule |
| CronWorker.AddKeepsNames | src/cron/cron.c:588-640 | names stay distinct |
| CronPass.KnownNameAdded | src/cron/cron.c:588-617 | a known name keeps its id, place and counts and takes over schedule and payload, and the next time unless the schedule is refused |
| CronPass.NewNameAdded | src/cron/cron.c:622-648 | a new or missing name puts the job with its next time at the head, or is refused without a change |
| CronWorker.RejectedAddExact | src/cron/cron.c:588-608 | a refused addition leaves the list alone if and only if it names no job of another schedule or payload |
| CronWorker.RejectedAddExample | src/cron/cron.c:588-608 | a refused addition that leaves the known job with the bad schedule |
| CronWorker.CronService.RemoveJob | src/cron/cron.c:651-681 | removes the first job of that id and says whether there was one |
| CronWorker.RemoveUndoesAdd | src/cron/cron.c:582-681 | removing a job just added under a new name and id restores the list |
| CronPass.RemovedIs | src/cron/cron.c:651-681 | the first job of an id leaves the list and the others keep their order |
| Streaming.ChunkInvariant | src/providers/openai_provider.c:614-693 | however the stream is cut into reads, buffer and reply are those of one read of the whole |
| Streaming.DrainThenMore | src/providers/openai_provider.c:626-692 | draining complete lines early and then appending is draining what was appended to |
| Streaming.StreamMeansLines | src/providers/openai_provider.c:614-693 | the reply is the fold over the stream's complete lines before the first finishing one |
| Streaming.CallsExact | src/providers/openai_provider.c:646-676 | each call has the last id and name given for its index and its argument pieces in order of arrival |
| Streaming.StreamExact | src/providers/openai_provider.c:614-693 | content, calls and the done flag of any cutting of a stream, from its lines alone |
| Streaming.StreamIsFaithful | src/providers/openai_provider.c:634-645 | the chunks handed to the caller spell the content, and only the finishing one is marked last |
| Streaming.FinishIsFinal | src/providers/openai_provider.c:634-634 | after the finishing line nothing that arrives changes the reply |
| StreamLines.DoneLine | src/providers/openai_provider.c:629-634 | the line `data: [DONE]`, with or without a carriage return, marks the reply done and hands out one last empty chunk |
| StreamLines.PayloadLine | src/providers/openai_provider.c:630-686 | a data line adds content, calls, finish reason and usage of its payload, with or without a carriage return, and text that is no payload adds nothing |
| StreamLines.OtherLine | src/providers/openai_provider.c:630-630 | a line without the prefix adds nothing |
| StreamLines.PartialLine | src/providers/openai_provider.c:628-628 | what is no complete line waits in the buffer |
| StreamLines.NulStops | src/providers/openai_provider.c:628-628 | a NUL in the stream stops the reading where it stands |
| StreamLines.PieceIs | src/providers/openai_provider.c:650-675 | a piece of a call replaces id and name, appends its arguments, and opens a new call without an index; calls skipped over are empty |
| Streaming.StreamContext.TakeDelta | src/providers/openai_provider.c:650-675 | growing the array when needed, one piece changes exactly the call of its index |
| Streaming.StreamContext.TakePayload | src/providers/openai_provider.c:636-684 | the reply is the old one with the payload added |
| Streaming.StreamContext.FindLineFeed | src/providers/openai_provider.c:628-628 | finds the line feed only when no NUL comes before it |
| Streaming.StreamContext.TakeLine | src/providers/openai_provider.c:629-687 | one line is taken, or the finishing line blocks the buffer |
| Streaming.StreamContext.Compact | src/providers/openai_provider.c:688-692 | what is left moves to the front of the buffer |
| Streaming.StreamContext.Read | src/providers/openai_provider.c:617-693 | a read event leaves the buffer and the reply of feeding its bytes |
| Executor.StepConserves | src/tools/tool_executor.c:15-199 | a step keeps the queue first in, first out and each accepted request queued, in work or called back |
| Executor.StepStaysLive | src/tools/tool_executor.c:22-33 | a step loses no wake-up and lets workers leave only on shutdown with an empty queue |
| Executor.EveryRunConserves | src/tools/tool_executor.c:15-199 | in every run requests are taken in order and each is run and called back at most once, none disappearing |
| Executor.NeverStuck | src/tools/tool_executor.c:22-30 | while requests wait and workers are left, some worker can go on |
| Executor.ShutdownExact | src/tools/tool_executor.c:119-153 | when all workers have left, exactly the requests accepted after the last left were never called back |
| Executor.LossExact | src/tools/tool_executor.c:119-199 | over a run whose workers have left, some request was never called back if and only if some submission came when no worker was left |
| Executor.ShutdownLosesNothing | src/tools/tool_executor.c:119-153 | when every submission precedes the shutdown, the queue ends empty and each request was taken in order, run and called back exactly once |
| Executor.LateRequestExample | src/tools/tool_executor.c:119-153 | shut down, let the only worker leave, then submit: the request is never run |
| Executor.ShutdownEnds | src/tools/tool_executor.c:119-132 | after shutdown the workers take boundedly many steps and can go on until all have left |
| Executor.ToolExecutor.SubmitRequest | src/tools/tool_executor.c:163-199 | refuses a missing tool name; otherwise appends at the tail and signals |
| Executor.ToolExecutor.Dequeue | src/tools/tool_executor.c:37-43 | takes the head, and clears the tail when the queue becomes empty |
| Executor.ToolExecutor.WorkerPoll | src/tools/tool_executor.c:20-47 | a worker's turn under the mutex is the machine's step: sleep, leave or take |
| Executor.ToolExecutor.BeginShutdown | src/tools/tool_executor.c:124-128 | sets the flag and wakes every sleeper |
| Executor.ToolExecutor.CleanUp | src/tools/tool_executor.c:135-146 | frees exactly the requests that came after the last worker left |
| SyncWait.StepKeepsInv | src/tools/tool_executor.c:212-244 | a step keeps the count equal to the references held, the context alive while any is held, and outcome and flags in agreement |
| SyncWait.EveryRunIsSafe | src/tools/tool_executor.c:212-348 | under every interleaving the context is freed once, never touched afterwards, and the caller's variables are never written after the return |
| SyncWait.ReturnExact | src/tools/tool_executor.c:288-348 | a finished call carries the callback's result and error, a refused one leaves the result alone, a timed-out one too unless the callback had run |
| SyncWait.DoneReturns | src/tools/tool_executor.c:339-347 | once the callback has run, a waiter that tests again returns with its result and gives back its reference |
| SyncWait.TimeoutWithResultExact | src/tools/tool_executor.c:329-337 | a returned timeout has changed the result if and only if the callback, with a nonempty text, came before the expiry |
| SyncWait.TimeoutWithResultExample | src/tools/tool_executor.c:329-337 | a run in which it has |
| SyncWait.NoTimeoutWaits | src/tools/tool_executor.c:339-343 | without a positive timeout the call never times out |
| SyncWait.Deadline | src/tools/tool_executor.c:319-327 | the deadline is now plus the timeout, nanoseconds carried |
| SyncWait.SyncContext.DropReference | src/tools/tool_executor.c:212-226 | one reference less, and whoever reaches zero frees |
| SyncWait.SyncContext.Deliver | src/tools/tool_executor.c:228-244 | writes result, error and done unless the waiter has timed out |
| MessageBus.RunConserves | src/bus/message_bus.c:73-129 | over any run accepted messages are the received ones followed by the queued ones, and are exactly those sent before the first close; the later ones are refused, in order |
| MessageBus.ReceivesDrain | src/bus/message_bus.c:116-129 | enough receives give out everything held, in order, and then nothing |
| MessageBus.MessageQueue.Grow | src/bus/message_bus.c:89-107 | the modular copy loop terminates and doubling keeps the contents |
| MessageBus.MessageQueue.SendMessage | src/bus/message_bus.c:80-114 | appends across wrap-around and growth, or drops the message when closed |
| MessageBus.MessageQueue.ReceiveMessage | src/bus/message_bus.c:116-129 | gives out the oldest message, or nothing when closed and empty |
| MessageBus.MessageQueue.ReceiveTimed | src/bus/message_bus.c:131-166 | gives up without touching the queue, or receives |
| MessageBus.MessageQueue.FreeRest | src/bus/message_bus.c:57-61 | frees what is queued, front to rear |
| SessionTable.BucketOf | src/session/session.c:13-20 | the shifted 32-bit hash is the base-33 number of the bytes modulo 2^32, and its bucket lies in the table |
| SessionTable.HashDigits | src/session/session.c:13-20 | the number that is wrapped starts at 5381 and grows by 33 times itself plus the next byte |
| SessionTable.Manager.Get | src/session/session.c:167-184 | the bucket walk finds what the map holds for the key |
| SessionTable.Manager.Create | src/session/session.c:104-112 | the map gains the session, hiding an older one of that key |

## Left out

- AgentLoop.Loop.ProcessInbound: a slash command is handed to the command dispatcher, which is not part of this model; that includes the skill command, which adds a task without the busy check.
- Cancellation: the snapshot a handler works on never carries the cancelled flag, so the handlers' cancelled branches are not reached through it and nothing is claimed about cancelled tasks.
- The handlers' session-not-found branches are in the protocol's steps but not in the class, where every task has its session.
- When a session file is read: the runs have the loaded histories from the start, which makes no difference to them.
- Provider and executor answers: each request is answered by one event, in any order; the executor's own guarantee is a separate result.
- The linked inbox queue between the bus and the processing worker: events are taken in the order of the run.
- Task ids, tool results and reminders come from outside as event fields; task ids are assumed unique, as their clock-and-random generator intends.
- Allocation failure, fixed-buffer truncation of keys, ids and formatted text, and string encodings.
- Timestamps, the `updated_at` fields, log output, and routing of tool contexts.
- Files are sequences of records: JSON text, the 4096-byte read buffer, temporary files and rename failures, the legacy file name and files of several metadata lines written by other versions.
- Codec lengths are natural numbers: the wrap of `offset + length` in `size_t` is not modelled.
- Varint.ReadVarint: a varint of more than ten bytes, where the C shift count leaves the type's width, is read as its value modulo 2^64.
- Frame parsing starts from a zeroed frame; freeing and leaking of replaced strings is not modelled.
- Frames.LastOneWins: headers are not among its fields, because they accumulate.
- Expiry of pending parts is part of the steps, but order independence is for messages whose parts arrive before they can expire.
- Reassembly of a message id reused with another part count restarts the slot, as in the code; order independence is for one count per id.
- Time zones with daylight saving: days have a fixed length, and the date fields are any function of the day whose year never falls.
- Cron jobs are not removed, nor updated under their name, while a callback runs; jobs with a missing or repeated id are not modelled.
- The cron worker's sleep between passes, its store file, and start and stop.
- `atoi` beyond the range of `int`, and the 31 characters to which a comma list is cut, which no field of seven characters reaches.
- CronWorker.CronService.AddJob: a job comes with its id; the id generated for a job without one is that parameter.
- Negative tool-call indices in a stream, and the trimming of leading line breaks from the finished content.
- The HTTP and TLS connection, its errors and its 120-second limit.
- Executor requests carry no user data; what a tool computes and who else it calls are outside.
- Submitting after the executor itself has been freed.
- MessageBus.MessageQueue.ReceiveMessage: the wait itself is its precondition, that something is queued or the queue is closed.
- The pause of up to one second in which readers may drain a queue being freed, and the three queues' wiring.
- Concurrent readers of the session table, and the file names derived from session keys.
- Configuration, skills, plugins, channels' sending paths and memory text editing: easy or input/output only.
