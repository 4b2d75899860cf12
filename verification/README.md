# Mutsuki service: models and proofs

Mutsuki Service is a daemon that hosts plugins around a runtime core. It is driven over a control connection,
supervises external runner processes and event sources, and keeps its state in files. This project models the parts
of it where steps interleave, fail half-way or undo each other, and proves what they keep.

`dafny verify dfyconfig.toml` checks everything.

## The parts

**The control connection.** `ServerConnection` and `ClientSession` are labelled transition systems: a step is what one
actor (read loop, request task, `send`, `cancel`, reader task) does between two await points. The server's steps
follow `serve_binary`, `dispatch_request`, `cancel_pending` and `wait_pending_drain`; the client's follow `send`,
`cancel`, `close` and the reader. A state holds the pending map, the permits, who holds which async lock, what the
shared encode buffer contains, and the whole histories of frames read and written. Aborts, timeouts, dropped calls,
failed writes and handler panics are steps that may happen at any time. `ServerSafety` and `ClientSafety` prove inductive invariants of each end,
`ServerDuties` and `ClientDuties` what each end is bound to do, `InFlight` what the client's limit bounds;
`ControlLink` joins the two ends by one stream in each direction and proves that answers reach the call they belong
to; `WrappedIds` is the run that breaks this once ids repeat; `LinkBytes` puts the bytes under the link. `Locks` has
the common argument against cycles of waits.

**Frames and lines.** `Bytes`, `Frame`, `FrameIo` and `Jsonl` are the binary codec and the stream readers as methods
over a stream that hands out bytes in pieces of any size, each proved against a function of the bytes left.

**Plugins.** `Grouping` and `Inventory` are the tail of the plugin scan (sort, group, drop duplicates), `Catalog` the
choice of one artifact per enabled plugin, and `Deployment` the transaction that changes a preferred deployment: a
class with the preference file, the preferences in memory, the lock file, the Core's generation and the active
catalog, whose methods take the answers of everything outside them as a `World`. Its theorems are about every run.

**Supervisors.** `EventSource` is the actor of one event source: nested loops proved equal to a flat state machine,
whose runs leave a log of starts, exits, handled commands, fired tokens, stops and drops. `RunnerSupervisor` is the
map of runner processes with `start`, `restart`, `stop` and `reconcile`.

**Text and files.** `ServiceUnit` has the systemd quoting, the path escape and the service name; `Secrets` the secret
file and its rotation; `LogTail` the incremental reading of the log; `Text` trimming and ordering of strings.

## What turned out to depend on a condition

- An encoded frame decodes exactly when header and payload are shorter than 2^32 bytes; beyond that the length prefix
  is cut (`Frame.DecodeUndoesEncode`, `Frame.CutLengthIsRejected`).
- A call of `send` gets its own answer as long as no other request frame on the wire has its id; ids repeat after
  2^64 sends (`ControlLink.OkCarriesOwnAnswer`, `ClientSafety.IdsRepeatExactly`). After that a call can end with another
  call's answer (`WrappedIds.WrappedCallTakesForeignAnswer`).
- The drain of a server connection misses a task when the peer reuses a request id, in two ways: the new entry replaces
  that of a live task, or the old task's removal takes the new task's entry away and drops its abort sender
  (`ServerSafety.ReplacedEntryEscapesTheDrain`, `ServerSafety.RemovedEntryEscapesTheDrain`). What an Ok exit leaves
  behind is exactly the tasks lost in these ways that have not ended (`ServerSafety.OkExitLeavesTheLost`).
- The client's limit of requests in flight holds while calls are made one at a time; calls that check before any of
  them enters break it by any number (`InFlight.SingleFileKeepsTheLimit`, `InFlight.CrowdBreaksTheLimit`).
- A call whose encoding fails, or that is dropped, leaves its entry in the client's table
  (`ClientDuties.OnlyTheseLeakEntries`); a task that crashes, or ends before its entry is made, leaves its entry in the
  server's map, where only such entries can hold up a drain (`ServerDuties.EntriesOutliveOnlyTheStale`).
- A deployment change compares plugin ids trimmed but stores them as written, so a change of an untrimmed id is
  reported as done without effect (`Deployment.ChangeTakesEffect`, `Deployment.UntrimmedSetFails`).
- Disk and memory preferences separate when the old file is removed and the rename then fails, or when the rollback
  save fails (`Deployment.DiskStep`). A failed write of the lock file is not rolled back (`Deployment.LockStep`).
- After a failed kill a runner stays marked as running without a child, and reconciling never notices
  (`RunnerSupervisor.OrphansStay`).
- A restart of an event source whose `shutdown` fails while it runs does not start it again
  (`EventSource.RestartStartsAgain`).
- A rotation writes the secret file before it validates it (`Secrets.InvalidFileIsWrittenAnyway`).
- A log read in the middle of a line reports that line twice (`LogTail.TailingIsExact`).

## Model

| member | source | states |
|---|---|---|
| `ControlLink.OkCarriesOwnAnswer` | crates/mutsuki-service-ipc/src/session.rs:136-195 | in every interleaving of client and server, a `send` that returns Ok returns the answer the server produced for the very request frame that call wrote, if no other request frame with its id is on the wire; an answer that says cancelled was asked for by a cancel frame with that id or made by the drain |
| `ControlLink.OkCarriesOwnAnswerBeforeWrap` | crates/mutsuki-service-ipc/src/session.rs:136-195 | up to 2^64 sends every Ok answer is the call's own |
| `ControlLink.LateResponseMeansGivenUp` | crates/mutsuki-service-ipc/src/session.rs:276-283 | when the reader is about to end the session for a response without a pending entry, that response belongs to a call of this session that timed out, was cancelled or failed in its write after the frame had gone out (or, after ids wrapped around, lost its id to another call) |
| `ControlLink.ServerSeesDistinctIds` | crates/mutsuki-service-ipc/src/session.rs:140-143 | up to 2^64 sends no two request frames on the wire share an id, so the hypothesis of the results above and of the server's pending map holds |
| `ControlLink.ReplySource` | crates/mutsuki-service-ipc/src/server_conn.rs:292-314 | every response the client has read is the one reply to one request frame the client wrote, with that frame's id and the answer produced for it |
| `ControlLink.AnswersReachTheirCall` | crates/mutsuki-service-ipc/src/session.rs:253-286 | up to 2^64 sends, whatever response the client has read was given to the call that wrote the request it answers; only the newest can still be on its way, or have ended the session |
| `ControlLink.CancelStopsTheHandler` | crates/mutsuki-service-ipc/src/server_conn.rs:345-351 | a cancel frame that follows a request with a unique id on the wire, once the server is done with it, has stopped that request's handler |
| `ControlLink.OkExitLeavesNoTask` | crates/mutsuki-service-ipc/src/server_conn.rs:172-200 | on a link with distinct ids on the wire, a server loop that ended Ok left an empty map and no live task that was not aborted |
| `WrappedIds.WrappedCallTakesForeignAnswer` | crates/mutsuki-service-ipc/src/session.rs:140-195 | the condition on ids is needed: for all texts, all answers and all limits that allow two calls, there is a run with 2^64 + 1 sends in which call 2^64 ends Ok with the answer to the request of call 0, and no answer to its own request was ever produced |
| `LinkBytes.ServerReceivedTheBytes` | crates/mutsuki-service-ipc/src/io.rs:69-123 | read after read, the bytes of the client's frames give exactly the frames the server has received, and leave the bytes of the others |
| `LinkBytes.ServerReceivesNextFrame` | crates/mutsuki-service-ipc/src/io.rs:69-123 | what one more read of those bytes returns is the only frame the server's loop may receive next |
| `LinkBytes.ClientReceivedTheBytes` | crates/mutsuki-service-ipc/src/io.rs:11-54 | the same for the responses the client has read |
| `LinkBytes.ClientReceivesNextFrame` | crates/mutsuki-service-ipc/src/io.rs:11-54 | and for the response it may read next |
| `LinkBytes.LoopsDecideAlike` | crates/mutsuki-service-ipc/src/server_conn.rs:202-279 | one iteration of the byte loop and the steps of the connection decide alike on every frame: cancel, refusal, admission, wrong flags, unknown opcode after the payload is read, undecodable body |
| `ClientSafety.IdsRepeatExactly` | crates/mutsuki-service-ipc/src/session.rs:140-143 | two sends of one session get the same id exactly when their positions differ by a multiple of 2^64 |
| `ClientSafety.CompletionIsFinal` | crates/mutsuki-service-ipc/src/session.rs:153-211 | after any number of sends no step changes the completion of a pending entry or the result of a call that has ended: no id is completed twice |
| `ClientSafety.OwnRequestIsWritten` | crates/mutsuki-service-ipc/src/session.rs:158-171 | what a call writes out of the shared encode buffer is its own request, in every interleaving |
| `ClientSafety.NoneReplacedByStep` | crates/mutsuki-service-ipc/src/session.rs:153-156 | up to 2^64 sends inserting an entry never replaces that of another call |
| `ClientSafety.OkIsOwnResponse` | crates/mutsuki-service-ipc/src/session.rs:186-187 | a call that ends Ok was given a response frame with its own id, and calls with different ids were given different frames |
| `ClientDuties.TableIsTheRegistered` | crates/mutsuki-service-ipc/src/session.rs:153-211 | in every reachable state the pending table holds exactly the calls that registered and were not completed, each under its own id |
| `ClientDuties.EventCompletesExactly` | crates/mutsuki-service-ipc/src/session.rs:136-286 | in every reachable state each event (a response, a cancel, a failed write, a timeout, an insert under a repeated id, the end of the session, `close`) completes exactly the registered call with its id, or every registered call when the session ends, in the named way, and leaves all other calls, phases and entries as they were |
| `ClientDuties.ResultsAreExplained` | crates/mutsuki-service-ipc/src/session.rs:136-195 | what a call reports says what became of its entry, failure by failure: cancelled only when a cancel took the entry, closed or protocol error only when the session's end or a replacement did, Io and timeout only with the entry gone |
| `ClientDuties.CompletionDecides` | crates/mutsuki-service-ipc/src/session.rs:184-187 | over any run, a waiting call whose completion is there ends with it and with nothing else, unless it times out or is dropped |
| `ClientDuties.CancelledCallEndsCancelled` | crates/mutsuki-service-ipc/src/session.rs:197-211 | a call whose entry a cancel removes while it waits ends as cancelled, whatever else happens, unless it times out or is dropped |
| `ClientDuties.CancelSettles` | crates/mutsuki-service-ipc/src/session.rs:197-211 | once a cancel that nothing disturbs is done, the call that was registered under its id has its completion |
| `ClientDuties.TimeoutIsSent` | crates/mutsuki-service-ipc/src/session.rs:188-193 | in runs in which no cancel is dropped or fails in its write, every call that timed out and every cancel that is done has its cancel frame on the wire |
| `ClientDuties.EveryFrameIsHandedOut` | crates/mutsuki-service-ipc/src/session.rs:253-286 | every frame read is a response that was handed to a call with its id, but for the newest one, which is on its way or has ended the session; the session is closed exactly when the reader has ended |
| `ClientDuties.EndReachesEveryCall` | crates/mutsuki-service-ipc/src/session.rs:229-251 | when the stream ends, every call registered then has been told, with that failure, once the reader has stopped, unless something else took its entry out before |
| `ClientDuties.OnlyTheseLeakEntries` | crates/mutsuki-service-ipc/src/session.rs:158-183 | a call that has ended keeps its entry in the pending table only when encoding its request failed, or when it was dropped |
| `InFlight.RefusedExactlyWhenFull` | crates/mutsuki-service-ipc/src/session.rs:144-151 | a call is refused for the limit exactly when `max_in_flight` calls have entries |
| `InFlight.SingleFileKeepsTheLimit` | crates/mutsuki-service-ipc/src/session.rs:144-156 | while calls go through check and insert one at a time, there are never more entries than the limit |
| `InFlight.CrowdBreaksTheLimit` | crates/mutsuki-service-ipc/src/session.rs:144-156 | otherwise the limit does not hold: for every limit and every number below 2^64 there is a run with that many entries |
| `ClientSafety.NoDeadlock` | crates/mutsuki-service-ipc/src/session.rs:144-225 | no reachable state has a cycle of lock waits among any number of calls, cancels and the reader |
| `ClientSafety.SomeoneCanStep` | crates/mutsuki-service-ipc/src/session.rs:136-286 | in every reachable state, for every call and cancel that has not ended and for the reader at work, someone can move: the actor itself, the cancel it waits for, or a holder of a lock has its next step enabled |
| `ClientSafety.CallStepKeepsTable` | crates/mutsuki-service-ipc/src/session.rs:136-195 | every step of a call, timeouts, failed writes and dropped calls included, keeps the pending table and every slot consistent |
| `ClientSafety.ReaderStepKeepsTable` | crates/mutsuki-service-ipc/src/session.rs:253-286 | every step of the reader, the final drain included, does the same |
| `ClientSafety.StepEvolves` | crates/mutsuki-service-ipc/src/session.rs:136-286 | every step of any actor leaves completions and results of all calls as they are, and pending entries point to open calls that registered the entry's id |
| `ServerSafety.PermitsConserved` | crates/mutsuki-service-ipc/src/server_conn.rs:167-314 | free permits, the one the loop holds and those of live tasks add up to `max_in_flight` in every reachable state; so handlers at work never exceed it |
| `ServerSafety.OneMutatingHandler` | crates/mutsuki-service-ipc/src/server_conn.rs:325-343 | at most one handler of a request whose opcode is mutating runs at a time in every interleaving, and it holds the mutate lock |
| `ServerSafety.MutateHolderIsHandling` | crates/mutsuki-service-ipc/src/server_conn.rs:331-342 | the mutate lock is held only by a task still handling a mutating request |
| `ServerSafety.GoneHoldsNothing` | crates/mutsuki-service-ipc/src/server_conn.rs:345-351 | a task that was reaped after an abort, panicked or removed itself holds no lock |
| `ServerDuties.CancelsAreHeeded` | crates/mutsuki-service-ipc/src/server_conn.rs:345-351 | whenever the loop waits for a frame, a received cancel for a request whose id no other request has has taken the id out of the map, and the task, if there was one, is gone, or aborted and told so |
| `ServerDuties.EveryFrameIsDealtWith` | crates/mutsuki-service-ipc/src/server_conn.rs:202-275 | whenever the loop waits for a frame, every request received has a task, or a reply that refuses it for the limit, or, with an undecodable body and a known opcode, for its body |
| `ServerDuties.RefusedExactlyWhenFull` | crates/mutsuki-service-ipc/src/server_conn.rs:217-241 | a request is refused for the limit exactly when `max_in_flight` tasks are alive |
| `ServerDuties.AnswersAreSent` | crates/mutsuki-service-ipc/src/server_conn.rs:292-314 | over any run, a task that is not aborted, does not crash, and whose encoding and write work, has its answer on the wire before it removes itself |
| `ServerDuties.EntriesOutliveOnlyTheStale` | crates/mutsuki-service-ipc/src/server_conn.rs:312-321 | no entry of the map belongs to an aborted task; one belongs to an ended task exactly when that task crashed, or had ended before its entry was made (`Stale`) |
| `ServerDuties.PatientDrainWaits` | crates/mutsuki-service-ipc/src/server_conn.rs:353-370 | a drain that ends before its deadline has waited: every task it could find, and that no cancel frame named, has ended by itself |
| `ServerDuties.EmptyMapEndsTheDrain` | crates/mutsuki-service-ipc/src/server_conn.rs:353-370 | with an empty map a drain ends without its deadline, aborting nobody |
| `ServerSafety.LostTasksAreTold` | crates/mutsuki-service-ipc/src/server_conn.rs:312-321 | a task whose entry was replaced or taken away is told: its abort channel has lost its sender |
| `ServerSafety.NoDeadlock` | crates/mutsuki-service-ipc/src/server_conn.rs:292-351 | no reachable state has a cycle of lock waits among the loop and any number of tasks |
| `ServerSafety.PendingIsTakenBareHanded` | crates/mutsuki-service-ipc/src/server_conn.rs:295-313 | a task waits for or holds the pending map only with the mutate, encode and writer locks released |
| `ServerSafety.RepliesAnswerOnce` | crates/mutsuki-service-ipc/src/server_conn.rs:217-321 | each reply on the wire carries the id of the frame it answers and the answer produced for it, though tasks encode into one shared buffer, and no frame is answered twice |
| `ServerSafety.OwnReplyIsWritten` | crates/mutsuki-service-ipc/src/server_conn.rs:295-311 | what a task writes out of the shared encode buffer is its own reply, in every interleaving |
| `ServerSafety.CancelledIsAskedFor` | crates/mutsuki-service-ipc/src/server_conn.rs:337-350 | a request whose id no other request has is answered as cancelled only after a cancel frame with that id, or when the drain swept it |
| `ServerSafety.LiveTasksAreInTheMap` | crates/mutsuki-service-ipc/src/server_conn.rs:292-321 | whenever the loop waits for a frame, a live unaborted task whose id no other request has is in the map, though spawning precedes inserting |
| `ServerSafety.OkExitLeavesNoTask` | crates/mutsuki-service-ipc/src/server_conn.rs:353-370 | with distinct ids, every Ok exit leaves an empty map and no live unaborted task |
| `ServerSafety.OkExitLeavesTheLost` | crates/mutsuki-service-ipc/src/server_conn.rs:312-370 | whatever ids the peer uses, the tasks live and unaborted at an Ok exit are exactly those that some step of the run put out of reach of the map (`Lost`: its entry replaced, or taken away by another task's removal) and that have not ended by themselves |
| `ServerSafety.OnlyRepeatedIdsAreLost` | crates/mutsuki-service-ipc/src/server_conn.rs:312-321 | in every reachable state a live unaborted task out of reach of the map has an id that another request frame has too |
| `ServerSafety.SomeoneCanStep` | crates/mutsuki-service-ipc/src/server_conn.rs:167-370 | in every reachable state, for every task that has not ended and for the loop while it is neither waiting for a frame nor over, that actor or a holder of a lock has its next step enabled |
| `ServerSafety.CoverStep` | crates/mutsuki-service-ipc/src/server_conn.rs:312-321 | whatever ids the peer uses, a step keeps every live unaborted task within reach of the map if and only if it neither replaces the entry of a live task nor is a task's removal of a live task's entry |
| `ServerSafety.OkExitWithoutLoss` | crates/mutsuki-service-ipc/src/server_conn.rs:353-370 | whatever ids the peer uses, a run that loses no task and ends Ok leaves no live unaborted task |
| `ServerSafety.ReplacedEntryEscapesTheDrain` | crates/mutsuki-service-ipc/src/server_conn.rs:315-321 | from every state in which the loop waits with two free permits, and for every id, two requests with that id and a drain end Ok with the first handler alive and unaborted |
| `ServerSafety.RemovedEntryEscapesTheDrain` | crates/mutsuki-service-ipc/src/server_conn.rs:312-313 | the second failing family: the first task ends, removes the second one's entry, and the drain ends Ok with the second handler alive and unaborted |
| `Locks.NoWaitCycle` | crates/mutsuki-service-ipc/src/server_conn.rs:292-321 | if every holder waits only for a lock of higher rank, no chain of waits of any length closes |
| `Locks.SomeoneCanProceed` | crates/mutsuki-service-ipc/src/server_conn.rs:292-321 | under the same ranking, following holders from any waiter reaches one that is not blocked |
| `Frame.FlagSets` | crates/mutsuki-service-ipc/src/frame.rs:29-50 | the bit tests accept exactly five flag sets |
| `Frame.EncodeFrameInto` | crates/mutsuki-service-ipc/src/frame.rs:87-118 | the buffer holds exactly the frame, or is untouched with the error the first failing check gives |
| `Frame.EncodesExactly` | crates/mutsuki-service-ipc/src/frame.rs:95-107 | encoding succeeds exactly within the limits and with a nonzero id, and otherwise names the first failing check |
| `Frame.LengthsExactly` | crates/mutsuki-service-ipc/src/frame.rs:190-204 | a declared length is accepted exactly from 24 to the limit, and which error it gets otherwise |
| `Frame.WireLayout` | crates/mutsuki-service-ipc/src/frame.rs:108-117 | every field's place on the wire: the characters MSHC, version 1.0, opcode and flags, then id and lengths, big-endian |
| `Frame.HeadersRefused` | crates/mutsuki-service-ipc/src/frame.rs:120-172 | which 24 header bytes are refused and with which error: the first failing check of magic, major version, flags, id and payload length; any minor version passes |
| `Frame.DecodeUndoesEncode` | crates/mutsuki-service-ipc/src/frame.rs:87-188 | decoding an encoded frame gives it back exactly when header and payload fit the 32-bit length prefix |
| `Frame.CutLengthIsRejected` | crates/mutsuki-service-ipc/src/frame.rs:108 | a concrete frame beyond that size is encoded with a cut length and then refused |
| `Frame.EncodeUndoesDecode` | crates/mutsuki-service-ipc/src/frame.rs:120-188 | accepted bytes re-encode to themselves apart from the two minor-version bytes, which are not read |
| `FrameIo.FirstByteReader.PollRead` | crates/mutsuki-service-ipc/src/server_conn.rs:79-94 | what is handed out followed by what is left is what was left before; nothing is handed out only for an empty buffer or at the end |
| `FrameIo.FirstByteReader.ReadExact` | crates/mutsuki-service-ipc/src/server_conn.rs:79-94 | for every split of the stream into polls, exactly the next `n` bytes, or the end-of-stream error with nothing left |
| `FrameIo.ServeStream` | crates/mutsuki-service-ipc/src/server_conn.rs:35-71 | the codec is chosen by the first byte, and the reader passed on yields the original stream |
| `FrameIo.BinaryIsNeverTakenForJsonl` | crates/mutsuki-service-ipc/src/server_conn.rs:44-46 | below a frame limit of 0x7B000000 no stream with a readable binary frame starts with the JSONL byte |
| `FrameIo.FrameLooksLikeJsonl` | crates/mutsuki-service-ipc/src/server_conn.rs:44-46 | an encoded frame starts with the JSONL byte exactly when its body length is in [0x7B000000, 0x7C000000) |
| `FrameIo.ReadFramePrefix` | crates/mutsuki-service-ipc/src/io.rs:69-98 | result and rest of the stream are those of the specification of prefix reading |
| `FrameIo.ReadPayloadOrDiscard` | crates/mutsuki-service-ipc/src/io.rs:100-123 | result and rest of the stream are those of the specification, whether the payload is kept or skipped |
| `FrameIo.DiscardBytes` | crates/mutsuki-service-ipc/src/frame.rs:206-218 | skipping through the scratch buffer leaves the stream as reading the bytes would |
| `FrameIo.ReadBinaryFrame` | crates/mutsuki-service-ipc/src/io.rs:11-54 | result and rest of the stream are those of reading one whole frame |
| `FrameIo.PathsAgree` | crates/mutsuki-service-ipc/src/io.rs:11-123 | on every byte stream the two reading paths consume the same bytes and report the same frame or error, allocating or discarding |
| `FrameIo.ReadTakesOneFrame` | crates/mutsuki-service-ipc/src/io.rs:11-54 | in front of any tail, one read returns the encoded frame and leaves exactly the tail |
| `FrameIo.ServeTakesOneFrame` | crates/mutsuki-service-ipc/src/server_conn.rs:186-247 | an iteration in front of an encoded frame consumes exactly that frame, whatever it decides |
| `FrameIo.ServeTurn` | crates/mutsuki-service-ipc/src/server_conn.rs:186-254 | one iteration of the server loop as a function of the bytes left, of the gate (open, full, draining) and of the opcode table |
| `FrameIo.ReadsTakeFrames` | crates/mutsuki-service-ipc/src/io.rs:11-54 | on a stream of encoded frames read after read returns them one by one and leaves exactly the others |
| `FrameIo.VerdictByFlags` | crates/mutsuki-service-ipc/src/server_conn.rs:202-247 | what becomes of a header, flag set by flag set: a cancel by its flag or by opcode 0x7FFF, an error for anything that is no request, else the gate and the opcode table decide |
| `FrameIo.ServeReads` | crates/mutsuki-service-ipc/src/server_conn.rs:186-254 | the frame-handling part of the loop on bytes, the exit for an unknown opcode included, is the recursive specification `Serve`; the drain and idle-timeout exits are not turns of it |
| `FrameIo.ServeStaysOnBoundaries` | crates/mutsuki-service-ipc/src/server_conn.rs:186-254 | on a stream of encoded frames the byte loop does what a loop on whole frames does, for any mix of admitted, refused and cancelled ones, and wherever it stops, at an unknown opcode too, it stops on a frame boundary |
| `Jsonl.ReadJsonlLine` | crates/mutsuki-service-ipc/src/io.rs:131-178 | the call consumes through the first newline, oversized lines included, and the buffer never exceeds the limit |
| `Jsonl.SkipLine` | crates/mutsuki-service-ipc/src/io.rs:131-178 | the rest of an oversized line is consumed through its newline |
| `Jsonl.EncodeJsonl` | crates/mutsuki-service-ipc/src/codec.rs:104-119 | the line and its newline, refused when longer than the limit |
| `Jsonl.EveryLineIsConsumed` | crates/mutsuki-service-ipc/src/io.rs:131-178 | whatever a line holds, oversized or not UTF-8 included, a call leaves exactly what follows its newline, so the next call starts at the next line |
| `Jsonl.LastLineIsConsumed` | crates/mutsuki-service-ipc/src/io.rs:131-178 | without a newline everything is consumed, and only an empty unbroken stream is a clean end |
| `Jsonl.LineIsReadBack` | crates/mutsuki-service-ipc/src/codec.rs:104-119 | an accepted line is read back unchanged, leaving exactly the tail, if and only if it has no raw newline and no final CR and decodes |
| `Jsonl.LinesAreReadBack` | crates/mutsuki-service-ipc/src/io.rs:131-178 | a stream of such lines is read back line by line to its end |
| `Inventory.KeepUnique` | crates/mutsuki-service-plugin-loader/src/lib.rs:277-307 | the records kept and the diagnostics are those of splitting the sorted records into runs of one key |
| `Grouping.SplitRuns` | crates/mutsuki-service-plugin-loader/src/lib.rs:282-303 | walking the runs of a sequence splits it into the elements alone in their run and the first elements of the others |
| `Inventory.KeptExactly` | crates/mutsuki-service-plugin-loader/src/lib.rs:277-303 | an artifact is kept exactly when no other accepted artifact has its key, and kept keys strictly increase |
| `Inventory.ReportedExactly` | crates/mutsuki-service-plugin-loader/src/lib.rs:287-303 | a key is reported exactly when more than one artifact carries it, and then once |
| `Inventory.KeptIfAlone` | crates/mutsuki-service-plugin-loader/src/lib.rs:277-303 | by positions: an accepted artifact is kept exactly when no other position has its plugin and deployment |
| `Inventory.RepeatedIsReported` | crates/mutsuki-service-plugin-loader/src/lib.rs:287-303 | two artifacts for one plugin and deployment give a report with the least manifest path among all of those, which is the path of one of them |
| `Inventory.ReportedPathIsLeast` | crates/mutsuki-service-plugin-loader/src/lib.rs:287-290 | the manifest path reported for a key is the least among its artifacts, in the order of path components |
| `Inventory.ScanIgnoresOrder` | crates/mutsuki-service-plugin-loader/src/lib.rs:277-307 | records and reports depend only on the multiset of accepted artifacts, not on the order of enumeration |
| `Catalog.ScanGivesDistinctKeys` | crates/mutsuki-service-plugin-loader/src/lib.rs:282-303 | what scanning keeps has at most one artifact per plugin and deployment |
| `Catalog.EnabledIdsExactly` | crates/mutsuki-service-runtime/src/lib.rs:1650-1656 | an enabled selection contributes its trimmed id at its place in the configuration, a disabled one nothing |
| `Catalog.Resolve` | crates/mutsuki-service-runtime/src/lib.rs:1645-1729 | the loop returns what resolving the enabled ids one by one gives, or the first refusal |
| `Catalog.ResolvesToTheEligible` | crates/mutsuki-service-runtime/src/lib.rs:1656-1726 | on distinct keys a plugin resolves to an artifact exactly when that artifact is eligible; so there is at most one |
| `Catalog.CatalogResolvesExactly` | crates/mutsuki-service-runtime/src/lib.rs:1645-1729 | after any scan, resolution succeeds exactly when every enabled selection has an eligible artifact, and then yields one record per enabled selection, in order |
| `Catalog.RefusalIsExplained` | crates/mutsuki-service-runtime/src/lib.rs:1676-1725 | each refusal fits the plugin's artifacts: the inner ambiguity never occurs, a surface mismatch only under a preference for another deployment than the builtin |
| `Deployment.ServiceRuntime.SaveDeploymentState` | crates/mutsuki-service-runtime/src/lib.rs:1770-1801 | the preference file after a save that works, fails before the old file is removed, or fails at the rename |
| `Deployment.ReloadKeepsLock` | crates/mutsuki-service-runtime/src/lib.rs:1935-1964 | a reload keeps the lock file naming the Core's generation if and only if no cut lock write leaves something else and the rollback of a refused reload puts the old content back |
| `Deployment.ServiceRuntime.RestoreRuntimeLock` | crates/mutsuki-service-runtime/src/lib.rs:1958-1964 | the previous content is back, or the file is gone when there was none, unless that write or removal fails; with nothing to bring back and no file nothing can fail |
| `Deployment.ServiceRuntime.ReloadCatalog` | crates/mutsuki-service-runtime/src/lib.rs:1144-1229 | lock file, Core generation, catalog and reply for every failure point, the missing restore after a failed lock write included |
| `Deployment.ServiceRuntime.ChangePluginDeployment` | crates/mutsuki-service-runtime/src/lib.rs:1092-1142 | the whole new state and the reply of a set or clear for every failure point |
| `Deployment.ServiceRuntime.PluginReload` | crates/mutsuki-service-runtime/src/lib.rs:1061-1073 | the whole new state and the reply of a reload |
| `Deployment.ServiceRuntime.Serve` | crates/mutsuki-service-runtime/src/lib.rs:1061-1229 | any sequence of operations run one at a time leaves the state of the specification's run |
| `Deployment.DiskStep` | crates/mutsuki-service-runtime/src/lib.rs:1092-1142 | an operation keeps disk and memory preferences in agreement if and only if no save fails in one of the named ways |
| `Deployment.DiskFollowsMemory` | crates/mutsuki-service-runtime/src/lib.rs:1092-1142 | disk and memory agree after every run without such a failure |
| `Deployment.SuccessHeals` | crates/mutsuki-service-runtime/src/lib.rs:1130-1134 | a successful change ends in agreement whatever happened before |
| `Deployment.LockStep` | crates/mutsuki-service-runtime/src/lib.rs:1183-1207 | an operation keeps the lock file naming the Core's generation if and only if no cut lock write leaves something else and no rollback fails to put the old content back |
| `Deployment.LockFollowsCore` | crates/mutsuki-service-runtime/src/lib.rs:1183-1207 | lock file and Core agree after every run without such a failure |
| `Deployment.SucceedsExactly` | crates/mutsuki-service-runtime/src/lib.rs:1097-1229 | a set or clear succeeds if and only if the plugin is enabled by its trimmed id, every enabled plugin has an eligible artifact under the preferences asked for, the save works, and nothing fails in preparing, writing the lock file and reloading; a reload under the same conditions without the first and the save |
| `Deployment.AllOrNothing` | crates/mutsuki-service-runtime/src/lib.rs:1092-1229 | success raises the generation, sets or drops exactly the one preference asked for, in memory and on disk, keeps all others, and installs the catalog they load; failure changes neither catalog, preferences nor generation |
| `Deployment.GenerationCountsSuccesses` | crates/mutsuki-service-runtime/src/lib.rs:1152 | over any run the generation is the first one plus the number of successes, up to the top of 64 bits |
| `Deployment.PreferredIsActive` | crates/mutsuki-service-runtime/src/lib.rs:1676-1686 | in every run, faults or not, every enabled plugin with a preference is active in its preferred deployment |
| `Deployment.ChangeTakesEffect` | crates/mutsuki-service-runtime/src/lib.rs:1097-1123 | after a successful change of a trimmed id the plugin's eligible artifact is active: under the deployment it was set to, or, after a clear, as without a preference; a successful change of an untrimmed id loads the catalog of the previous preferences |
| `Deployment.UntrimmedSetFails` | crates/mutsuki-service-runtime/src/lib.rs:1102-1116 | for every untrimmed id there is a change reported as done that leaves the builtin active |
| `Text.TrimTakesOnlyWhite` | crates/mutsuki-service-runtime/src/lib.rs:1656 | trimming takes white space off the two ends and nothing else, and ends in a trimmed string |
| `Text.LexLtExactly` | crates/mutsuki-service-plugin-loader/src/lib.rs:277-283 | the order of the sort: at the first difference the lesser one has ended or has the lesser element |
| `Text.TrimFixpoint` | crates/mutsuki-service-runtime/src/lib.rs:1656 | trimming gives a trimmed string and changes nothing exactly when there was nothing to trim |
| `Text.PaddedIsUntrimmed` | crates/mutsuki-service-runtime/src/lib.rs:1102 | a leading space makes a trimmed id untrimmed and trims back to it |
| `EventSource.SourceActor.HandleCommand` | crates/mutsuki-service-runtime/src/event_source.rs:423-444 | status, token and stop events of a handled command, and whether the actor goes on |
| `EventSource.SourceActor.StopSource` | crates/mutsuki-service-runtime/src/event_source.rs:446-478 | the status after `shutdown` worked or failed, terminal or not |
| `EventSource.SourceActor.WaitCommand` | crates/mutsuki-service-runtime/src/event_source.rs:413-421 | follows the flat machine while only commands are awaited |
| `EventSource.SourceActor.Watch` | crates/mutsuki-service-runtime/src/event_source.rs:382-403 | follows the flat machine through the select loop |
| `EventSource.SourceActor.RunSourceActor` | crates/mutsuki-service-runtime/src/event_source.rs:346-411 | the nested loops reach exactly the snapshot of the flat state machine on every sequence of starts, exits, ticks and commands |
| `EventSource.AtMostOneFuture` | crates/mutsuki-service-runtime/src/event_source.rs:346-411 | at every moment of every run at most one future of the source is alive |
| `EventSource.RestartPrecedesLaunch` | crates/mutsuki-service-runtime/src/event_source.rs:346-444 | every start but the first comes right after a handled restart that fired the token of the generation before and called `shutdown` |
| `EventSource.CommandsAreCounted` | crates/mutsuki-service-runtime/src/event_source.rs:230-234 | stops, fired tokens and handled commands are equal in number; starts - 1 <= restarts <= 2 * starts - 1; the reconnect counter is the restart count saturated at 2^32 - 1 |
| `EventSource.StatusShowsTheNewest` | crates/mutsuki-service-runtime/src/event_source.rs:214-234 | over any run the last error is the newest message of all panics, exits, failed stops and unhealthy reports, not cleared by a healthy one, and the health label that of the newest report |
| `EventSource.RestartStartsAgain` | crates/mutsuki-service-runtime/src/event_source.rs:382-444 | a restart starts the source again in the same turn, unless it came while the source ran and `shutdown` failed; nothing else starts it |
| `EventSource.ShutdownIsFinal` | crates/mutsuki-service-runtime/src/event_source.rs:437-442 | after a shutdown or a closed channel the state is stopped or failed, no future is held and nothing changes any more |
| `RunnerSupervisor.Supervisor.Start` | crates/mutsuki-service-runner-supervisor/src/lib.rs:86-110 | refuses a running id, else inserts a fresh runner, or nothing when spawning fails |
| `RunnerSupervisor.Supervisor.Restart` | crates/mutsuki-service-runner-supervisor/src/lib.rs:124-136 | the new runner with one more restart, or the stopped or childless one, and which error |
| `RunnerSupervisor.Supervisor.Stop` | crates/mutsuki-service-runner-supervisor/src/lib.rs:138-146 | the runner stopped, or childless after a failed kill, and which error |
| `RunnerSupervisor.Supervisor.StopChild` | crates/mutsuki-service-runner-supervisor/src/lib.rs:295-315 | the handle is given away in every case; only a failed kill keeps the old state |
| `RunnerSupervisor.Supervisor.RefreshAll` | crates/mutsuki-service-runner-supervisor/src/lib.rs:278-293 | every runner is what its probe says |
| `RunnerSupervisor.Supervisor.ClearUnwanted` | crates/mutsuki-service-runner-supervisor/src/lib.rs:165-184 | first phase: what is left of every runner, exactly the stops made, exactly the errors, in the order of ids |
| `RunnerSupervisor.Supervisor.FillMissing` | crates/mutsuki-service-runner-supervisor/src/lib.rs:186-205 | second phase: what is spawned, exactly the spawns made, exactly the errors, in the order of ids |
| `RunnerSupervisor.Supervisor.Reconcile` | crates/mutsuki-service-runner-supervisor/src/lib.rs:148-208 | the map after both phases, the stops and spawns made, one error per failed stop and then one per failed spawn, each in the order of ids |
| `RunnerSupervisor.Supervisor.List` | crates/mutsuki-service-runner-supervisor/src/lib.rs:112-122 | every runner as its probe says, listed once each in the order of ids |
| `RunnerSupervisor.Supervisor.Shutdown` | crates/mutsuki-service-runner-supervisor/src/lib.rs:210-215 | every child is told to stop, and a failed kill leaves its runner as `StopChild` does |
| `RunnerSupervisor.ReconcileExactly` | crates/mutsuki-service-runner-supervisor/src/lib.rs:148-208 | for every id, from the runners, the descriptions and the answers of the operating system alone: whether it is stopped, spawned or named in an error, and which runner is there afterwards, field by field |
| `RunnerSupervisor.ExitIsNoticed` | crates/mutsuki-service-runner-supervisor/src/lib.rs:186-207 | an exited child of a wanted runner is replaced by a fresh one, or its runner is shown as exited and named in an error |
| `RunnerSupervisor.ListShowsTheProbe` | crates/mutsuki-service-runner-supervisor/src/lib.rs:112-122 | a listing shows an exit without a child, and a child that cannot be asked as failed with the message |
| `RunnerSupervisor.DesiredIsTheLast` | crates/mutsuki-service-runner-supervisor/src/lib.rs:154-157 | each id has the last description given for it |
| `RunnerSupervisor.Supervisor.RefreshRunner` | crates/mutsuki-service-runner-supervisor/src/lib.rs:278-293 | one runner after its child was asked: running, exited without a child, or failed with the message |
| `RunnerSupervisor.MissesAreNamed` | crates/mutsuki-service-runner-supervisor/src/lib.rs:148-208 | every runner id that is not as desired afterwards is named in an error |
| `RunnerSupervisor.Converges` | crates/mutsuki-service-runner-supervisor/src/lib.rs:148-208 | without errors the runners are exactly the desired ids, each running with its desired description, and every child was just spawned or just seen running |
| `RunnerSupervisor.RunningIsKept` | crates/mutsuki-service-runner-supervisor/src/lib.rs:170-176 | a running child with an unchanged description keeps its handle and restart count, and is neither stopped nor spawned |
| `RunnerSupervisor.SecondRunIsIdle` | crates/mutsuki-service-runner-supervisor/src/lib.rs:148-208 | reconciling again with no exit in between changes, stops and spawns nothing |
| `RunnerSupervisor.OrphansComeFromFailedKills` | crates/mutsuki-service-runner-supervisor/src/lib.rs:295-315 | any operation, shutdown included, leaves a runner marked running without a child if and only if a kill of a running one fails in it |
| `RunnerSupervisor.OrphansStay` | crates/mutsuki-service-runner-supervisor/src/lib.rs:186-193 | such a runner with a wanted description is never replaced: no probe, start or reconciliation notices |
| `RunnerSupervisor.ConvergesWithChildren` | crates/mutsuki-service-runner-supervisor/src/lib.rs:148-208 | after any run in which kills work, an error-free reconciliation leaves every desired runner with a child just spawned or just seen running |
| `RunnerSupervisor.KeysAreKept` | crates/mutsuki-service-runner-supervisor/src/lib.rs:86-215 | every operation keeps the runners filed under their own id |
| `ServiceUnit.ChainIsPerCharacter` | crates/mutsuki-service-daemon/src/lib.rs:725-735 | the chained replacements are one escape per character: later ones do not touch what earlier ones inserted |
| `ServiceUnit.ArgumentsAreReadBack` | crates/mutsuki-service-daemon/src/lib.rs:700-704 | any accepted argument list, empty arguments included, is read back exactly by the quoting rules of systemd.syntax(7) and `%%` |
| `ServiceUnit.AcceptedExactly` | crates/mutsuki-service-daemon/src/lib.rs:725-726 | exactly the lists with a control character are refused, and an accepted value has none, so it stays on its line |
| `ServiceUnit.SystemdPath` | crates/mutsuki-service-daemon/src/lib.rs:738-751 | refuses control characters, else the escape of every byte in order |
| `ServiceUnit.PathIsReadBack` | crates/mutsuki-service-daemon/src/lib.rs:738-751 | an escaped path decodes to its bytes |
| `ServiceUnit.PathsStayDistinct` | crates/mutsuki-service-daemon/src/lib.rs:738-751 | different paths are escaped differently |
| `ServiceUnit.EncodedPathIsOneWord` | crates/mutsuki-service-daemon/src/lib.rs:738-751 | an escaped path has no white space, quote or comment sign, and is absolute exactly when the path is |
| `ServiceUnit.SanitizedServiceSuffix` | crates/mutsuki-service-daemon/src/lib.rs:143-168 | the loop with its flag computes the collapsed, trimmed name or the default |
| `ServiceUnit.SuffixJoinsTheWords` | crates/mutsuki-service-daemon/src/lib.rs:143-168 | the name is the longest runs of ASCII letters, digits, dots and underscores, in lower case, joined by single dashes, or the default when there are none |
| `ServiceUnit.SuffixIsClean` | crates/mutsuki-service-daemon/src/lib.rs:143-168 | every instance id gives a nonempty name in [a-z0-9._-] with no dash at an end and no doubled dash |
| `ServiceUnit.SuffixFixpoints` | crates/mutsuki-service-daemon/src/lib.rs:143-168 | exactly the names of that kind are left alone; sanitising is idempotent |
| `Secrets.SpellingsExactly` | crates/mutsuki-service-config/src/lib.rs:1048-1059 | two keys have the same normal form exactly when, trimmed, they agree character by character up to the case of letters and up to what is neither letter nor digit |
| `Secrets.NormalFormIsASpelling` | crates/mutsuki-service-config/src/lib.rs:1048-1059 | the normal form agrees with the key in that sense and has only upper-case letters, digits and underscores |
| `Secrets.NormalizeFixpoints` | crates/mutsuki-service-config/src/lib.rs:1048-1059 | exactly the keys of upper-case letters, digits and `_` are left alone; normalising is idempotent |
| `Secrets.ValidateSecretEntries` | crates/mutsuki-service-config/src/lib.rs:959-986 | accepts exactly entries whose normalised keys are nonempty and distinct and whose values are not blank, and then indexes them by normalised key |
| `Secrets.SecretStore.Resolve` | crates/mutsuki-service-config/src/lib.rs:119-127 | while file and memory are in step, a key resolves exactly when it is a spelling of some entry of the file, and then to the value of that entry |
| `Secrets.SecretStore.Rotate` | crates/mutsuki-service-config/src/lib.rs:129-160 | file, memory and outcome of a rotation for every failure point; the file is replaced before it is validated |
| `Secrets.RotationIsUpdate` | crates/mutsuki-service-config/src/lib.rs:129-160 | from a valid file in step with memory a rotation is one map update or nothing, succeeds exactly when the request is acceptable and the file can be read and replaced, and keeps file and memory in step |
| `Secrets.EverySpellingResolves` | crates/mutsuki-service-config/src/lib.rs:119-160 | after a successful rotation every spelling of the key resolves to the new value and every other key to what it did before |
| `Secrets.InvalidFileIsWrittenAnyway` | crates/mutsuki-service-config/src/lib.rs:157-159 | on any readable file a rotation succeeds exactly when the other entries are valid; otherwise it fails with the new file in place and memory unchanged |
| `Secrets.RunIsUpdates` | crates/mutsuki-service-config/src/lib.rs:129-160 | over any run with any faults memory is the start updated by the rotations that reported success, and stays in step with the file |
| `LogTail.ReadLogTail` | crates/mutsuki-service-runtime/src/lib.rs:1808-1862 | the loop returns the response that the laws below are about: filters refused, an absent file empty, failure at an undecodable line |
| `LogTail.ReadLines` | crates/mutsuki-service-runtime/src/lib.rs:1834-1852 | all lines from the start position with their offsets, or failure at the first that does not decode |
| `LogTail.TailingIsExact` | crates/mutsuki-service-runtime/src/lib.rs:1808-1862 | one call and then one from the cursor it returned give the entries of one full read if and only if the log ended in a newline, was empty or did not grow; both end at the same cursor |
| `LogTail.PollingAddsUp` | crates/mutsuki-service-runtime/src/lib.rs:1808-1862 | any number of calls, each from the cursor the one before returned, on a log that grows by whole lines, no more than the limit at a time, add up to the response of one full read |
| `LogTail.ReadsOnFromTheCursor` | crates/mutsuki-service-runtime/src/lib.rs:1826-1852 | with room enough a response covers the log line by line from its cursor to the end, and ends there |
| `LogTail.CursorsAtTheEnds` | crates/mutsuki-service-runtime/src/lib.rs:1826 | a cursor past the end, or none, reads the whole log, one at the end nothing |
| `LogTail.LimitKeepsTheLast` | crates/mutsuki-service-runtime/src/lib.rs:1836-1856 | a limit keeps a suffix, as long as it allows or as there are entries; without one it is a hundred |
| `LogTail.StripsTerminators` | crates/mutsuki-service-runtime/src/lib.rs:1848-1851 | an entry's line lacks exactly the carriage returns and newlines at its end |
| `LogTail.CutLineCountsTwice` | crates/mutsuki-service-runtime/src/lib.rs:1838-1852 | a read that met a cut line makes incremental reading report exactly one entry too many |
| `LogTail.EntriesTile` | crates/mutsuki-service-runtime/src/lib.rs:1838-1852 | offsets are absolute: entries cover the log from the start position to its end, one line each |

## Left out

- Sockets, named pipes, TLS, QUIC and Link transport, process spawning, dynamic loading, service managers, tracing and the command line: input and output with no core to prove.
- MessagePack, JSON and TOML: payloads and file contents are values; the JSON text of a line is an opaque byte string and UTF-8 validity a parameter.
- Time: deadlines, timeouts and intervals are steps that may happen at any moment.
- Writes of one request, cancel or response frame are atomic under the writer lock. A write may fail before or after the whole frame has gone out; one that is cut part-way, by a fault, an abort or a dropped call, is not modelled.
- A frame prefix read part-way when the drain flag changes without a drain beginning is lost by the read loop; the readers here are not cancelled.
- `ServerConnection` and `ClientSession` are values with step functions instead of classes, because the tasks and calls of one connection interleave; update in place of the shared maps is not captured.
- Pairing of responses on JSONL connections, and the JSONL server loop around the line reader.
- The order of mutating requests: tasks race for the lock after they are spawned; only exclusion holds.
- Which artifacts a scan accepts, its other diagnostics and the wording of details. Windows path prefixes are compared by their text.
- `Grouping.Sorted` is an insertion sort standing for the library's stable sort.
- The Core: a reload that succeeds moves its generation to the prepared one, and a reload that fails leaves it; the deployment kind is a field of a record. Booting, draining and sidecar changes after a reload are not part of the model.
- Deployment changes that race on two connections: operations run one at a time, as under the mutate lock of one connection.
- The detail strings of errors, and fields of an event source status that its lifecycle does not set.
- `EventSourceSupervisor` around the actor: the actor's task being aborted after the grace period is not modelled.
- ControlLink.OkCarriesOwnAnswer: for a call whose id is on the wire twice, which takes more than 2^64 sends on one session, it says nothing; such a call ends with its own answer or another's, depending on the order of replies.
- FrameIo.ServeReads: the exits at the top of the loop for a drain and for the idle timeout are steps of `ServerConnection`, not turns of the byte loop.
- Restart counters of runners are unbounded here and 32 bits wide in the code.
- Numeric escapes, `$VAR` substitution and specifiers other than `%%` in `ServiceUnit.ReadArguments`; the code's escapes do not touch `$`. The prefixes of the first word of `ExecStart` are not read either.
- The UTF-8 encoding of paths in `ServiceUnit.SystemdPath` is a parameter; the escape is proved injective on bytes.
- Environment variables that override secrets, and two writers of one secret file.
- Growth of the log between taking its length and reading it within one call.
- Opcode tables, worker profiles, status names and response shaping: nothing to learn beyond reading them.
