# A verified model of the Runtime Host

The Runtime Host runs discussions and reviews between command-line agents. It opens *scopes* of
participants, keeps one driver process per participant, decides for each turn whether the agent's own
session already holds the discussion, numbers and buffers the events of each *execution* for clients
that come and go, and reads the files that agents write. This project models that core in Dafny and
proves what it is for.

Each part is a pair. A module of values gives the state, one function per atomic step (everything the
source does between two `await`s, one per timer and callback) and the theorems over every run. Beside it
stands the imperative form of the source: classes whose methods update fields, maps and buffers in
place, and loops over them, each proved equal to the step functions. `HostRuns` puts scope manager,
reconciler and driver together and shows that its runs are runs of each. Concurrency is interleaving: any
continuation, timer or callback may come at any point, also long after what it belonged to is gone.

| part | modules |
|---|---|
| deciding full or incremental turns | `Digest`, `SnapshotRender`, `SessionReconciler`, `Transcripts`, `Seat`, `SeatEpochs`, `SeatHazards` |
| the race that ends a turn | `TurnRace`, `DriverRuns`, `GrokDriver`, `StdoutText` |
| numbering, buffering, replay, acknowledgement | `Events`, `ExecutionLog`, `ExecutionRegistry`, `FollowReconnect` |
| scopes, quotas, controllers | `ScopeSteps`, `ScopeRuns`, `ScopeTurns`, `ScopeMoves`, `ScopeManager` |
| manager, reconciler and driver together | `HostRuns`, `HostHazards` |
| process slots | `ProcessSlots`, `ProcessSupervisor`, `BoundedRing` |
| bytes in pieces | `Utf8`, `Lines`, `Chunks`, `Ndjson`, `SourcePage`, `SourceReader`, `SourceEarlier`, `SourceDetail` |
| identity and grouping | `ExecutionRef`, `FindingGroups`, `Components`, `FindingList`, `CommonSubstring` |
| text basics | `Options`, `Text16`, `JsonString`, `DecimalInt` |

Standing hypotheses, as the source has them: a participant belongs to at most one live scope at a time
(the reconciler's map is keyed by participant alone); `sha256` is injective, so a digest is modelled as
the text it was taken of; ids and model names in a driver's events are not empty, as the event schema
requires, while the counts it reports are any finite numbers; ids in a ledger of findings are unique;
integers are JavaScript's safe ones where they are counters. Number formatting enters the serializer as any formatting that writes finite numbers as
numerals, different numbers differently (`0` and `-0` are one number). Strings that are measured or escaped
are UTF-16 code units.

Six results say that the code does less than it seems to promise, each with the exact condition and,
for those about states of a run, a run from the beginning in which it happens:

* A scope that is closed while an accepted turn still waits for its working directory
  (`ensureLayout`) can leave a record behind with which a later scope sends an incremental prompt to
  no session at all. Closing is safe if and only if no dispatch is pending then
  (`SeatHazards.CloseIsSafeIffNothingPending`); `SeatHazards.PendingCloseHappens` gives the run for the seat
  alone. It needs a scope with a second participant whose driver is still closing: the turn then starts,
  completes and is recorded after its own driver has been closed and before the scope is released. With
  one participant the release follows the driver's close in the same microtasks. `HostHazards.LateCloseGoesWrong`
  is that run of the whole host. Timers never close a scope in that moment (`HostRuns.TimersCloseSafely`).
* A reply that reports a negative count (`numberOrNull` lets it through) makes a completion the event
  schema rejects. The registry turns it into a protocol violation, so the session is ahead of the record
  and the next turn repeats to it what it has already seen. A completion is safe if and only if its reply
  reports no negative count, or the turn was a cold start, or it appended nothing
  (`SeatHazards.CompletionIsSafeIff`); it goes wrong in the second turn of a new scope, whatever that appends,
  if it reports -1 input tokens (`SeatHazards.LostCompletionHappens`).
* The one-shot driver decodes each chunk of its command's output by itself, although the splitter of the
  other drivers says why that loses characters. The output is read as it was written if and only if every
  chunk is whole characters (`StdoutText.ChunksReadAsTextIff`); a cut character becomes more than one
  (`StdoutText.CutCharacterIsLost`).
* Detail pieces of fewer than four bytes cut characters. Decoding piece by piece is right for every
  line if and only if the piece size is at least four (`SourceDetail.PiecesDecodeIff`).
* The exit of a watchdog that was expected is taken as a teardown, so a known process group whose driver
  is not known to be dead is left alone (`ProcessSlots.GroupIsLeftIff`,
  `ProcessSlots.GroupIsLeftHappens`), although the comment on the supervision timer says that no
  unregistered driver is ever left running. A later `shutdown` kills it, and that is final if and only if
  the driver is settled or the watchdog handled by then (`ProcessSlots.ShutdownIsFinalIff`,
  `ProcessSlots.ShutdownIsNotFinalHappens`).
* The reference of an execution in flight is the one its terminal record gets if and only if the run is
  not resumed in between (`ExecutionRef.InflightRefIsNextTerminals`).

## Model

| member | source | states |
|---|---|---|
| `JsonString.QuoteIsSelfDelimiting` | shared/runtime/digest.ts:15-24 | Quoted strings end themselves (section 7 of RFC 8259): two texts that start with quoted strings and agree have the same string and the same rest. |
| `JsonString.QuoteIsWellFormed` | shared/runtime/digest.ts:15-24 | Whatever the string, its quoted text holds no control character and no half of a surrogate pair alone. |
| `JsonString.TokenIsItselfIff` | shared/runtime/digest.ts:15-24 | A unit is written as itself if and only if it is no control, quote, backslash or lone half of a pair. |
| `Digest.AcceptsExactlyWhatFits` | shared/runtime/digest.ts:15-47 | The serializer answers exactly for values whose numbers are finite, whose types it supports and whose nesting stays within the bound. |
| `Digest.FailureIsReal` | shared/runtime/digest.ts:15-47 | The error names what is really there: nesting beyond 64 levels, a number that is not finite, or a value JSON cannot hold. |
| `Digest.CanonicalTextIsIdentity` | shared/runtime/digest.ts:9-47 | Two values within the bound have the same canonical text if and only if they are equal up to the order of keys and undefined fields. |
| `SessionReconciler.HashItemIdentifies` | runtime-host/scopes/session-reconciler.ts:82-94 | Two discussion items have equal digests if and only if they are the same item. |
| `SnapshotRender.IncrementalPromptIsSuffixOfFull` | runtime-host/scopes/snapshot-render.ts:10-52 | After any nonempty prefix of items the full prompt goes on exactly as the incremental one reads. |
| `SnapshotRender.ContentFollowsLabel` | runtime-host/scopes/snapshot-render.ts:10-19 | An item reads as the line that labels its role, with the speaker of a participant or "unknown", and then exactly its content. |
| `SnapshotRender.ItemTextIdentifies` | runtime-host/scopes/snapshot-render.ts:10-19 | Two items read the same if and only if role, content and, for participants, speaker are the same, as long as the names have no line feed. |
| `SnapshotRender.LongNamesCollide` | runtime-host/scopes/snapshot-render.ts:10-19 | Why without line feeds: two items of different speakers and contents that read the same. |
| `SnapshotRender.PromptSays` | runtime-host/scopes/snapshot-render.ts:32-52 | What a prompt says: from zero it opens with revision, topic and background; every item from the index on stands whole at its place, one after the other with a blank line behind each; what is left after the last is the instruction, its kind and its text. |
| `SessionReconciler.IncrementalIffAppendOnly` | runtime-host/scopes/session-reconciler.ts:100-143 | After a completed turn the next one of the same epoch is incremental if and only if the session has served fewer than 32 turns and filled less than half of its window, and the new snapshot only appends; it then begins behind what was applied, and it is never silently full. |
| `SessionReconciler.PromptIsWhatIsMissing` | runtime-host/scopes/session-reconciler.ts:100-143 | The text of the answer: full if and only if there is no record of this epoch, and then the whole prompt; an incremental prompt is exactly what the full one has behind header and applied items, and the whole if none were applied. |
| `SessionReconciler.RebaseReasonIsReal` | runtime-host/scopes/session-reconciler.ts:110-140 | A refusal names something that is really in the way, the budget before the snapshot. |
| `SessionReconciler.RecordAddsUp` | runtime-host/scopes/session-reconciler.ts:145-176 | A record describes the newest completed turn, counts it and those before it in the same epoch, adds up their input tokens and lists their ids in order. |
| `SessionReconciler.SessionRecord.KeepsPrefixOf` | runtime-host/scopes/session-reconciler.ts:126-136 | The digest loop accepts exactly snapshots that extend the recorded items. |
| `SessionReconciler.Reconciler.Reconcile` | runtime-host/scopes/session-reconciler.ts:100-143 | The map lookup, epoch check, digest loop and budget give the decision of the specification and change nothing. |
| `SessionReconciler.Reconciler.RecordApplied` | runtime-host/scopes/session-reconciler.ts:145-176 | Exactly this participant's record becomes what the completed turn applied; counters restart with a new epoch. |
| `SessionReconciler.Reconciler.Invalidate` | runtime-host/scopes/session-reconciler.ts:178-180 | Exactly this participant is forgotten. |
| `Transcripts.PromptCompletes` | runtime-host/scopes/snapshot-render.ts:21-31 | A session that has been told the discussion up to an earlier snapshot, and then the prompt of a turn from its end, has been told exactly what the full prompt says, under the revision of its own header. |
| `Transcripts.ContinuedHolds` | runtime-host/scopes/snapshot-render.ts:21-31 | After that prompt the session holds the whole newer discussion, text for text. |
| `Transcripts.HoldsNoLess` | runtime-host/scopes/snapshot-render.ts:21-31 | A session that holds a discussion does not hold the same one with items left out: telling an item twice is visible. |
| `TurnRace.SettleOnExitSteps` | runtime-host/drivers/grok-stream-json.ts:350-443 | An exit ends the turn at most once: completion takes an exit with 0, keeps the epoch, leaves a session and passes on the text and the counts of the turn's reply; a latched turn ends interrupted; any other ending drops the session and moves the epoch on. |
| `TurnRace.ExitVerdict` | runtime-host/drivers/grok-stream-json.ts:350-443 | Which ending an exit gives: completed if and only if the turn is not latched, the exit code is 0, the reply is there and not blank, a cold start names a session, and a resumed turn names none or the driver's own; each way to fail has its own code. |
| `TurnRace.JudgedWhen` | runtime-host/drivers/grok-stream-json.ts:521-575 | When an exit is judged: once process and standard output have ended, for a failing exit also the error output, unless the turn is latched; until then a grace timer is armed for the pipe that is open. |
| `TurnRace.OrderDoesNotMatter` | runtime-host/drivers/grok-stream-json.ts:603-620 | In whatever order the two pipes end and the process exits, terminal, session and epoch are those of the exit. |
| `TurnRace.GraceEnds` | runtime-host/drivers/grok-stream-json.ts:530-570 | An armed grace timer ends an unlatched turn: one gives up its output, the other judges the exit without the error output; unarmed they do nothing. |
| `TurnRace.HandleSteps` | runtime-host/drivers/grok-stream-json.ts:521-679 | The same for every callback of a turn, whenever it runs: spawn, output, pipe ends, exit, grace, one-shot and turn timers, the end of a cancel or close. |
| `TurnRace.HandleTellsNews` | runtime-host/drivers/grok-stream-json.ts:585-620 | Reply, login failure, exit code, end of output and adoption change by exactly the callback that reports them, and only of an adopted process; a process is adopted exactly while its turn is active and the driver open. |
| `DriverRuns.EveryRunIsOk` | runtime-host/drivers/grok-stream-json.ts:445-830 | Over every interleaving of turns, callbacks, cancels and closes each turn keeps this invariant and the active turn, if any, is unsettled; no turn is forgotten, latches stay, and what a turn emitted never changes. |
| `DriverRuns.CompletionHasCause` | runtime-host/drivers/grok-stream-json.ts:350-443 | In every run a turn has completed only if its process was adopted, ended its output and exited with 0, and it completed with a reply that its output gave; if every exit reported of it is another, it has not. |
| `DriverRuns.AtMostOneTerminal` | runtime-host/drivers/grok-stream-json.ts:205-213 | No turn emits two terminals, and its promise is resolved if and only if it emitted one. |
| `DriverRuns.LatchDecidesTerminal` | runtime-host/drivers/grok-stream-json.ts:789-830 | Once a cancel or close has latched an unsettled turn, any terminal it ever emits is the interruption by the user. |
| `DriverRuns.NeverBusyForNothing` | runtime-host/drivers/grok-stream-json.ts:205-213 | In no run is a driver busy without an active turn. |
| `DriverRuns.TurnBegins` | runtime-host/drivers/grok-stream-json.ts:479-504 | A turn begins active, unsettled and unlatched, and resumes the driver's session unless it is a cold start, which resumes none; nothing else changes. |
| `DriverRuns.CloseEndsTurn` | runtime-host/drivers/grok-stream-json.ts:804-829 | When a close is done the driver is closed, and the turn it was closed over has ended as interrupted by the user. |
| `GrokDriver.Driver.Emit` | runtime-host/drivers/grok-stream-json.ts:205-213 | A terminal is emitted only by an unsettled turn and frees the driver. |
| `GrokDriver.Driver.ExitSettles` | runtime-host/drivers/grok-stream-json.ts:350-443 | The verdict on an exit, on the driver's own fields, is that of the race. |
| `DriverRuns.LateCallbacksAreHarmless` | runtime-host/drivers/turn-deadline.ts:1-19 | From the moment a turn has ended or is latched, none of its timers and failures, however late, ends a turn, drops the session, moves the epoch on or takes the driver from a later turn. |
| `DriverRuns.DeadlinesEndLiveTurns` | runtime-host/drivers/turn-deadline.ts:14-19 | Before that moment each of them ends its turn with the terminal of that timer or failure, drops the session and frees the driver. |
| `GrokDriver.Driver.RunTurn` | runtime-host/drivers/grok-stream-json.ts:479-504 | A turn begins unsettled and active, and resumes a session only if it is not a cold start and there is one. |
| `GrokDriver.Driver.OnExit` | runtime-host/drivers/grok-stream-json.ts:530-620 | The exit callback, with the drain flags and timers it sets, is the step of the race. |
| `GrokDriver.Driver.CancelBegin` | runtime-host/drivers/grok-stream-json.ts:789-795 | A cancel latches exactly the active turn it names and drops the session; otherwise it does nothing. |
| `GrokDriver.Driver.CloseBegin` | runtime-host/drivers/grok-stream-json.ts:804-811 | A close latches the active turn, if any, and drops its session. |
| `StdoutText.CutsAddCharacters` | runtime-host/drivers/grok-stream-json.ts:598-602 | Decoding the output chunk by chunk never gives fewer characters than were written, and more as soon as a chunk cuts one. |
| `StdoutText.ChunksReadAsTextIff` | runtime-host/drivers/grok-stream-json.ts:598-602 | The output is read as it was written if and only if every chunk is whole characters. |
| `StdoutText.CutCharacterIsLost` | runtime-host/drivers/grok-stream-json.ts:598-602 | One character of two bytes in two chunks is read as two replacements. |
| `Seat.PendingStartIsSafe` | runtime-host/drivers/grok-stream-json.ts:493-494 | An accepted cold turn sends the whole prompt; an accepted incremental one that starts resumes the session which, with what it is sent, has been told exactly what the full prompt says. |
| `Seat.CompletionDelivers` | runtime-host/scopes/scope-manager.ts:511-527 | A completed turn leaves a session that has been told the newest snapshot whole; a record says so, with the tokens and id of the turn, if and only if its reply reports no negative count, and otherwise the record stays as it was. |
| `Seat.OtherEndingForcesFull` | runtime-host/drivers/grok-stream-json.ts:199-203 | An active turn that ends in any other way leaves no session and a later epoch, and the next decision is full for every snapshot. |
| `Seat.CancelForcesFull` | runtime-host/drivers/grok-stream-json.ts:789-803 | A cancel of the active turn latches it and drops its session at once, so that the next decision is full for every snapshot; any other cancel does nothing. |
| `Seat.CloseForgets` | runtime-host/scopes/scope-manager.ts:624-634 | The end of a driver's close forgets the session's record and leaves the driver closed without a turn. |
| `Seat.ReleasedRecordsNothing` | runtime-host/executions/execution-registry.ts:172-176 | Once a scope's executions are released, nothing a turn may still say is recorded. |
| `Seat.StepKeepsSeatOk` | runtime-host/scopes/scope-manager.ts:438-572 | Dispatch, driver and reconciler together keep their joint invariant, in which an unsettled turn is the active one, through every step but a close with a dispatch pending and a completion with a negative count that appended something. |
| `Seat.IncrementalRefinesFull` | runtime-host/scopes/session-reconciler.ts:100-176 | Over every run without these two, each prompt that is sent brings its session to where the full prompt would have brought it, text for text. |
| `Seat.RunsFromANewSeat` | runtime-host/scopes/scope-manager.ts:438-572 | From a new seat: starts are safe, the record's counter keeps its bound, and the recorded session has been told the newest completed snapshot. |
| `Seat.HonestRunsAreCareful` | runtime-host/drivers/grok-stream-json.ts:131-134 | If no output ever reports a negative count, only a close with a dispatch pending is left of the two. |
| `SeatEpochs.StepKeepsEpochsOk` | runtime-host/scopes/session-reconciler.ts:100-176 | Every turn of the driver's present epoch is counted by the record, still active, or completed with a negative count. |
| `SeatEpochs.AtMost32TurnsPerEpoch` | runtime-host/scopes/session-reconciler.ts:100-176 | In every run at most 32 turns of a driver begin in one session epoch, and one more for each completion whose reply reports a negative count; 32 if no output reports one. |
| `SeatHazards.StaleRecordMisleads` | runtime-host/scopes/session-reconciler.ts:100-143 | From a record left behind by an earlier scope some run sends an incremental prompt without a session. |
| `SeatHazards.PendingCloseMisleads` | runtime-host/scopes/scope-manager.ts:616-639 | A dispatch pending at the close can outlive it, complete and leave such a record. |
| `SeatHazards.PendingCloseHappens` | runtime-host/scopes/scope-manager.ts:616-639 | For a seat alone: a run from a new seat, accepting a turn and closing before it starts, that ends with an unsafe start. |
| `SeatHazards.CloseIsSafeIffNothingPending` | runtime-host/scopes/scope-manager.ts:616-639 | Closing an open seat endangers no later turn if and only if nothing is pending. |
| `SeatHazards.LostCompletionMisleads` | runtime-host/scopes/scope-manager.ts:511-527 | After an incremental turn that appended something completes with a negative count, some run sends the session what it already holds. |
| `SeatHazards.CompletionIsSafeIff` | runtime-host/executions/execution-registry.ts:183-205 | The completion of a turn endangers no later one if and only if every count its reply reports is nonnegative, or it was a cold start, or it appended nothing. |
| `SeatHazards.LostCompletionHappens` | runtime-host/drivers/grok-stream-json.ts:128-154 | For any two snapshots, the second appending to the first, a run from a new seat in which the second turn completes with -1 input tokens, is not recorded, and a later prompt goes wrong. |
| `HostRuns.SeatsGoOn` | runtime-host/scopes/scope-manager.ts:438-639 | What any step of the manager does to one seat: phases only advance, and only a dispatch or a settled promise changes who occupies it. |
| `HostRuns.RunsGoOn` | runtime-host/scopes/scope-manager.ts:438-639 | Which executions of a participant run after any step: those before it but the one that ended or whose scope was released, and the one dispatched. |
| `HostRuns.DispatchIsAccepted` | runtime-host/drivers/grok-stream-json.ts:746-764 | When the manager dispatches, the driver has no active turn and is not closed, and the reconciler has answered with a prompt: the driver's refusals of a second turn and of a turn after its close cannot be reached. |
| `HostRuns.TimersCloseSafely` | runtime-host/scopes/scope-manager.ts:174-215 | A creating or idle timer that closes a scope finds no dispatch pending and no turn active. |
| `HostRuns.RunsOfBoth` | runtime-host/scopes/scope-manager.ts:438-639 | A run of manager, reconciler and driver together is a run of the scope manager and a run of the seat, whose views of phase and occupancy agree throughout; the terminals of the participant's turns in the one are those its driver emits in the other. |
| `HostRuns.RunningIffUnsettled` | runtime-host/scopes/scope-manager.ts:476-558 | Over every run an execution of the participant's newest scope counts as running if and only if its dispatch is pending or its turn unsettled, and at most one does. |
| `HostRuns.TurnsOfTheHostAreSafe` | runtime-host/scopes/scope-manager.ts:438-639 | Over all scopes of a participant: incremental prompts resume the session that completed their prefix, epochs keep their bound, and the manager's invariant holds. |
| `HostHazards.LateCloseGoesWrong` | runtime-host/scopes/scope-manager.ts:616-639 | A run of the whole host with two participants, possible in every step, in which a turn starts after its driver is closed while the other driver is still closing, and a prompt of the next scope goes to no session. |
| `Events.MergingDoesNotGrow` | runtime-host/executions/execution-registry.ts:86-119 | Two texts joined take no more bytes as JSON than apart, surrogate pairs included. |
| `Events.QuotedBytesAreUtf8` | runtime-host/executions/execution-registry.ts:61-63 | The size that is added up is that of the JSON text in UTF-8, for every text, well-formed or not. |
| `ExecutionLog.CoalesceKeepsContent` | runtime-host/executions/execution-registry.ts:86-120 | Coalescing keeps the concatenated preview text, every other event, and leaves one snapshot. |
| `ExecutionLog.CoalesceKeepsOrder` | runtime-host/executions/execution-registry.ts:120-130 | Numbers stay strictly increasing, so the coalescing invariant's exception cannot be thrown. |
| `ExecutionLog.CoalesceKeepsCap` | runtime-host/executions/execution-registry.ts:131-141 | Coalescing keeps the buffer within the cap, up to the tag difference of a lone snapshot. |
| `ExecutionLog.EmitKeepsLogOk` | runtime-host/executions/execution-registry.ts:172-221 | One emission keeps the invariant of the log; after a terminal it changes nothing. |
| `ExecutionLog.EmitDelivers` | runtime-host/executions/execution-registry.ts:172-221 | One emission: what the schema rejects ends the execution as a failure with a protocol violation, anything else goes to the followers as it is under the next number; it is kept unless it is no terminal and does not fit even after coalescing. |
| `ExecutionLog.EveryStateIsRight` | runtime-host/executions/execution-registry.ts:207-217 | In every reachable log the state a poll reads names the kind of the terminal, and running means that there is none; a completion names its own number as the final one. |
| `ExecutionLog.EveryLogIsOk` | runtime-host/executions/execution-registry.ts:82-221 | For every sequence of emissions the buffer refines the full log and stays within the cap. |
| `ExecutionLog.LastSeqIsTerminalSeq` | runtime-host/executions/execution-registry.ts:172-221 | Numbers run without gaps, there is at most one terminal, `lastSeq` is its number, previews concatenate to the kept deltas and the byte counter is the sum of the buffered sizes. |
| `ExecutionLog.TerminalAndAckAreFinal` | runtime-host/executions/execution-registry.ts:247-299 | Until its scope is released an execution keeps its terminal, `lastSeq` and, once acknowledged, everything. |
| `ExecutionLog.AckAcceptedIff` | runtime-host/executions/execution-registry.ts:247-299 | An acknowledgement is accepted if and only if it names the terminal, or repeats the accepted one. The first one releases the payload and fixes the disposition; anything else changes nothing and is answered with what is recorded. |
| `ExecutionLog.RepeatedAcksAgree` | runtime-host/executions/execution-registry.ts:254-269 | After the first acknowledgement every other answers with its disposition, whatever happens in between. |
| `ExecutionLog.FollowersGetTheTerminalLast` | runtime-host/executions/execution-registry.ts:223-245 | A follower from any cursor gets increasing numbers, and any terminal above its cursor, present or future, last. |
| `ExecutionRegistry.ExecutionRecord.CoalescePreviews` | runtime-host/executions/execution-registry.ts:86-130 | The loop with its insertion index and counters, in place, is the coalescing of the specification. |
| `ExecutionRegistry.ExecutionRecord.Buffer` | runtime-host/executions/execution-registry.ts:82-142 | Buffering, with coalescing and the dropped delta, is that of the specification. |
| `ExecutionRegistry.Registry.Begin` | runtime-host/executions/execution-registry.ts:145-166 | A known execution is returned as it is, an unknown one is created empty and running. |
| `ExecutionRegistry.Registry.EmitTo` | runtime-host/executions/execution-registry.ts:172-221 | Exactly the named execution takes the event, and exactly its followers receive it, once. |
| `ExecutionRegistry.Registry.Follow` | runtime-host/executions/execution-registry.ts:223-245 | The listener receives what is buffered above its cursor and stays only if more can come. |
| `ExecutionRegistry.Registry.AckExecution` | runtime-host/executions/execution-registry.ts:247-299 | Exactly the named execution is acknowledged, and its followers are dropped when that is accepted for the first time; unknown ones are reported expired. |
| `ExecutionRegistry.Registry.RunningCount` | runtime-host/executions/execution-registry.ts:301-307 | The number of executions without a terminal. |
| `ExecutionRegistry.Registry.ReleaseScope` | runtime-host/executions/execution-registry.ts:315-322 | Exactly the executions of the scope are forgotten, with their listeners. |
| `FollowReconnect.ReconnectDecreases` | shared/runtime/follow-reconnect.ts:23-41 | A decision to reconnect lowers twice the missing events plus one for the unspent catch-up. |
| `FollowReconnect.CursorIsNewest` | src/runtime/event-stream.ts:78-89 | The cursor a connection leaves is the newest number seen; redelivered events do not move it back. |
| `FollowReconnect.DriveToTerminal` | cli/src/host/execute-turn.ts:591-660 | Over an execution that runs and then ends between connections, the loop makes at most two connections per event missing at the end, and two more, after it. It returns the terminal if and only if its last connection delivered it; otherwise the host was lost, or two connections in a row to the ended execution brought nothing. |
| `ScopeRuns.OnScopeKeepsScopeOk` | runtime-host/scopes/scope-manager.ts:174-312 | Late prewarms, settled turns, closed drivers and timers keep a scope's invariant and never add to what quotas count. |
| `ScopeRuns.StepKeepsManagerOk` | runtime-host/scopes/scope-manager.ts:95-639 | Every step keeps quotas, the index of request ids, timers and the seats of closed scopes in order. |
| `ScopeRuns.EveryRunIsOk` | runtime-host/scopes/scope-manager.ts:95-639 | In every reachable state: at most 4 open scopes, 16 live seats, 4 running executions; one scope per request id that is not closed; closed scopes only cold or failed; a timer armed for exactly the scopes that are being created or active. |
| `ScopeMoves.PhaseMovesIff` | runtime-host/scopes/scope-manager.ts:174-215 | In every reachable state a scope becomes active, closing and closed exactly by the events that the source lets move it: the current controller's requests, the host's close, the creating timer before it is active, the idle timer when no seat is busy, and the release of all seats. |
| `ScopeMoves.ControlIff` | runtime-host/scopes/scope-manager.ts:412-436 | Only the current controller activates or closes an open scope; a takeover makes its caller the controller under the next lease; a refused request changes nothing and names why. |
| `ScopeMoves.CreateGrantedIff` | runtime-host/scopes/scope-manager.ts:314-379 | A create is answered with the unclosed scope of its request id, if there is one, and changes nothing then; otherwise it is granted exactly if fewer than ten scopes were created within the last minute, all quotas allow it and every participant has a driver, and a refusal names what does not hold. |
| `ScopeMoves.LateCreateTearsDown` | runtime-host/scopes/scope-manager.ts:381-399 | A create whose scope was closed meanwhile leaves no seat ready or prewarming. |
| `ScopeTurns.RunTells` | runtime-host/scopes/scope-manager.ts:245-310 | In every reachable state runtime, binding and occupancy of a seat are what its history makes them: how it was created, how its prewarm ended, and whether its last turn has settled. |
| `ScopeTurns.QuotasCount` | runtime-host/scopes/scope-manager.ts:112-146 | What the quotas count: the scopes being created or active, and in them the seats whose prewarm is pending or left a binding. |
| `ScopeTurns.DispatchedIff` | runtime-host/scopes/scope-manager.ts:438-572 | After whatever has happened, a turn is dispatched if and only if the current controller of an active scope asks for a seat that was prewarmed and whose turns have all settled, fewer than four executions run, the execution is new and the session need not be rebased. |
| `ScopeTurns.RefusalIsReal` | runtime-host/scopes/scope-manager.ts:448-535 | Every refusal, and every other answer to a turn, names what is so. |
| `ScopeTurns.NextTurnIsDispatched` | runtime-host/scopes/scope-manager.ts:566-569 | A seat serves one turn after the other: once terminal and promise of a turn have settled, the seat is ready and the next turn is dispatched. |
| `ScopeRuns.OldLeaseIsRefused` | runtime-host/scopes/scope-manager.ts:160-172 | After a takeover the lease before it is refused in every later state, by every request. |
| `ScopeRuns.NoSecondDispatch` | runtime-host/scopes/scope-manager.ts:446-470 | Until a turn's promise settles no other turn is dispatched to its seat. |
| `ScopeRuns.IdleTimerSparesBusy` | runtime-host/scopes/scope-manager.ts:196-215 | The idle timer starts over instead of closing a scope with a turn in flight. |
| `ScopeRuns.StepAdvances` | runtime-host/scopes/scope-manager.ts:412-436 | Scopes are never forgotten, their phase only advances and their lease epoch never falls. |
| `ScopeRuns.CreatesAreSpaced` | runtime-host/scopes/scope-manager.ts:95-109 | With a clock that does not step back, the log of all creates stays sorted and spaced. |
| `ScopeRuns.AtMostTenCreatesPerMinute` | runtime-host/scopes/scope-manager.ts:95-109 | Any eleven creates of a run take more than sixty seconds. |
| `ScopeManager.Manager.CheckScopeCreateRate` | runtime-host/scopes/scope-manager.ts:95-109 | The queue loop drops exactly the creates in front that are older than a minute. |
| `ScopeManager.Manager.ActiveScopeCount` | runtime-host/scopes/scope-manager.ts:111-120 | The number of creating and active scopes. |
| `ScopeManager.Manager.LiveDriverProcessCount` | runtime-host/scopes/scope-manager.ts:122-142 | The number of prewarming, ready and busy seats in open scopes. |
| `ScopeManager.Manager.CreateScope` | runtime-host/scopes/scope-manager.ts:314-365 | Creating, with its checks in order, is the specified step and keeps the invariant. |
| `ScopeManager.Manager.ExecuteTurn` | runtime-host/scopes/scope-manager.ts:438-551 | So is dispatching, with every refusal. |
| `ScopeManager.Manager.OnPrewarmSettled` | runtime-host/scopes/scope-manager.ts:235-312 | So is what a prewarm does when it settles, in time or late. |
| `ScopeManager.Manager.OnIdleTimer` | runtime-host/scopes/scope-manager.ts:196-215 | So is the idle timer's search for a busy seat. |
| `ScopeManager.Manager.FinishClosing` | runtime-host/scopes/scope-manager.ts:616-639 | So is the end of a close, which frees executions and the request id. |
| `ProcessSlots.StepKeepsSlotsOk` | runtime-host/process/process-supervisor.ts:315-525 | Spawns, control frames, watchdog exits, kills, timeouts and shutdowns keep the ownership of slots. |
| `ProcessSlots.EveryRunKeepsSlots` | runtime-host/process/process-supervisor.ts:315-768 | In every run a participant has at most one record with a live driver and an unhandled watchdog, that record owns the slot, and no driver's exit is announced twice. |
| `ProcessSlots.SpawnIsAcceptedIff` | runtime-host/process/process-supervisor.ts:661-667 | A spawn is accepted if and only if no record of the participant is active. |
| `ProcessSlots.SettledIff` | runtime-host/process/process-supervisor.ts:315-530 | A driver is taken for dead, its slot given up and its exit announced exactly when the watchdog reports its end or the host kills its group; the host kills exactly in these cases, and the counters count them. |
| `ProcessSlots.ExpectedIff` | runtime-host/process/process-supervisor.ts:358-484 | When the exit of a watchdog is expected, and what is known of its driver, told by the events that came. |
| `ProcessSlots.RunKeepsKillsOk` | runtime-host/process/process-supervisor.ts:315-530 | In every run no group is killed twice, and a driver whose group was killed is taken for dead. |
| `ProcessSlots.StaleEventsDoNotClobber` | runtime-host/process/process-supervisor.ts:439-484 | An event changes its own record only, and no slot that another record owns. |
| `ProcessSlots.GroupIsLeftIff` | runtime-host/process/process-supervisor.ts:439-484 | A watchdog's exit leaves a known group whose driver is not known to be dead if and only if the exit was expected. |
| `ProcessSlots.GroupIsLeftHappens` | runtime-host/process/process-supervisor.ts:439-484 | It happens when a supervised driver is killed and its watchdog exits first; the slot is then free for another driver. |
| `ProcessSlots.ShutdownIsFinalIff` | runtime-host/process/process-supervisor.ts:502-525 | After a shutdown every known group's driver is known to be dead; for all continuations, if and only if driver or watchdog was done. |
| `ProcessSlots.ShutdownIsNotFinalHappens` | runtime-host/process/process-supervisor.ts:502-525 | From a new state: a driver that is reported as supervised only after its shutdown has ended. |
| `ProcessSlots.LiveDriversHaveSlots` | runtime-host/process/process-supervisor.ts:773-779 | No more drivers are counted as live than slots are taken. |
| `ProcessSupervisor.Supervisor.SpawnDriver` | runtime-host/process/process-supervisor.ts:661-715 | Spawning takes the slot of the participant or is refused, as specified. |
| `ProcessSupervisor.Supervisor.SettleDriver` | runtime-host/process/process-supervisor.ts:315-327 | A driver is settled once, and only its own slot is given up. |
| `ProcessSupervisor.Supervisor.HandleControlFrame` | runtime-host/process/process-supervisor.ts:358-417 | A control frame changes the record as specified. |
| `ProcessSupervisor.Supervisor.HandleWatchdogExit` | runtime-host/process/process-supervisor.ts:439-484 | So does the exit of a watchdog, once. |
| `ProcessSupervisor.Supervisor.ReapOnShutdown` | runtime-host/process/process-supervisor.ts:502-525 | After it the driver is settled or its group was never known. |
| `ProcessSupervisor.Supervisor.LiveCount` | runtime-host/process/process-supervisor.ts:773-779 | The loop counts the supervised, unsettled records. |
| `BoundedRing.SuffixOfSuffix` | runtime-host/process/process-supervisor.ts:183-215 | Keeping the last bytes may forget the rest before more is appended. |
| `BoundedRing.Ring.Append` | runtime-host/process/process-supervisor.ts:187-203 | The ring of chunks always holds exactly the last `limit` bytes of all that was appended. |
| `Utf8.DecodeOfEncoding` | runtime-host/drivers/ndjson.ts:36-36 | Decoding with replacement undoes the encoding of section 3 of RFC 3629, whatever follows. |
| `Utf8.DecodesMaximalPart` | runtime-host/repair-observation/source-reader.ts:229-229 | Decoding any bytes: the character they begin with, if there is one; otherwise one replacement for the longest part that could still have become a character, or for one byte. |
| `Ndjson.ScanResumes` | runtime-host/drivers/ndjson.ts:27-49 | What has been told stands when more bytes come; the rest is told as if the open line and the new bytes came alone. |
| `Ndjson.ChunksDoNotMatter` | runtime-host/drivers/ndjson.ts:27-49 | However a stream is cut, the splitter ends in the same state with the same callbacks. |
| `Ndjson.ScanIsTold` | runtime-host/drivers/ndjson.ts:15-57 | The callbacks are the nonblank lines before the first one over the limit and one overflow, or all of them, the tail and one end. |
| `Ndjson.LineIsToldIff` | runtime-host/drivers/ndjson.ts:15-25 | A line is told as its decoded text, unless that is nothing but white space. |
| `Ndjson.Splitter.OnData` | runtime-host/drivers/ndjson.ts:27-49 | The buffer loop of one chunk keeps the splitter in the state its bytes determine. |
| `Ndjson.Splitter.OnEnd` | runtime-host/drivers/ndjson.ts:51-57 | At the end the consumer has been told exactly what the whole stream says. |
| `Ndjson.ByteSplittingIsTextSplitting` | runtime-host/drivers/ndjson.ts:16-20 | For valid UTF-8, splitting the bytes and decoding each line is decoding and then splitting. |
| `SourcePage.NextIsBoundary` | runtime-host/repair-observation/source-reader.ts:194-314 | The cursor and all records of a page stand on line boundaries. |
| `SourcePage.PagesCompose` | runtime-host/repair-observation/source-reader.ts:194-314 | A full page and a page from its cursor are one page of both limits. |
| `SourcePage.PagingIsOnePass` | runtime-host/repair-observation/source-reader.ts:194-314 | For every page limit, following cursors is one unlimited pass: same records, counts and cursor. |
| `SourcePage.PassDeliversLines` | runtime-host/repair-observation/source-reader.ts:223-250 | A pass delivers every complete line that is not too long and parses, once and in order. |
| `SourcePage.PassTells` | runtime-host/repair-observation/source-reader.ts:223-250 | An unlimited pass in terms of the lines alone: a record for each complete line that is not too long and parses, under its offset; the numbers of bad and of too long lines; the offset of the open line as the cursor. |
| `SourcePage.OpenLineIsCounted` | runtime-host/repair-observation/source-reader.ts:303-305 | The tail is reported as incomplete if and only if bytes are left behind the cursor. |
| `SourcePage.PollingLosesNothing` | runtime-host/repair-observation/source-reader.ts:194-314 | Reading on from the cursor after the file has grown loses no record and delivers none twice; only an open line over the limit is counted again. |
| `SourceReader.AcceptLines` | runtime-host/repair-observation/source-reader.ts:283-289 | The inner loop takes complete lines until the limit and keeps the total of read and unread. |
| `SourceReader.ReadForward` | runtime-host/repair-observation/source-reader.ts:194-314 | Whatever sizes the reads have, a pass yields the page its bytes determine. |
| `SourceEarlier.EarlierWindowStart` | runtime-host/repair-observation/source-reader.ts:165-192 | The backward search finds the last line boundary within reach, or that there is none; an aligned start is a boundary. |
| `SourceEarlier.EarlierPageIsLast` | runtime-host/repair-observation/source-reader.ts:108-147 | A page holds the last records of its window, as many as the limit allows; its cursor is its first record if records were left out, and the window's start if the window cut a line and all of it was taken. |
| `SourceEarlier.RecordsCut` | runtime-host/repair-observation/source-reader.ts:165-192 | A window that starts inside a line cuts one that is too long, so nothing deliverable is lost with it. |
| `SourceEarlier.ReadEarlier` | runtime-host/repair-observation/source-reader.ts:108-161 | An earlier page and its cursor are those of the specification; the answer begins with its first record or its window, counts what the window holds, and is exhausted only by an empty file. |
| `SourceEarlier.PagingBackwardsIsOnePass` | runtime-host/repair-observation/source-reader.ts:108-147 | For every page size, paging backwards delivers every record before the end once and in order. |
| `SourceDetail.IncompleteUtf8Tail` | runtime-host/repair-observation/source-reader.ts:316-335 | The loop finds the bytes of the character a buffer ends inside. |
| `SourceDetail.TailIsPart` | runtime-host/repair-observation/source-reader.ts:316-335 | In cut UTF-8 these are exactly the bytes behind the last whole character. |
| `SourceDetail.ReadDetailChunk` | runtime-host/repair-observation/source-reader.ts:337-370 | One answer is the specified piece of the line. |
| `SourceDetail.LineIsUpToFeed` | runtime-host/repair-observation/source-reader.ts:337-370 | The line runs from its offset to its line feed, the end of the file or the cap of one mebibyte. |
| `SourceDetail.PiecesCoverLine` | runtime-host/repair-observation/source-reader.ts:337-370 | For every piece size, following the cursors covers the line up to its feed or the cap exactly once, and ends. |
| `SourceDetail.PieceEndsOnCharacter` | runtime-host/repair-observation/source-reader.ts:357-364 | With at least four bytes no piece that has a successor ends inside a character. |
| `SourceDetail.DecodingByPieces` | runtime-host/repair-observation/source-reader.ts:337-370 | Then the decoded pieces are the decoded line. |
| `SourceDetail.PiecesDecodeIff` | runtime-host/repair-observation/source-reader.ts:337-370 | This holds for all lines if and only if the piece size is at least four. |
| `ExecutionRef.IdentitiesAreStable` | shared/runtime/execution-ref.ts:128-163 | Appending records never changes an identity that has been given. |
| `ExecutionRef.IdentitiesIncrease` | shared/runtime/execution-ref.ts:128-163 | The identities of one attempt strictly increase with the records, so no two are equal. |
| `ExecutionRef.EveryTerminalHasIdentity` | shared/runtime/execution-ref.ts:141-162 | Every terminal record has the generation and ordinal its position gives it. |
| `ExecutionRef.OrdinalsHaveNoGaps` | shared/runtime/execution-ref.ts:150-153 | In each generation the ordinals of an attempt run from one without a gap. |
| `ExecutionRef.IdentitiesCount` | shared/runtime/execution-ref.ts:141-162 | The generation of a record counts the resumes before it, and its ordinal the terminal records of its key in that generation. |
| `ExecutionRef.FormatIsInjective` | shared/runtime/execution-ref.ts:78-80 | A reference determines attempt, generation and ordinal, for any characters in the attempt id. |
| `ExecutionRef.SentinelIff` | shared/runtime/execution-ref.ts:82-85 | The sentinel of an attempt is reported if and only if the transcript has no roster, and for that attempt only. |
| `ExecutionRef.ResolveAttemptExecution` | shared/runtime/execution-ref.ts:112-257 | The scan with its counters and the decision behind it are the specified resolution. |
| `ExecutionRef.InflightRefIsNextTerminals` | shared/runtime/execution-ref.ts:211-250 | The reference in flight, a retry included, is the next terminal record's if and only if no resume intervenes. |
| `ExecutionRef.TerminalIsReported` | shared/runtime/execution-ref.ts:205-229 | A new terminal record is what is reported, unless it announces a retry of a live run: as a success with its output, or as a failure or, by its code, a cancellation without output. |
| `ExecutionRef.NewestRosterDecides` | shared/runtime/execution-ref.ts:166-188 | The newest roster decides: an attempt it does not name is unknown, and its aggregator is reported in that role. |
| `ExecutionRef.WithoutRecordIsReported` | shared/runtime/execution-ref.ts:231-257 | Without a terminal record since the last resume, and none that it reuses, an attempt of a live run is in flight, running or queued as the run says and else pending; otherwise there is no record of it. |
| `ExecutionRef.ReuseIsReported` | shared/runtime/execution-ref.ts:189-203 | A resume that reuses a successful attempt reports that execution under its own reference. |
| `FindingGroups.ValidateFindingGroups` | shared/runtime/finding-groups.ts:98-130 | Validation accepts exactly the sidecars that map each id to one root, name known members only, have members in every group and whose mapped roots map to themselves; it reports the first fault in the order of groups and ids, and an unstable root only if there is no other. |
| `FindingGroups.RootCauseByFindingId` | shared/runtime/finding-groups.ts:73-86 | The two inner loops give every id the root of the specification, and for a consistent sidecar exactly its function. |
| `FindingGroups.DecidingGroup` | shared/runtime/finding-groups.ts:73-86 | An id gets the root of the last group that lists it as a finding, or else of the first that lists it as an alias, and none if no group lists it. |
| `FindingGroups.ResolutionIsStable` | shared/runtime/finding-groups.ts:87-96 | Resolving a resolved id changes nothing. |
| `Components.MergeKeepsCoarser` | shared/runtime/finding-list.ts:425-455 | Merging two groups separates no pair. |
| `Components.GroupsAreComponents` | shared/runtime/finding-list.ts:425-455 | Groups that were merged only along references, and among which none is left, are the connected components. |
| `FindingList.GreedyGroups` | shared/runtime/finding-list.ts:395-403 | Inferred groups partition the rows into proven duplicates, and no group could have taken the founder of a later one. |
| `FindingList.InferDuplicateGroups` | shared/runtime/finding-list.ts:395-403 | The loop puts each row into the first group that takes it. |
| `FindingList.SidecarBuckets` | shared/runtime/finding-list.ts:133-151 | Each root's bucket holds exactly the ledger's findings that the sidecar maps to it. |
| `FindingList.UsableFindingGroups` | shared/runtime/finding-list.ts:107-119 | A sidecar is used if and only if it validates against this ledger. |
| `FindingList.BlocksIff` | shared/runtime/cli-ledger.ts:121-129 | A finding blocks if and only if it is critical or major, neither accepted nor verified as closed, not out of the contract, and to be acted on if it is in it. |
| `FindingList.MergeExplicitReferences` | shared/runtime/finding-list.ts:425-455 | The in-place splice loop ends, keeps every finding, joins only what references connect and leaves no reference across problems; each result is made of whole problems of the start, in the order of their first ones, unchanged if alone, and a sidecar group if and only if one of them is. |
| `FindingList.SortSorts` | shared/runtime/finding-list.ts:373-393 | Sorting by insertion sorts, for every comparison that is an order. |
| `FindingList.SortIsStable` | shared/runtime/finding-list.ts:373-393 | Sorting leaves those that the comparison does not tell apart in the order they had. |
| `FindingList.InitialPartition` | shared/runtime/finding-list.ts:152-173 | Buckets and inferred groups together hold every finding of the ledger once. |
| `FindingList.ProjectFindingList` | shared/runtime/finding-list.ts:121-183 | The problems partition the ledger; two findings share one if and only if common roots, inferred groups and explicit references connect them; each is made of whole initial problems, which are called by their root or their group's founder; each shows the highest severity and the flags of its members, which stand in display order, as the problems do, ties as they were; something blocking is shown if and only if some finding blocks. |
| `CommonSubstring.LongestCommonSubstringText` | shared/runtime/finding-list.ts:656-676 | The table search returns a string that occurs in both inputs, and no common substring is longer. |
| `DecimalInt.ParsingUndoesPrinting` | shared/runtime/decimal-int.ts:14-19 | Parsing succeeds exactly on the decimal texts of 0 to 2^53 - 1 and undoes printing. |
| `DecimalInt.NearestDoubleIsNearest` | shared/runtime/decimal-int.ts:14-19 | `Number` of a digit text, as the model has it: a number of 53 significant bits, as near as there is one, and of two as near the even one. |
| `DecimalInt.ComparisonIsNumeric` | shared/runtime/decimal-int.ts:32-39 | For digits of any length, with any leading zeros, the comparison as text is true if and only if the number exceeds a safe limit. |
| `DecimalInt.DoublesCannotDecide` | shared/runtime/decimal-int.ts:23-31 | Why not as doubles: two numbers one apart have the same nearest double. |

## Left out

- FindingGroups.ValidateFindingGroups: of several unstable roots in a sidecar without other faults it does not state which one is reported.
- FindingList.MergeExplicitReferences: states that a merged problem has the key of one of its parts, not which; the code is as in the source.
- FindingList.ProjectFindingList: titles, locations, status labels and the counts of problems by status are not modelled; the display order enters as any order.
- SourceReader.ReadForward: whether a dropped first line over the limit is counted depends on how the file is read; stated are the bounds between which it does (over the limit it may, one read chunk more it must).
- SourceEarlier.EarlierWindowStart: beyond the end of the file states alignment only; a cursor of the same file never points there.
- FollowReconnect.DriveToTerminal: aborts and re-authentication are not modelled; a connection that fails otherwise ends the source's loop with an exception.
- ScopeManager.Manager.ExecuteTurn: takes the reconciler's answer as a flag, which `HostRuns` takes from the reconciler's decision, and counts running executions in the manager's own map rather than through `ExecutionRegistry`.
- ExecutionLog.FollowersGetTheTerminalLast: a follower that resumes above a coalesced snapshot's number may miss preview text, as in the source; only the terminal is promised.
- Listeners that emit during replay, and `at` timestamps of events: the model delivers to each listener before anything else happens.
- Turns without a validated installation, and calls on a closed driver, which fail at once: the model's turns begin where the source sets its active turn. A cancel before that point is not latched, as in the source.
- The persona and the discussion contract which the driver puts in front of the prompt of a cold start: the model's sessions begin with the prompt.
- Reading a reply out of standard output (`jsonParse`, clipping, the token count), authentication heuristics, model probing and the driver's own prewarm: their results are inputs of the steps.
- Dispatch and tool states of terminals, diagnostics, log lines and error messages.
- Timers: a callback may come at any time while armed; clearing a timer disarms it, durations are not modelled.
- Scopes and seats are values in a map rather than shared objects; that a closure keeps a reference to a scope is modelled by looking the scope up by its id, since scopes are never removed.
- Cancelling and acknowledging through the scope manager change nothing in it beyond the fence, which is modelled for the other requests.
- The control channel's line buffer repeats the bounded splitting modelled in `Ndjson`; a frame reaches the model parsed. Spawning, signals and the environment filter of the supervisor are not part of this model.
- Parsing JSON, schemas, sparse arrays and `toJSON` in the serializer's input.
- Redaction, citation and similarity heuristics: parameters without properties, since the longest common substring breaks ties by order and need not be symmetric.
- The window's file status, fingerprint and reset; the forward window's cold start is covered by `SourceReader.ReadForward` with a dropped first line. Reads of a detail piece and of the backward search return all bytes there are.
- The Claude, Codex, Kimi and Cursor drivers: Cursor has the form modelled here, the others add protocol detail. Kimi can drop a pending turn without a terminal, so "exactly one terminal" is claimed for the modelled driver only.
- HTTP routes, cookies, request guards, git, SQLite locks, symlink checks, the user interface and the command line's output.
