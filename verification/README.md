# Verified model of the download control plane

This project models the parts of the repository where a queued download is handed to an
external engine while passes, operators and guards race over it, and the other pieces of
logic whose correctness spans several functions: the pattern transpiler, the login
throttle, the settings import, the category merge, the submission planner and the two
file-selection resolvers. Everything is proved for all inputs, all answers of store and
engine, and all interleavings the text below names.

`dafny verify dfyconfig.toml` checks the whole project.

## How the model is built

**Lease and admission.** `LeaseTable` is the lease registry as a step machine: one step per
mutex section, plus the ending of a context. `TaskOpRegistry.Registry` is the same registry
with mutable tables and is proved to take the machine's steps, so its theorems carry over.
`PauseProtocol` interleaves any number of admission passes, operator pauses, disk-space
guards and foreign writes on one task at the granularity of single store writes, engine
calls and lease operations. `Handoff` is `release` with every store and engine answer as a
parameter (a failing write may have landed, a failing engine call may have taken effect);
`HandoffFates` says by the answers alone what becomes of it, `HandoffIntent` reads the order
of effects off its log, `HandoffRuns` puts it into runs, and `HandoffInPlace.Task` performs
it in the code's own order on mutable fields. `AdmissionPass` is the pass as a walk over
candidates and answers; `SpaceGateLoop` is the loop and the caching gate,
`PassOverHandoffs` computes the pass's answers by the hand-off, and `ProtocolCoverage`
proves that the verdicts and the hand-off's writes are steps of the pause protocol. `Space`
has floors, roots and reservations, `ResumeBatch` the slots a resume batch promises,
`TaskRow` the guarded writes on one row.

**Pattern transpiler.** The four scanners are loops over a cursor, each proved against a
recursive reading of the string. `PatternTree` has a pattern tree with a printer and states
what the readings do to a print; `PatternMeaning` gives atoms and classes a set of code
points, relative to any tables of letters, numbers and separators, and `PatternWidenTree`
connects text and meaning; `PatternReader` reads the written classes back as RE2 does.
`PatternTranspile` is `transpile`; `PatternPieces` reads the tree as pieces, and
`PatternAnswers` states what `transpile` answers end to end.

**Login throttle.** `LoginThrottle` has one function per mutex section, `LoginThrottleMaps`
the object with its three maps. Time is in nanoseconds.

**Settings, categories, planner, selection.** Each has a specification on values
(`SettingsImport`, `CategoryTree`, `Planner`, `FileSelection`) with its theorems, and the
imperative form (`SettingsImporter`, `CategoryMerge`, `PlannerLoops`, and the two methods of
`FileSelection`) proved to compute it. Validators, path resolution, rule compilation and
CHECK constraints are functions of the caller.

## What the code does that its comments do not say

Each is a lemma below, with the exact condition where there is one.

- An operator pause can be undone without a requeue when a second disk-space guard read the
  parked pair before the pause and writes after it (`PauseProtocol.AnsweredPauseHolds`,
  `PauseProtocol.PauseCanBeUndone`). A write that re-checks the pair in one transaction
  would close it (`PauseProtocol.AnsweredPauseHoldsWithAtomicGuards`).
- The comment at internal/engine/admission.go:409-412 says the ownership mark cannot drift
  from the row under the lease. It can between the snapshot and the lease: a pause and a
  resume leave the row queued again without the mark, and the revalidation re-reads the
  state, the code and the intent, not the mark (`Handoff.OwnershipNeedsAFreshMark`).
- A start that takes effect behind an error leaves a transfer running that nothing owns,
  unless the row is marked or the transfer was added stopped (`Handoff.OwnershipExactly`).
- A first hand-off whose release write landed but answered an error is counted by the
  database and not by the running pass (`HandoffRuns.ChargeCoversTheRow`,
  `PassOverHandoffs.DatabaseStaysNearTheLimit`).
- Python's verbose mode ignores six characters; `strip_verbose` drops everything
  `str.isspace` accepts (`PatternTree.StripGivesThePlainPrint`).
- `close_paren` does not know comments, so an unbalanced one moves the end of a verbose group
  (`PatternTree.CloseFindsTheGroupsEnd`, `PatternTranspile.NoisyCommentHidesTheEnd`).
- `transpile` looks for the text `(?x`; flags that hold x but do not start with it, as in
  `(?ix)`, are not treated as verbose (`PatternTranspile.HeadedTextContains`,
  `PatternTranspile.LateXKeepsTheTrivia`, `PatternTranspile.FlagOrderMatters`).
- An import always writes schedule_enabled, so settings come back from a round trip only if
  it was stored (`SettingsExport.SettingsRoundTripExactly`).
- An overwrite import of an indexer without a definition id can drift when repeated: once its
  row is written, another row of the same name that stands ahead of it in priority is the one
  the next import finds (`SettingsIndexers.DriftsExactly`).

## Model

| member | source | states |
|---|---|---|
| LeaseTable.Reachable | internal/engine/registry.go:176-281 | After any interleaving of acquisitions, ended contexts, wake-ups, cancellations and (repeated, stale) releases the table invariant holds: every table entry has a holder, a live holder's entry is the one in the table, queues are in arrival order and hold only parked calls. |
| LeaseTable.MutualExclusion | internal/engine/registry.go:176-236 | In every reachable state a task id has at most one un-released grant; the grant's entry is the table's entry for that id, and every id in the table has an owner. |
| LeaseTable.NobodyStranded | internal/engine/registry.go:212-236 | Every call still in its select can wake with the lease, can answer its ended context, or is queued behind a live holder of its own task. |
| LeaseTable.ExactlyOneAnswer | internal/engine/registry.go:189-236 | Over any run a call that parked or was granted is answered with a lease or an error exactly once, and exactly when it stops waiting. |
| LeaseTable.CancelledWaiterVerdict | internal/engine/registry.go:217-235 | A cancelled waiter that the hand-off already reached returns the lease and owns it; one it had not reached returns the context error, leaves the queue and moves no holder. |
| LeaseTable.ReleaseHandsOff | internal/engine/registry.go:245-281 | A holder's release grants the oldest waiter whose context is live, or takes the id out of the table when there is none; a second or stale release changes neither leases nor entries. |
| LeaseTable.HolderReleaseOutcome | internal/engine/registry.go:254-280 | The winner of a release was queued, is live, owns the task afterwards, and no live queued waiter is older. |
| LeaseTable.HandoffFacts | internal/engine/registry.go:254-271 | The hand-off loop skips only ended waiters, picks the first live one, and leaves the rest of the queue behind it in order. |
| LeaseTable.NoOvertakingStep | internal/engine/registry.go:191-210 | Whatever step grants a task to a call, every other live waiter of the task asked later. |
| LeaseTable.NoFreshGrantWhileWaiting | internal/engine/registry.go:191-200 | An acquisition that arrives while a live waiter is parked on its task is not granted. |
| LeaseTable.NewCallStands | internal/engine/registry.go:176-210 | What an acquisition leaves behind: a granted call holds the lease, a parked one waits last in the queue with its context live, and only a try answers busy and changes nothing. |
| LeaseTable.CallsRunTheirCourse | internal/engine/registry.go:176-281 | When a parked call's context may end, when a call may wake, give up or release, each if and only if, and what becomes of it. |
| LeaseTable.OnlyReleaseGrants | internal/engine/registry.go:254-271 | A parked call becomes the owner by a release and by no other step. |
| LeaseTable.GrantsFollowArrival | internal/engine/registry.go:191-271 | Over whole runs: of two grants of one task id, the later grant belongs to the call that asked later. |
| LeaseTable.TokensAgeUpward | internal/engine/registry.go:298-302 | A token minted later in a run is larger than every token minted before: tokens order the arrivals. |
| LeaseTable.WithoutFacts | internal/engine/registry.go:286-295 | Removing a waiter keeps the others, in order, and the waiter is gone. |
| TaskOpRegistry.Registry.AcquireTaskOp | internal/engine/registry.go:176-210 | The first mutex section of an acquisition, on mutable maps, takes exactly the machine's Acquire step: same tables, same counter, and the answer (lease, busy, parked) the machine gives. |
| TaskOpRegistry.Registry.Ready | internal/engine/registry.go:212-216 | A waiter whose ready channel was closed returns the lease. |
| TaskOpRegistry.Registry.Cancelled | internal/engine/registry.go:217-235 | The context branch: the lease when the waiter had won, else the splice out of the queue and the error; the fields follow the machine's step. |
| TaskOpRegistry.Registry.RemoveWaiter | internal/engine/registry.go:286-295 | Search and splice remove exactly the waiter and tolerate its absence. |
| TaskOpRegistry.Registry.ReleaseTaskOp | internal/engine/registry.go:245-281 | The release closure, loop and identity check included, takes exactly the machine's Release step; the loop terminates because each turn shortens the queue. |
| TaskOpRegistry.Registry.constructor | internal/engine/registry.go:37-42 | A new registry is the machine's empty state. |
| PauseProtocol.Reachable | internal/engine/admission.go:202-298 | In every interleaving of passes, operator pauses, disk-space guards and foreign writes: a step that needs the lease has it alone, and a pause that landed or was cleared with no operator, schedule or reconciler write since its reload sits on a paused row. |
| PauseProtocol.PassHasItsRow | internal/engine/admission.go:471-477 | In every interleaving a pass that has revalidated and not acted yet has the row it was selected for, unless a foreign write crossed it: queued for a queued snapshot, paused with disk_full for a parked one. |
| PauseProtocol.StartableExactly | internal/engine/admission.go:332-438 | With the lease free, a pass can get at the task without anybody requeueing it if and only if the row is there and not removed, and is queued, or active, or carries disk_full, or a disk-space guard is between its read of the parked pair and its write. |
| PauseProtocol.StampsItsOwnRow | internal/engine/admission.go:758-776 | A hold stamp lands exactly on a row that is still in the state its candidate was selected in, so a queued snapshot never stamps a paused row. |
| PauseProtocol.RequeueReopens | internal/api/tasks_actions.go:547-600 | A requeue is the foreign write after which the next pass gets at the task. |
| ProtocolCoverage.VerdictsAreSteps | internal/engine/admission.go:332-438 | Every verdict of the pass over its row is a step the protocol allows: the stamp it writes, the claim, the submission, or nothing. |
| ProtocolCoverage.HandOffIsSteps | internal/engine/admission.go:947-1141 | Every write of a hand-off on the row, under any failure pattern, is a run of steps the protocol allows a releasing pass, ending with the same row. |
| PauseProtocol.PauseTakesOver | internal/api/tasks_actions.go:462-545 | When an operator pause answers ok with no foreign write since its reload, the row is paused, the lease is free and no pass is between its revalidation and the end of its release; a hold code on it can only be a disk_full a guard wrote behind the takeover. |
| PauseProtocol.PauseHoldsUnlessGuardInFlight | internal/engine/admission.go:332-343 | From such a row a pass can start, claim, stamp or move the task without anybody requeueing it if and only if a disk-space guard is between its read of the parked pair and its write; snapshots taken before the pause are included. |
| PauseProtocol.AnsweredPauseHolds | internal/api/tasks_actions.go:462-545 | End to end: after a pause's ok, no pass starts, claims, stamps or moves the task in any continuation without a requeue, if and only if no guard has stamped the row since the takeover and none is between its read and its write at that moment. |
| PauseProtocol.AnsweredPauseHoldsWithAtomicGuards | internal/engine/admission.go:799-890 | If every guard's read, check and write are one step, then after any operator pause's ok no pass starts, claims, stamps or moves the task until somebody requeues it. |
| PauseProtocol.ClearedStaysClean | internal/engine/admission.go:799-890 | With such guards nothing stamps the row between a pause's takeover and its answer. |
| PauseProtocol.LateGuardReopens | internal/engine/admission.go:799-890 | A guard in that window makes the row a parked one again, and a pass then claims and starts it. |
| PauseProtocol.PauseCanBeUndone | internal/engine/admission.go:799-890 | The concrete run: one guard parks the task, another reads the parked pair, the operator's pause takes over and answers ok, the second guard stamps disk_full back. |
| Handoff.OwnershipExactly | internal/engine/admission.go:947-1141 | Ownership after the hand-off (no foreign transfer runs, and a queued row whose transfer runs carries admission_pending, unless the compensating stop or remove itself failed) for every failure pattern of store and engine, writes that land and starts that take effect behind an error included: if and only if nothing could be started, or the queued row is marked already and a fresh transfer would be added stopped. |
| Handoff.HandOffOwns | internal/engine/admission.go:947-1141 | Each single hand-off keeps ownership on every exit when the snapshot's mark is not stale and no start takes effect behind an error, or when such a start would do no harm. |
| Handoff.OwnershipNeedsAFreshMark | internal/engine/admission.go:400-412 | Over the failure patterns whose starts are answered truly: ownership for all of them if and only if the snapshot's mark is not stale, or nothing could be started anyway. |
| Handoff.StaleMarkOverLiveHandle | internal/engine/admission.go:1033-1058 | A stale mark over a live handle: the release runs the transfer, both writes fail, and the stop is skipped because the snapshot claims the mark. |
| Handoff.StaleMarkOverFreshAdd | internal/engine/admission.go:1127-1140 | The same over a fresh Add after the handle was lost. |
| Handoff.LateAddEscapes | internal/engine/admission.go:1065-1073 | For every candidate with a source and no stored intent: an Add that takes effect behind an error leaves a transfer running that the pass has no handle of. |
| Handoff.LateResumeEscapes | internal/engine/admission.go:1006-1061 | For every unmarked queued row over a live handle: a Resume that takes effect behind an error leaves it running unowned. |
| Handoff.LateFirstStartEscapes | internal/engine/admission.go:1117-1125 | For every unmarked queued row with a source and intent: the same of the first start of a fresh transfer. |
| HandoffIntent.IntentBeforeBytes | internal/engine/admission.go:961-1140 | On every path and for every failure pattern: a transfer is started only after the stored limits reached that handle, and the stored selection too or the row is durably queued and marked for a metadata run; the selection never reaches a running transfer. |
| HandoffIntent.EveryAddIsAccountedFor | internal/engine/admission.go:1070-1101 | An Add the engine answered ends with its handle recorded on the row or its removal attempted. |
| HandoffIntent.AccountedExactly | internal/engine/admission.go:1070-1101 | For every failure pattern, an Add that takes effect behind an error included: if and only if the candidate has nothing to submit. |
| HandoffIntent.ApplyIntentLog | internal/engine/admission.go:1422-1506 | Limits are stated before the selection is sent, and success means both reached that handle. |
| HandoffRuns.ChargeCoversTheRow | internal/engine/admission.go:440-464 | An unmarked or parked candidate that comes to count is charged a slot for every failure pattern if and only if it arrived with a handle or has nothing to submit. |
| HandoffRuns.FirstHandOffEscapesTheCharge | internal/engine/admission.go:445-460 | The other case: a first hand-off whose release write landed without an answer counts in the database and costs the running pass nothing. |
| HandoffRuns.ReleasedMeansRunning | internal/engine/admission.go:947-1141 | A release that answers success leaves a downloading unmarked row whose recorded transfer runs with the stored limits and selection on it, and no hold code unless clearing it failed. |
| HandoffFates.ReleaseExactly | internal/engine/admission.go:947-1141 | Each result of a release, told by the answers of the calls alone: success, a lost store write, no submission, an outage, a pending listing, an unfinished fresh start, a refusal, each if and only if. |
| HandoffFates.AnsweredHandOff | internal/engine/admission.go:961-1061 | When every call answers: released if and only if the stored transfer is alive, or there is a source and the transfer is gone, was never there or stopped for disk space; it keeps its handle in the first case and gets the fresh one in the second; a result stopped for another fault fails the task and touches nothing. |
| HandoffFates.FailsExactly | internal/engine/admission.go:1314-1349 | For every failure pattern the task goes to error if and only if some call the release reached was answered with a definite no, the context is live and the write lands. |
| HandoffFates.OutagesNeverFail | internal/engine/admission.go:1300-1349 | An engine that is down at any of the calls, or that lost the transfer, never errors a task. |
| HandoffFates.AddsExactly | internal/engine/admission.go:961-1073 | For every failure pattern a transfer is created if and only if there is something to submit, the stored handle is missing or was proved useless, and the Add takes effect: never beside a transfer that may be alive. |
| HandoffFates.RefExactly | internal/engine/admission.go:1082-1101 | The handle on the row afterwards is the fresh one if and only if its transfer was not refused its intent and the recording write landed. |
| HandoffFates.OutcomeExactly | internal/engine/admission.go:423-464 | What the pass reads: released, aborted and spent, each if and only if, for every failure pattern. |
| HandoffFates.WaitingIsOwned | internal/engine/admission.go:1013-1026 | A transfer that waits for its file listing runs under a queued, marked row, on the stored handle and on a fresh one. |
| HandoffFates.WaitsLeaveTheRow | internal/engine/admission.go:1314-1341 | An outage before a fresh handle is recorded, or a missing source, leaves the row as it was but for a stale hold code. |
| HandoffFates.LostWriteIsOwnedOrStopped | internal/engine/admission.go:1027-1060 | When the last write is lost the queued row takes the mark, and the transfer is stopped exactly when that is not answered either and nobody owned the row before. |
| HandoffFates.IntentExactly | internal/engine/admission.go:1422-1506 | What stating limits and selection comes to, told by the answers: done, waiting for a listing, transfer gone, outage, refusal. |
| HandoffFates.IntentTransfers | internal/engine/admission.go:1422-1506 | What stating the intent does to the transfer: gone when the engine says so at a call, stopped when its listing cannot be read. |
| HandoffFates.WritesLand | internal/store/tasks.go:43-63 | An answered write has landed and an unanswered one may have; the mark is owned if and only if it is answered over a queued row. |
| HandoffFates.CallsTakeEffect | internal/engine/admission.go:947-1141 | An answered engine call has taken effect, one answered with an error may have, a transfer the engine lost is gone. |
| HandoffRuns.RefusalsLeaveTheRow | internal/engine/admission.go:1314-1349 | An unavailable engine, a missing submission and a refusal have written nothing to the row when they are reported. |
| HandoffRuns.RefusalsStopWhateverIsLate | internal/engine/admission.go:1314-1349 | A refused hand-off leaves nothing running, for every failure pattern, if and only if no transfer of the task ran when it began, it has no live handle to resume, and a fresh transfer would be added stopped. |
| HandoffRuns.RefusalsStopExactly | internal/engine/admission.go:1314-1349 | Over the patterns whose starts are answered truly: if and only if no transfer of the task ran when it began. |
| HandoffRuns.OwnershipOverTicks | internal/engine/admission.go:202-298 | Ownership is inductive over any run of passes, operator pauses, requeues, guard pauses, sweeps and engine events in which each pass hands over what it selected earlier in the run and found again at its revalidation, nobody requeues the task in between, and requeues find the transfer stopped; as long as no compensation failed. |
| HandoffRuns.SnapshotStaysFresh | internal/engine/admission.go:332-353 | Where nobody requeues the task between selection and lease, a snapshot that passes the revalidation has the row's handle and mark. |
| HandoffRuns.PauseAndResumeLoseTheMark | internal/engine/admission.go:400-412 | The concrete run in which somebody does: the pass selects a marked row, the operator pauses and resumes it, and the hand-off during a store outage leaves a transfer running over an unmarked queued row. |
| HandoffRuns.OwnershipOverRuns | internal/engine/admission.go:947-1141 | The same induction with the agreement of snapshot and row stated step by step. |
| HandoffRuns.StepOwnsExactly | internal/api/tasks_actions.go:462-600 | Which of those other steps keep ownership: all but a requeue that lands over a running transfer. |
| HandoffRuns.PausesLand | internal/api/tasks_actions.go:462-545 | What an answered operator pause and a guard's pause come to: a paused row without a hold code, or a parked one, over a stopped transfer. |
| HandoffRuns.RequeuesAndEventsLand | internal/api/tasks_actions.go:547-600 | What an answered requeue and the engine's own events come to. |
| TaskRow.LegalFromBothEnds | internal/store/tasks.go:43-63 | The edge table read by target agrees with the one read by source. |
| HandoffRuns.ParkedOutageThenRequeue | internal/engine/admission.go:1033-1058 | That precondition can fail: a parked task whose release ran the transfer but could not move the row, requeued before the sweep. |
| HandoffInPlace.Task.HandOff | internal/engine/admission.go:423-464 | The release, its outcome and releaseFailed's writes as ordered effects on a mutable row and engine compute the function the theorems are about. |
| Space.Admits | internal/fsx/space.go:204-220 | The stepwise, overflow-free comparison answers exactly free - (committed + remaining) >= floor with nothing negative. |
| Space.FindRoot | internal/engine/admission.go:730-743 | The loop computes RootOf. |
| Space.RootOfIsLongest | internal/engine/admission.go:730-756 | The root of a destination is an owner, segment by segment, and no owner is longer; '' exactly when nothing owns it. |
| Space.OwnsBySegments | internal/engine/admission.go:745-756 | A root owns a path if and only if the path's segments begin with the root's, and / owns every absolute path: /database is not under /data. |
| Space.TrimmedSpelling | internal/engine/admission.go:721-743 | Trailing slashes of a root do not count; a root of nothing but slashes is the whole filesystem. |
| Space.OwnersDifferInLength | internal/engine/admission.go:730-756 | Two owners of one destination differ in length, so the longest is unique. |
| Space.RootOfIgnoresOrder | internal/engine/admission.go:730-743 | The order and repetition of the configured roots do not matter. |
| Space.Floor | internal/fsx/space.go:36-54 | The floor is the largest entry that names the root, and the default when no non-negative entry does, whatever the map order. |
| Space.FloorIsDetermined | internal/fsx/space.go:36-54 | That description fixes the floor for every iteration order of the same entries. |
| AdmissionPass.NeverPastALimit | internal/engine/admission.go:202-298 | For any candidates and any answers the total ends at most max(initial, MaxActiveTotal), and likewise per engine; counts never fall. |
| AdmissionPass.ZeroMeansUnlimited | internal/engine/admission.go:180-189 | With both limits zero no candidate is ever stamped for a slot. |
| AdmissionPass.QueuedGoesExactly | internal/engine/admission.go:386-398 | A queued unmarked candidate is handed over if and only if the total and its engine's count are below the limits that are set and its filesystem has room or cannot be read. |
| AdmissionPass.ParkedGoesExactly | internal/engine/admission.go:353-438 | A parked one if and only if its filesystem can be read and has room, both counts are below, and its claim is taken. |
| AdmissionPass.HoldsSayWhy | internal/engine/admission.go:353-398 | The stamp a held candidate gets: the slot before the space when queued, the space alone when parked. |
| AdmissionPass.SpaceHoldIsNeeded | internal/fsx/space.go:204-220 | In plain numbers: with a slot free, a task is held for space if and only if free space minus the pool minus its remaining bytes is below its floor. |
| AdmissionPass.NoSlotLeftOver | internal/engine/admission.go:202-298 | When a pass held a queued task that had room, a limit that is set is used up at the pass's end. |
| AdmissionPass.RemainingIsTheRest | internal/engine/admission.go:710-719 | The bytes a task still needs: total minus completed, nothing while the total is unknown, never negative. |
| AdmissionPass.OthersAreSkipped | internal/engine/admission.go:332-343 | Busy and overtaken candidates leave the pass as it is; a failed read is counted as an error. |
| AdmissionPass.ClaimsDecide | internal/engine/admission.go:414-438 | A parked candidate whose claim is declined leaves the pass as it is, one whose claim fails counts as an error. |
| AdmissionPass.MarkedRetriesAreInvisible | internal/engine/admission.go:386-412 | For any candidates and answers: the counts, pools and stamps of a pass are those of the pass without its marked retries, as long as none of them is where the context ends. |
| AdmissionPass.UnreadableOverThePass | internal/engine/admission.go:604-652 | Over a whole pass a filesystem that cannot be read lets no parked task go and holds no queued one that has a slot. |
| AdmissionPass.FullStaysFull | internal/engine/admission.go:180-189 | Once the total limit is reached only marked retries are handed over for the rest of the pass. |
| AdmissionPass.CountedIsChargedOrEscaped | internal/engine/admission.go:202-298 | Every row the pass adds to the counted set was charged in memory, escaped the charge, or belongs to the hand-off a context ended in. |
| AdmissionPass.DatabaseNeverPastALimit | internal/engine/admission.go:202-298 | For any answers at all, the database counts past the limit by at most the hand-offs that left their row counted and cost the pass nothing. |
| PassOverHandoffs.EscapesAreUnanswered | internal/engine/admission.go:440-464 | With the answers computed by the hand-off itself, such an escape is a first hand-off one of whose store writes was not answered. |
| PassOverHandoffs.DatabaseStaysNearTheLimit | internal/engine/admission.go:202-298 | So after a pass over any hand-offs with any failures the database counts at most the limit, or what it counted before, and one more for each of those. |
| PassOverHandoffs.DatabaseStaysInTheLimit | internal/engine/admission.go:202-298 | And never past it, for every failure pattern, when every candidate arrives with a handle or with nothing to submit. |
| AdmissionPass.PoolsGrowByPromises | internal/engine/admission.go:654-664 | Destinations on one filesystem share one pool and it grows by exactly the remaining bytes of the charged candidates there, 64-bit wrap included. |
| AdmissionPass.ChargeLeavesTheFloor | internal/engine/admission.go:604-664 | Every charged hand-off on a readable filesystem leaves free space minus the pool at or above the candidate's own floor, and its pool has not wrapped. |
| SpaceGateLoop.PoolIsTheSum | internal/engine/admission.go:538-556 | The opening pool of a filesystem is the sum over the destinations on it. |
| SpaceGateLoop.PoolsIgnoreOrder | internal/engine/admission.go:538-556 | The order in which the store's map is walked does not change any pool. |
| SpaceGateLoop.SpaceGate.constructor | internal/engine/admission.go:538-556 | The gate starts with those pools and empty caches. |
| SpaceGateLoop.SpaceGate.Reservation | internal/engine/admission.go:678-700 | Through its caches the gate answers the first statfs of each filesystem for the whole pass, failures included. |
| SpaceGateLoop.SpaceGate.Holds | internal/engine/admission.go:604-618 | A queued candidate is held exactly when its filesystem is readable and does not admit. |
| SpaceGateLoop.SpaceGate.HoldsParked | internal/engine/admission.go:626-646 | A parked one is held when it does not admit or cannot be read. |
| SpaceGateLoop.ProcessCandidate | internal/engine/admission.go:332-438 | The gates in the code's order reach the verdict the walk specifies: revalidation, space before slot when parked, slot before space when queued, none when marked, the claim last. |
| SpaceGateLoop.VisitOne | internal/engine/admission.go:231-290 | One loop iteration updates counts, gate, stamps and released as the walk does. |
| SpaceGateLoop.PassLoop | internal/engine/admission.go:202-298 | The whole pass over mutable state computes the walk, and fails exactly when the context ended or every release attempt ended in store errors. |
| ResumeBatch.PromisesFitTheHeadroom | internal/api/tasks_actions.go:547-600 | The ok answers of a resume batch never promise more slots than the snapshot had free, in total and per engine. |
| ResumeBatch.AnswersTellTheHeadroom | internal/api/tasks_actions.go:554-600 | A requeued task is answered no slot if and only if the snapshot's tasks and the promises before it have reached the total limit, or on its engine the per-engine limit, that is set; else ok. |
| ResumeBatch.OtherAnswers | internal/api/tasks_actions.go:237-300 | Unknown ids, blocked ones and tasks that cannot be requeued, each if and only if. |
| ResumeBatch.ResumeTasks | internal/api/tasks_actions.go:237-300 | The batch loop over one consumed snapshot gives those answers. |
| ResumeBatch.Snapshot.Reserve | internal/store/tasks.go:651-659 | One reservation takes one slot of the total and one of the engine. |
| PatternScan.CloseParen | scripts/gen-ytdlp-patterns.py:190-211 | The cursor loop answers the parenthesis that brings the depth to zero, or -1. |
| PatternScan.StripVerbose | scripts/gen-ytdlp-patterns.py:214-242 | The cursor loop computes the recursive stripping. |
| PatternScan.SpacesByName | scripts/gen-ytdlp-patterns.py:219-243 | The characters isspace takes for blanks, and the six of them that verbose mode ignores. |
| PatternScan.RewriteCaptures | scripts/gen-ytdlp-patterns.py:245-279 | The cursor loop computes the recursive rewriting. |
| PatternTree.StripGivesThePlainPrint | scripts/gen-ytdlp-patterns.py:214-242 | For every pattern tree: stripping the print with its blanks and comments gives the print without them, if and only if no literal is one of the spaces that isspace accepts and verbose mode does not ignore. |
| PatternTree.StripTrailingComment | scripts/gen-ytdlp-patterns.py:214-242 | A comment that runs to the end of the pattern goes too; the rest is as without it. |
| PatternTree.StripIsIdempotent | scripts/gen-ytdlp-patterns.py:214-242 | On any string at all, stripping twice is stripping once. |
| PatternTree.RewriteErasesCaptures | scripts/gen-ytdlp-patterns.py:245-279 | rewrite_captures of a print, kept comments included, is the print of the tree with every capturing and named group made a plain one and nothing else changed; classes do not start with ']'. |
| PatternTree.CommentKeptExactly | scripts/gen-ytdlp-patterns.py:245-279 | Which comments are kept, whatever follows them: if and only if the text and its newline hold no opening that would be rewritten and end outside a class. |
| PatternTree.BracketFirstKeptExactly | scripts/gen-ytdlp-patterns.py:245-279 | Which classes whose first member is a closing bracket come through unchanged, whatever follows them: if and only if what stands behind that bracket holds no opening that would be rewritten and ends outside a class. |
| PatternTranspile.FirstBracketEndsTheClassEarly | scripts/gen-ytdlp-patterns.py:245-279 | The concrete class of that kind that is changed. |
| PatternTree.RewriteIsIdempotent | scripts/gen-ytdlp-patterns.py:245-279 | On any string at all, rewriting twice is rewriting once. |
| PatternTree.CloseIsBalanced | scripts/gen-ytdlp-patterns.py:190-211 | On any text: the parenthesis behind it is the one answered if and only if the text reads as balanced, from any depth and inside or outside a class. |
| PatternTree.CloseMisses | scripts/gen-ytdlp-patterns.py:190-211 | On any text: the answer is -1 if and only if the reading never leaves the outermost group. |
| PatternTree.CloseFindsTheGroupsEnd | scripts/gen-ytdlp-patterns.py:190-211 | At a group's opening parenthesis the answer is that group's closing one, whatever follows, if and only if the text between, comments and all, reads as balanced. |
| PatternTree.CloseMissesAnOpenGroup | scripts/gen-ytdlp-patterns.py:190-211 | A group that is never closed has no answer if and only if nothing inside seems to close it. |
| PatternTree.BalancedCommentsSuffice | scripts/gen-ytdlp-patterns.py:190-211 | Both conditions hold of every tree whose comments are balanced text, such as # http(s). |
| PatternTranspile.PlainPatternTranspiles | scripts/gen-ytdlp-patterns.py:387-416 | Without the text (?x the pattern keeps its text, blanks and kept comments included, captures aside, and is widened. |
| PatternTranspile.HeadedTextTranspiles | scripts/gen-ytdlp-patterns.py:387-416 | Every text that opens with (?flags: and an x among the flags: rewritten as it stands when it does not contain (?x; else unwrapped if and only if what follows is the rest of one balanced group; else None. |
| PatternTranspile.HeadedTextContains | scripts/gen-ytdlp-patterns.py:387-416 | Such a text contains (?x if and only if its flags start with x or it occurs later. |
| PatternTranspile.VerboseGroupTranspiles | scripts/gen-ytdlp-patterns.py:387-416 | A verbose group that is the whole pattern is unwrapped if and only if its text reads as balanced, wide spaces going with the blanks. |
| PatternTranspile.VerboseGroupUnwrapsIfItSpans | scripts/gen-ytdlp-patterns.py:387-416 | A leading verbose group of balanced text is unwrapped if and only if it is the whole pattern; the result is the widened print of the plain, capture-erased body under the remaining flags. |
| PatternTranspile.BareVerboseTranspiles | scripts/gen-ytdlp-patterns.py:387-416 | A bare (?x...) makes the rest of the pattern verbose: the result is the widened print of the plain, capture-erased rest under its other flags. |
| PatternTranspile.LateXKeepsTheTrivia | scripts/gen-ytdlp-patterns.py:387-416 | Flags that hold x but do not start with it, over a body without (?x: the group keeps its blanks and its kept comments. |
| PatternTranspile.FlagOrderMatters | scripts/gen-ytdlp-patterns.py:387-416 | So (?ix: a ) keeps its blanks and (?xi: a ) becomes (?i:a), which Python reads as the same pattern. |
| PatternTranspile.OtherVerboseIsRefused | scripts/gen-ytdlp-patterns.py:387-416 | A pattern with (?x anywhere that does not start with a flag group holding an x has no answer. |
| PatternTranspile.LettersAreTheAlphabet | scripts/gen-ytdlp-patterns.py:397-399 | The letters a leading flag group is read by. |
| PatternPieces.MembersUnambiguous | scripts/gen-ytdlp-patterns.py:282-384 | Python's reading of a class body never leaves a '-' that would make another range. |
| PatternPieces.PiecesPrint | scripts/gen-ytdlp-patterns.py:282-384 | The pieces a tree is read as print as the tree does. |
| PatternPieces.WidenOfTree | scripts/gen-ytdlp-patterns.py:297-384 | Widening the print of a tree is widening its pieces one by one, or None exactly when some class of the tree needs a complement it cannot write. |
| PatternAnswers.PlainPatternKeepsTheSets | scripts/gen-ytdlp-patterns.py:387-416 | End to end without (?x: the answer prints pieces whose shorthands and classes are those of the pattern, in order, each matching the same code points. |
| PatternAnswers.VerboseGroupKeepsTheSets | scripts/gen-ytdlp-patterns.py:387-416 | End to end for a verbose group that is the whole pattern: the sets are those of the body Python reads, wide spaces or not, as long as what stripping leaves is still a pattern. |
| PatternAnswers.LeftIsPlain | scripts/gen-ytdlp-patterns.py:214-242 | Without literal wide spaces it always is, namely the plain tree. |
| PatternAnswers.BareVerboseKeepsTheSets | scripts/gen-ytdlp-patterns.py:387-416 | End to end behind a bare (?x...). |
| PatternAnswers.WidenedTreeClassKeepsTheSet | scripts/gen-ytdlp-patterns.py:297-384 | A class of the tree as output text: what RE2 reads there matches what Python's reading of the class matched. |
| PatternTranspile.NoisyCommentHidesTheEnd | scripts/gen-ytdlp-patterns.py:190-211 | Why comments must be quiet: a bracket in a comment makes close_paren answer the pattern's last parenthesis for a group that ends before it. |
| PatternWiden.ReadBody | scripts/gen-ytdlp-patterns.py:339-358 | The inner loop reads the class body as tokens and keeps a first-position ']' as a member. |
| PatternWiden.WidenShorthands | scripts/gen-ytdlp-patterns.py:297-384 | The two nested loops compute the recursive widening. |
| PatternMeaning.WideningKeepsTheSet | scripts/gen-ytdlp-patterns.py:282-384 | Every shorthand and every class, negated ones, a first-position ']' and the match-anything pair included, matches the same code points after widening. |
| PatternMeaning.MembersItemsMean | scripts/gen-ytdlp-patterns.py:282-331 | The items a class body is written as match exactly what its members matched, for any letter, number and separator tables. |
| PatternWidenTree.WidenPrintsTheWidePieces | scripts/gen-ytdlp-patterns.py:297-384 | widen_shorthands of a print is the print of the widened pieces in order, and None if and only if some class needs \W or \S in place and is not the complementary pair. |
| PatternWidenTree.CollapseIsThePair | scripts/gen-ytdlp-patterns.py:359-367 | The collapse to match-anything happens exactly for an unnegated class of a shorthand and its own complement. |
| PatternWidenTree.UnclosedClassHasNoForm | scripts/gen-ytdlp-patterns.py:339-358 | A class that is never closed makes the answer None. |
| PatternWidenTree.SpecialsKeepTheirEnds | scripts/gen-ytdlp-patterns.py:368-384 | A plain '-', '^' or ']' of the widened body stands where it stood. |
| PatternReader.WidenedClassReads | scripts/gen-ytdlp-patterns.py:282-384 | A reader of RE2 class bodies takes the widened text of a class, as Python reads it, back to exactly the widened members and stops at its end. |
| PatternReader.WidenedTextKeepsTheSet | scripts/gen-ytdlp-patterns.py:282-384 | What it reads matches exactly what the class matched, a negation and a first-position ']' included. |
| PatternReader.WidenedShorthandKeepsTheSet | scripts/gen-ytdlp-patterns.py:322-331 | The same for \w, \W, \s and \S outside a class. |
| LoginThrottle.CreditLedger | internal/api/auth.go:556-581 | For any run of sections and sweeps: attempts admitted times 30 s plus the credit left never exceeds the credit before plus the time passed, and credits stay within 0..window. |
| LoginThrottle.SourceRateBound | internal/api/auth.go:556-581 | One address is admitted at most 10 + floor(D / 30 s) times in any interval of length D, whatever the others do. |
| LoginThrottle.RefusalWaitIsExact | internal/api/auth.go:568-572 | After a refusal, the address's next attempt at now + d is admitted if and only if d is at least the wait it was told, any other traffic in between. |
| LoginThrottle.FailedLoginWaits | internal/api/auth.go:538-553 | After a failed login, with any other traffic and sweeps in between, a check after d refuses if and only if d is less than one second doubled for every failure on record, at most 15 minutes, and names the rest of it. |
| LoginThrottle.LadderDoubles | internal/api/auth.go:584-597 | Over any run in which nothing comes so late that the ladder may be forgotten: the exponent is the number of the account's failures since its last success. |
| LoginThrottle.IdleLadderStartsOver | internal/api/auth.go:538-547 | A check at least 15 minutes after the wait's end forgets the ladder, an earlier one forgets nothing. |
| LoginThrottle.SuccessForgives | internal/api/auth.go:599-607 | After a success the account is let in and has no failure on record, whatever the others do. |
| LoginThrottle.RejectedLoginHolds | internal/api/auth.go:834-895 | The login after a rejected one, from any address and with any spelling of the name: limited by its address, limited by the account with the exact wait, or let in. |
| LoginThrottle.AcceptedLoginFrees | internal/api/auth.go:834-895 | The login after an accepted one is let in if its address is. |
| LoginThrottle.RefusalsRecordNothing | internal/api/auth.go:834-895 | Which of the two checks refuses a login; a refused one adds nothing to the account's ladder. |
| LoginThrottle.SameAccount | internal/api/auth.go:527-535 | Two names share an account if and only if they differ in the case of ASCII letters alone. |
| LoginThrottle.SweepKeepsCredit | internal/api/auth.go:610-622 | A sweep changes no address's spendable credit at any later time. |
| LoginThrottle.SweepForgetsTheIdle | internal/api/auth.go:609-622 | A sweep forgets exactly the waits over for the cap, with their counters, and the addresses not seen for a window. |
| LoginThrottle.ClampIsExact | internal/api/auth.go:584-591 | The counter clamped at 11 gives min(2^(k-1) s, 15 min) for every k. |
| LoginThrottle.SweepIsInvisible | internal/api/auth.go:834-895 | For every sequential run of logins the swept and clamped throttle gives the answers of one that never sweeps and never clamps. |
| LoginThrottle.LoginAgrees | internal/api/auth.go:834-895 | One login keeps the two throttles in agreement and answers alike: both checks, then the record, at one instant. |
| LoginThrottleMaps.Throttle.CheckSource | internal/api/auth.go:556-581 | The mutating section computes the function the bounds are about. |
| LoginThrottleMaps.Throttle.CheckAccount | internal/api/auth.go:538-553 | Deletes an account idle for the cap, and refuses only before the eligible time. |
| LoginThrottleMaps.Throttle.RecordFailure | internal/api/auth.go:584-597 | Steps the clamped ladder, sets the next eligible time and sweeps past the floor. |
| LoginThrottleMaps.Throttle.RecordSuccess | internal/api/auth.go:600-607 | Clears the account and refunds no source token. |
| LoginThrottleMaps.Throttle.Sweep | internal/api/auth.go:610-622 | Deleting while walking, in any map order, leaves exactly the entries that are still recent. |
| LoginThrottleMaps.Throttle.AccountKey | internal/api/auth.go:528-535 | Folds ASCII capitals only, character by character. |
| SettingsImport.ByName | internal/api/settings_export.go:102-102 | An indexer is matched by name to the row of that name with the lowest priority. |
| SettingsImport.ByDefinition | internal/api/settings_export.go:101-101 | Or by its definition id. |
| SettingsLedger.LedgerConserves | internal/api/settings_export.go:542-629 | For every document, database, host and conflict mode each collection's created + updated + skipped + rejected equals its entries (schedule one), no counter is negative, and the rejected list has exactly the rejected rows. |
| SettingsLedger.RejectWriteCounts | internal/api/settings_export.go:610-629 | Moving a counted row to rejected after a constraint failure takes back exactly the count it was given. |
| SettingsLedger.CountersTellTheTable | internal/api/settings_export.go:586-629 | For any table, entries and check: created grows by exactly what the table grows by, a skip import updates nothing and skips exactly the entries whose key was there at their turn, an overwrite import skips nothing. |
| SettingsLedger.CountersTellTheIndexers | internal/api/settings_export.go:825-906 | The same of the indexer rows. |
| SettingsLedger.ReportTellsTheTables | internal/api/settings_export.go:542-629 | In the report of a whole import created is each table's growth, skip updated nothing, overwrite skipped nothing, settings are never skipped and the grid is one update. |
| SettingsLedger.RejectedListIsExact | internal/api/settings_export.go:572-584 | The rejected list grows by exactly the refused entries with the host's reason and the written ones the table's check refused, in order. |
| SettingsLedger.RejectedIndexersAreExact | internal/api/settings_export.go:825-906 | The same of the indexers, a definition id that another row holds being a conflict. |
| SettingsLedger.RefusalsSayWhy | internal/api/settings_export.go:773-1118 | Why the host refuses a category, feed, rule or watch folder: a path that does not resolve is rejected as a path, everything else as content, and what it stores otherwise. |
| SettingsLedger.GridIsStored | internal/api/settings_export.go:1121-1165 | The grid and its switch are stored as the document has them, whatever its settings member says. |
| SettingsLedger.TotalsConserve | internal/api/settings_export.go:520-537 | The totals add up to the document's entries. |
| SettingsLedger.RejectedTotalIsTheList | internal/api/settings_export.go:520-537 | The rejected total is the length of the rejected list. |
| SettingsRoundTrip.OverwriteStoresTheLast | internal/api/settings_export.go:588-601 | Under overwrite the last accepted entry of a key is what the table holds, other keys are untouched. |
| SettingsRoundTrip.OnlyTheGridAborts | internal/api/settings_export.go:1121-1165 | An import fails as a whole if and only if its grid is not 7 times 24 cells of 0 to 2. |
| SettingsRoundTrip.SecondSkipChangesNothing | internal/api/settings_export.go:773-1114 | A second skip import changes no row of any collection, indexers included. |
| SettingsRoundTrip.SecondOverwriteIsFixed | internal/api/settings_export.go:773-1165 | A second overwrite import leaves the uniquely keyed collections, the settings and the grid as the first left them. |
| SettingsIndexers.SecondOverwriteLeavesIndexers | internal/api/settings_export.go:825-901 | And the indexers too, under distinct names and definition ids. |
| SettingsIndexers.DriftsExactly | internal/api/settings_export.go:825-901 | For any table with unique definition ids and any entry: importing it a second time changes the table if and only if it is accepted, has no definition id, is matched by name, and another row of that name then stands ahead of it without an equal row at or before that one. |
| SettingsIndexers.SecondOverwriteDrifts | internal/api/settings_export.go:825-901 | In whole imports, for a document with one indexer entry: the second overwrite changes the indexers exactly then. |
| SettingsIndexers.SharedNamesDrift | internal/api/settings_export.go:825-901 | An instance. |
| SettingsExport.RowsRoundTripExactly | internal/api/settings_export.go:334-477 | Exporting, importing into an unused database and exporting again gives the same categories, feeds, rules and watch folders, in either mode, if and only if every stored row is one the importing host stores as it is. |
| SettingsExport.RowsRoundTrip | internal/api/settings_export.go:334-477 | For such rows the import succeeds and the grid comes back too. |
| SettingsExport.SettingsRoundTripExactly | internal/api/settings_export.go:637-672 | The settings come back too if and only if schedule_enabled was stored and the fresh database seeds no exported key that was not. |
| SettingsImporter.Importer.Import | internal/api/settings_export.go:482-537 | A dry run answers the commit's report and totals and leaves the database; a commit stores the result; a too new or failed import changes nothing. |
| SettingsImporter.Importer.ApplyImport | internal/api/settings_export.go:542-571 | The seven stages over one transaction compute the specified tables and report. |
| SettingsImporter.Importer.ImportRows | internal/api/settings_export.go:773-818 | The row loop: reject, count, skip, write, or take the count back. |
| SettingsImporter.Importer.ImportIndexerRows | internal/api/settings_export.go:825-901 | The same over the two match keys and the unique index. |
| SettingsImporter.Importer.FindIndexer | internal/api/settings_export.go:861-872 | The lookup answers the row the two queries define. |
| SettingsImporter.Importer.ImportGrid | internal/api/settings_export.go:1121-1165 | A grid of the wrong size or with an unknown cell fails the transaction. |
| SettingsImporter.Importer.RejectRowError | internal/api/settings_export.go:610-629 | Takes back created or updated and adds one rejected row. |
| SettingsImporter.Importer.Count | internal/api/settings_export.go:588-601 | Counts a row and says whether to write it. |
| CategoryTree.LastWriterWins | internal/api/search.go:1359-1404 | Given distinct default ids, the output has exactly the default roots and unknown cached ids as roots and the default subcategories under their parents, each id once, each named by the last cached entry in row order or else its default, ascending at both levels. |
| CategoryTree.MergedRoots | internal/api/search.go:1375-1396 | Before sorting: which ids are roots and under which name. |
| CategoryTree.MergedSubs | internal/api/search.go:1375-1396 | Subcategories stay under their parent and are renamed by the last cached entry alone. |
| CategoryTree.SortedDistinct | internal/api/search.go:1397-1404 | Sorting keeps every id at one place. |
| CategoryMerge.MergeCategories | internal/api/search.go:1359-1404 | The in-place merge over a deep copy computes that tree and writes nothing the caller can reach. |
| CategoryMerge.Copy | internal/api/search.go:1360-1366 | The copy has the same contents in fresh arrays, no two shared. |
| CategoryMerge.Index | internal/api/search.go:1367-1374 | The positions index is exact: it knows every id of the tree and where it stands. |
| CategoryMerge.Overlay | internal/api/search.go:1384-1395 | One cached entry renames in place through the index or appends a new root, and the index stays exact. |
| CategoryMerge.OverlayRows | internal/api/search.go:1375-1396 | All rows in order; unreadable ones are skipped. |
| Sorting.SortByAscends | internal/api/search.go:1397-1404 | Sorting a list with distinct keys gives a strictly ascending one. |
| Planner.NoDuplicatePlanned | internal/api/tasks.go:592-706 | Across the blob parts and URIs of one submission no two unblocked planned tasks share a v1 or v2 infohash, hybrids against bare hashes included, and none shares one with a live task. |
| Planner.EveryInputAnsweredOnce | internal/api/tasks.go:798-890 | Each input gets exactly one planned task or one rejection, one of each when blocked. |
| Planner.PlannedIffNew | internal/api/tasks.go:1244-1293 | A candidate is planned if and only if it shares no hash with a live task nor with an unblocked task planned before it. |
| Planner.EveryRejectionSaysWhy | internal/api/tasks.go:592-706 | In a request that did not fail an input is rejected for a reason if and only if the reason is true of the plan before it: not accepted, preflight, a repeat of an unblocked planned task, live already. |
| Planner.FailsExactly | internal/api/tasks.go:592-706 | An input fails the request if and only if its engine is missing, or it would be planned but for the store or its destination. |
| Planner.AlreadyMeansPlanned | internal/api/tasks.go:1276-1293 | The shared set answers exactly whether an unblocked planned task shares a hash. |
| Planner.SharesIsKeysMeet | internal/api/tasks.go:1276-1293 | The prefixed keys of two torrents meet exactly when a column agrees: the columns never mix. |
| PlannerLoops.PlanSubmission | internal/api/tasks.go:471-487 | Blob loop, URI loop and the reordering of the result, over one mutable set: the duplicate-free plan, its rejections, and failure exactly when an input fails the request. |
| PlannerLoops.PlanInputs | internal/api/tasks.go:592-643 | The loop over one family of inputs computes the plan. |
| PlannerLoops.DuplicateRejection | internal/api/tasks.go:1244-1273 | The repeat check first, then the store over both columns. |
| PlannerLoops.Seen.MarkPlanned | internal/api/tasks.go:1276-1284 | Adds one key per present column. |
| FileSelection.ResolversAgree | internal/api/submission.go:428-487 | For every entry list and an n-file listing, creation accepts exactly when the listing resolver reports no field error; then both give the same priorities, and selected holds exactly when the priority is not skip. |
| FileSelection.EntriesAgree | internal/api/tasks_files.go:418-452 | The two decision procedures over one entry are the same function. |
| FileSelection.AcceptedIffOk | internal/api/submission.go:428-487 | A list is accepted if and only if every index is new and in range and every entry is complete, known and consistent. |
| FileSelection.PrioritiesAreAsked | internal/api/submission.go:459-487 | Every index of an accepted list gets the number its entry asks for: 0, 1, 6 or 7 by its word, 0 when deselected, else 1. |
| FileSelection.ErrorsSayWhy | internal/api/tasks_files.go:388-452 | A field error stands at an entry if and only if it is the first thing wrong with it: repeated, silent, unknown index, unknown word, contradiction. |
| FileSelection.WordsMean | internal/api/tasks_files.go:46-58 | The four words and their numbers; any other word is unknown. |
| FileSelection.SortedIndices | internal/api/submission.go:452-456 | The indices are the sorted, duplicate-free selected set. |
| FileSelection.ApplySelection | internal/api/submission.go:428-456 | The creation-time loop computes its specification. |
| FileSelection.ResolveFileSelection | internal/api/tasks_files.go:376-455 | The listing resolver's loop computes its specification, every field error at its entry. |

## Left out

- Handoff.HandOffOwns: one direction, per hand-off; `Handoff.OwnershipExactly` is the exact statement over all failure patterns. In both the snapshot's engine handle is taken to be the row's, as the revalidation does not re-read that column.
- Handoff.OwnershipNeedsAFreshMark: over the failure patterns whose starts are answered truly; `Handoff.OwnershipExactly` is over all.
- HandoffRuns.OwnershipOverTicks: the conditions on requeues and on late starts stay, because ownership is false of runs without them (`HandoffRuns.StepOwnsExactly`, `HandoffRuns.PauseAndResumeLoseTheMark`, `Handoff.OwnershipExactly`).
- HandoffRuns.OwnershipOverRuns: the same, with the agreement of snapshot and row assumed of each pass; `HandoffRuns.OwnershipOverTicks` derives it.
- HandoffRuns.RefusalsStopExactly: over the failure patterns whose starts are answered truly; `HandoffRuns.RefusalsStopWhateverIsLate` is over all.
- HandoffIntent.IntentBeforeBytes: an engine's other running states, such as checking, are merged into one running state, which the hand-off stops before it sends a selection; the code stops the downloading state only.
- HandoffFates.WaitingIsOwned: the requeue, the mark and the metadata start are taken to be answered; ownership for the other answers is `Handoff.OwnershipExactly`.
- LoginThrottle.SweepIsInvisible: sequential logins only, as the two checks and the record of interleaved logins are separate mutex sections.
- LoginThrottle.LadderDoubles: runs in which nothing comes fifteen minutes after the account's wait is over; `LoginThrottle.IdleLadderStartsOver` says what happens then.
- PatternTree.RewriteErasesCaptures: a class whose first member is `]` is excluded, because the scanner ends such a class early: `PatternTree.BracketFirstKeptExactly` says which of them come through all the same, `PatternTranspile.FirstBracketEndsTheClassEarly` shows one that does not; and comments that are not kept, which `PatternTree.CommentKeptExactly` characterises.
- PatternTranspile.PlainPatternTranspiles: comments that are not kept are excluded, because the rewriter changes them or what follows.
- PatternTranspile.LateXKeepsTheTrivia: the same.
- PatternAnswers.PlainPatternKeepsTheSets: comments with brackets or backslashes are excluded, as a comment left in the text is read as pieces there, and so are classes that Python itself refuses.
- PatternTree.StripGivesThePlainPrint: about text; trivia inside a construct of several characters, as in the repeat count `{1, 2}`, is not told from trivia between tokens, and stripping it can make a repeat of what Python reads as literals.
- PatternReader.WidenedTextKeepsTheSet: RE2's POSIX and Perl class names are not read, as widening never writes them; a class that names a POSIX class by accident is not covered.
- PatternAnswers.VerboseGroupKeepsTheSets: classes that Python itself refuses are excluded, and bodies from which dropping a wide space leaves a group that opens with a question mark.
- PatternAnswers.BareVerboseKeepsTheSets: the same two.
- SettingsExport.RowsRoundTripExactly: path resolution is taken to settle, a resolved path resolving to itself.
- Interleaving inside one release: `Handoff` is sequential under the lease, `PauseProtocol` covers the interleaving of the steps around it.
- The reconciler's own resubmission, engine events that start a transfer by themselves, and the engine's priorities argument of SetFiles.
- Back-references, `\b`, and the matching relation of whole regular expressions: the pattern theorems are about text and about the set each atom matches.
- Search results as a third input family of the planner, and hashes parsed from a link or manifest, which are inputs here.
- SQL text, row ids, timestamps, messages, logging, and contexts beyond "may end here".
- Integer widths, apart from the 64-bit pools and reservations.
- Floating-point fields and importJSONInt; validators are functions of the caller.
- DeleteData, the queue-order actions and the remaining task actions, which would only add easy members.
- HTTP, sessions, CSRF, the web UI, feeds, rules, watch folders and notifications outside the import.
