# A verified model of the AINDY runtime core

The AINDY runtime executes agent plans: it queues jobs, runs tools at most once, passes
results from step to step, narrows what each run may do, undoes what a run did, and takes
crashed runs up again. This project models that core in Dafny and proves what it promises
over every input, every interleaving and every run.

| file | models |
|---|---|
| `RedisQueue.dfy`, `RedisBounds.dfy`, `RedisCopies.dfy`, `RedisLedger.dfy`, `RedisTimes.dfy`, `RedisRaces.dfy` | the Redis transport: every Redis call of every worker is one step, and a run is any interleaving of them, with crashes, failing calls and calls sent again |
| `MemoryQueue.dfy`, `MemoryTimes.dfy`, `MemoryRaces.dfy`, `MemoryBackend.dfy` | the in-process transport: every critical section of every thread is one step, and the class whose methods are those steps in a row |
| `EffectGate.dfy`, `EffectDeaths.dfy`, `GateCall.dfy` | the effect gate around a tool call and the effect ledger row and advisory lock it uses, for any number of callers of one action id |
| `Json.dfy`, `ResultShapes.dfy` | result paths, and the check of a path against a declared result shape |
| `StepReferences.dfy`, `PlanReferences.dfy` | references from one step's arguments to another's result: walking, resolving, validating a plan, the idempotency scope of a step |
| `Compensation.dfy`, `UndoRestoring.dfy`, `UndoRaces.dfy` | the newest-first undo of a run's effects and its audit log, one undo after the other or overlapping |
| `Environment.dfy` | clamping a declared execution environment to a floor, and what a guest script's VM is given |
| `Capabilities.dfy`, `Tokens.dfy` | what a run is granted, the token that says so, its MAC, and the check of a tool call against it |
| `Lineage.dfy`, `Forest.dfy`, `Delegation.dfy`, `DelegationGrants.dfy`, `DelegationRaces.dfy` | walking parent links, the delegation guard, and every table of runs that delegation can build |
| `Continuation.dfy` | re-driving agent runs and flow runs after a crash |
| `ExecutionUnits.dfy` | the status machine of execution units |
| `ArgsLedger.dfy` | deferred accounting of argument validation |
| `Jobs.dfy`, `Common.dfy`, `Strings.dfy`, `Sorting.dfy` | what these share: job payloads, options, concatenation, splitting and joining, integers as text, sorting |

Clocks, random ids, the keyed MAC, path canonicalization, compensators, registries and the
answers of the database are parameters. Where the code changes state in place the model is a
class whose methods are proved against a function of the old state; the properties of whole
runs are proved about that function.

Where the code does less than its documentation says, the model follows the code, a lemma
gives the input, and another says exactly when the promise holds:

- A timer of the in-process queue that fires on a full queue loses its job (`FireKeepsJob`).
  Leaving aside recovery puts that take the last room, that happens in some run exactly when
  there are two producers or more, because the check for room and the act are two critical
  sections (`TimersSafeIff`, `ProducersRace`); a recovery put can cause it with one producer
  (`RecoveryCanLoseATimer`).
- A job accepted once can be in two places. A worker's call adds a copy exactly when it is a
  delete of `fail` that comes too late for the lease it read (`FailRacesRecovery`), or a call
  that Redis executed, did not answer and is sent again: a push of stale recovery
  (`PushedTwice`), a dead letter (`LetteredTwice`), or a lease that was taken away meanwhile
  (`FiledTwice`). `CopiedExactly` is that condition, `CopiesBounded` the bound it gives, and
  without such a call the job is in exactly one place (`ExactlyOneCopy`).
- Stale recovery can take a lease within the timeout (`FreshLeaseTaken`): it goes by the age
  of the lease it scanned, which may have been filed again since. A lease that was not is
  never taken before its time (`FreshLeaseKept`, `TakenIsStaleOrRefiled`).
- Tool bodies exclude each other exactly when the gate takes the lock
  (`ExclusionExactlyUnderLock`).
- An effect whose caller dies, or fails to finalize, after its body landed can land again
  (`DeathLandsTwice`, `LeftBehindLandsAgain`); nothing else but an operator's reopening makes
  it land twice (`LandsOnceUnlessLeft`, `LandingsBounded`).
- An effect is reversed at most once exactly when undos do not overlap (`NeverTwiceIff`); n
  at once write at most n `reversed` rows (`ReversalsBounded`).
- Undo restores every world in which each effect has a left inverse when the rows were
  stamped in the order the effects happened (`InOrderRestores`), and only then: in any other
  order there is a world, a stack, that it does not restore (`RestoresIff`). Rows stamped in
  one instant are a case (`TiedStampsMayNotRestore`).
- A guest that declares a memory ceiling of zero bytes runs without the operator's ceiling,
  and only such a guest does (`MemoryCeilingInherited`).
- Root lists do not associate under two floors, though every other field does
  (`RootsDoNotAssociate`, `ClampAssociative`); the roots that make the difference are known
  exactly (`CombinedClampDropsIff`).
- The ceiling of a delegate stays inside the parent's grant exactly when the parent has one
  or the delegate declares nothing (`CeilingInsideParent`).
- The limit on a run's children holds exactly when dispatches do not overlap, because another
  dispatch may pass the guard before the first inserts (`LimitKeptIff`); n dispatchers exceed it by at most n - 1
  (`ForestBounded`). Depth and distinct agents hold however they race (`LinesBounded`).
- A re-drive starts at the segment that crashed exactly when that segment has a tool step; a
  bare WAIT is passed over (`ResumesAtFirstUnfinished`).
- A completed run reaches its unit only if the unit is executing (`FinalizeMovesIff`).
- Deferred counters equal direct ones exactly when no tool changed its mode
  (`DeferralExactIff`).

## Model

| member | source | states |
|---|---|---|
| RedisQueue.NoJobLost | AINDY/core/distributed_queue.py:476-859 | in every interleaving of any number of workers and clients, an accepted job id neither acked nor taken out of the dead letters is in the main list, the delayed set, the in-flight hash, the dead letters or a worker's hands, unless since its last acceptance a worker crashed, had a call fail or lost a reply while holding that very job |
| RedisQueue.PlacedKept | AINDY/core/distributed_queue.py:589-859 | each single step keeps every placed job placed, except the jobs it acks, takes from the dead letters or drops |
| RedisQueue.AcceptedPlaced | AINDY/core/distributed_queue.py:476-499 | a job counted as accepted by a capacity-checked enqueue is in the store at once |
| RedisQueue.RunKeyed | AINDY/core/distributed_queue.py:612-641 | in every reachable state each lease and each scanned lease is filed under the id inside its payload |
| RedisBounds.DeliveriesBounded | AINDY/core/distributed_queue.py:564-790 | over every run a job is delivered at most once per acceptance, per lease stale recovery removed and per push of recovery sent again, and removed leases are pushed back at most once each, not counting pushes sent again |
| RedisBounds.PopsInPushOrder | AINDY/core/distributed_queue.py:476-641 | over every run the payloads popped, followed by the main list, are the payloads pushed, in push order |
| RedisBounds.PendingBounded | AINDY/core/distributed_queue.py:476-499 | over every run queued plus delayed jobs never exceed the capacity by more than the jobs stale recovery pushed back |
| RedisCopies.CopiesBounded | AINDY/core/distributed_queue.py:476-859 | in every interleaving the copies of a job with payload, queued, delayed, in flight, in dead letters and in hands together, are at most its acceptances, the deletes of fail that came too late for the lease it had read, and the doubling calls sent again |
| RedisCopies.CopiedExactly | AINDY/core/distributed_queue.py:564-790 | a worker's call adds a copy of a job if and only if it is the HDEL of a fail whose HGET found the lease and which itself finds none, or a call sent again after Redis had executed it: a push of recovery, a dead letter with payload, or an HSET whose lease was taken away since |
| RedisCopies.CopyLeft | AINDY/core/distributed_queue.py:589-859 | in every interleaving a live job has a copy with its payload, unless a crash, a failed call, a lost reply or a fail that deletes a lease it did not read destroyed one |
| RedisCopies.ExactlyOneCopy | AINDY/core/distributed_queue.py:589-859 | without such a step, without a late delete and without a doubling call sent again, a live job accepted once is in exactly one place, with its payload |
| RedisLedger.CopiesConserved | AINDY/core/distributed_queue.py:476-859 | conservation: in every interleaving the copies of a job that are there, plus those acked in flight, taken out with a dead letter or destroyed by a named step, equal its acceptances plus late deletes plus doubling calls sent again |
| RedisLedger.GoneForGood | AINDY/core/distributed_queue.py:476-859 | once as many copies have left as ever came in, none is there and the job is not delivered again, whatever is called, until another comes in |
| RedisLedger.AckedIsDone | AINDY/core/distributed_queue.py:643-650 | a job accepted once and acked while in flight, without a late delete or a doubling call, has no copy left and is never delivered again |
| RedisLedger.AckTakesOneLease | AINDY/core/distributed_queue.py:643-650 | an ack removes the lease of that id and leaves every other lease, the list, the delayed set and the dead letters alone |
| RedisTimes.RecoveredWasStale | AINDY/core/distributed_queue.py:612-790 | in every run a lease carries the time its worker filed it, and a job that a recovery holds had a lease filed more than the timeout before the recovery's clock |
| RedisTimes.FreshLeaseKept | AINDY/core/distributed_queue.py:736-772 | a lease within the timeout is left alone as long as it is the one that was scanned |
| RedisTimes.TakenIsStaleOrRefiled | AINDY/core/distributed_queue.py:736-772 | a lease a recovery takes away is older than the timeout or was filed again since the scan |
| RedisTimes.PromotedWhenDue | AINDY/core/distributed_queue.py:473-483 | over every run nothing is promoted before a time some request delayed it to; fewer than a hundred promoted leave nothing due, and what is left is due no earlier |
| RedisTimes.BatchExists | AINDY/core/distributed_queue.py:475-482 | whatever is delayed, a promotion finds a batch, and an empty one only when nothing is due |
| RedisTimes.ScanExists | AINDY/core/distributed_queue.py:736-750 | whatever is in flight, a scan lists it |
| RedisTimes.ScannedOnce | AINDY/core/distributed_queue.py:736-750 | and lists every lease exactly once, with its entry |
| RedisRaces.FailAlone | AINDY/core/distributed_queue.py:652-687 | the three calls of fail with no other step in between remove the lease and put one dead letter with its payload in front, and change nothing else |
| RedisRaces.DequeueAlone | AINDY/core/distributed_queue.py:612-641 | dequeue with no other step in between takes the head of the list, files its lease under the time given and changes nothing else |
| RedisRaces.RemoveAlone | AINDY/core/distributed_queue.py:825-849 | remove_dead_letter with no other step in between takes out the first letter of that id and nothing else, and leaves the worker free |
| RedisRaces.FailRacesRecovery | AINDY/core/distributed_queue.py:652-790 | for every payload, capacity and timeout, a run from the empty store in which stale recovery removes the lease between fail's read and delete, after which the job accepted once is both on the main list and a dead letter |
| RedisRaces.PushedTwice | AINDY/core/distributed_queue.py:564-790 | a run from the empty store in which the push of recovery is executed, not answered and sent again: accepted once, no late delete, and queued twice |
| RedisRaces.LetteredTwice | AINDY/core/distributed_queue.py:564-687 | a run in which the push of fail is sent again: accepted once, two dead letters with its payload |
| RedisRaces.FiledTwice | AINDY/core/distributed_queue.py:564-790 | a run in which the lease is filed, taken away by recovery and filed again: accepted once, queued and in flight |
| RedisRaces.FreshLeaseTaken | AINDY/core/distributed_queue.py:736-772 | a run in which a lease of age zero is taken away, because it was filed again between scan and delete |
| RedisRaces.LetterTakenTwice | AINDY/core/distributed_queue.py:820-845 | a removal sent again takes a second letter that is the same |
| MemoryQueue.ExactlyOnePlace | AINDY/core/distributed_queue.py:917-1076 | in every interleaving in which no id is accepted while it is live, each live job is in exactly one of queue, timers, in-flight, dead letters with payload and a thread between two critical sections, and every other id is in none; a job whose timer fired on a full queue is not live any more |
| MemoryTimes.RecoversExactlyStale | AINDY/core/distributed_queue.py:1008-1023 | in every run a recovery takes a lease exactly when it was filed more than the timeout before |
| MemoryQueue.PendingBounded | AINDY/core/distributed_queue.py:917-1002 | in every interleaving of n producers queued jobs, timers and admissions exceed the capacity by at most n - 1 and the recovery puts that left no room, and the delayed counter counts the timers |
| MemoryQueue.TimerFindsRoom | AINDY/core/distributed_queue.py:975-1002 | with one producer and no such recovery put a timer that fires never meets a full queue |
| MemoryRaces.TimersSafeIff | AINDY/core/distributed_queue.py:917-1002 | in every run without such recovery puts no timer loses its job, if and only if there is at most one producer |
| MemoryRaces.ProducersRace | AINDY/core/distributed_queue.py:917-1002 | for every capacity and every n of at least two, a run from the empty backend with distinct ids and no recovery in which two producers find the last place and a timer loses its job |
| MemoryRaces.RecoveryCanLoseATimer | AINDY/core/distributed_queue.py:975-1023 | a run from the empty backend with one producer in which a recovery put fills the queue and a firing timer loses its job |
| MemoryQueue.FireKeepsJob | AINDY/core/distributed_queue.py:981-988 | a timer that fires keeps its job if and only if the queue has room |
| MemoryQueue.PopsInPushOrder | AINDY/core/distributed_queue.py:929-948 | over every run dequeue order is push order |
| MemoryBackend.RemoveAllStale | AINDY/core/distributed_queue.py:1008-1023 | deleting the stale keys one by one leaves exactly the live leases, in their order |
| MemoryBackend.Backend.constructor | AINDY/core/distributed_queue.py:880-903 | a new backend is the initial state of every run |
| MemoryBackend.Backend.EnqueueJob | AINDY/core/distributed_queue.py:917-937 | an undisturbed call is the steps count, check and act in a row; it appends the payload and reports acceptance exactly when queued plus delayed is below capacity |
| MemoryBackend.Backend.EnqueueJobDelayed | AINDY/core/distributed_queue.py:917-1002 | an undisturbed call is the steps count, check, count up and start in a row, under the same condition |
| MemoryBackend.Backend.TimerFires | AINDY/core/distributed_queue.py:981-988 | the callback is fire and count down: its job is put exactly when the queue has room, and the counter goes down either way |
| MemoryBackend.Backend.DequeueJob | AINDY/core/distributed_queue.py:939-948 | takes the head of the queue, then files its lease, or reports nothing |
| MemoryBackend.Backend.AckJob | AINDY/core/distributed_queue.py:950-955 | removes the lease of that id and nothing else |
| MemoryBackend.Backend.FailJob | AINDY/core/distributed_queue.py:957-971 | takes the lease, if there is one, then appends a dead letter |
| MemoryBackend.Backend.RequeueStaleJobs | AINDY/core/distributed_queue.py:1008-1023 | the loop takes every lease older than the timeout, in order, and puts them back while there is room; the rest stays in the blocked call |
| MemoryBackend.Backend.RemoveDeadLetter | AINDY/core/distributed_queue.py:1058-1068 | removes the first dead letter of that id and reports whether there was one |
| MemoryBackend.Backend.DrainDeadLetters | AINDY/core/distributed_queue.py:1070-1076 | empties the dead letters and reports how many there were |
| EffectGate.ExclusionExactlyUnderLock | AINDY/agents/tool_registry.py:1463-1559 | tool bodies never overlap in any clean run of any number of callers if and only if the gate takes the advisory lock |
| EffectGate.ExclusiveUnderLock | AINDY/kernel/effect_ledger.py:248-284 | the same, with the clean runs spelled out: nobody dies in a call, every finalization is stored, and an exactly-once caller gets its lock and its row |
| EffectGate.RaceWithoutLock | AINDY/kernel/effect_ledger.py:292-356 | without the lock two callers read one failed row, both reclaim it and both run |
| EffectGate.NoStartOnceSettled | AINDY/agents/tool_registry.py:1463-1559 | once the row is success or unknown no body starts |
| EffectGate.RepliesAgree | AINDY/kernel/effect_ledger.py:292-469 | over every clean run under the lock a success is final, and every caller that ran it or was replayed it was told its very cached result |
| EffectGate.RepliesWereSeen | AINDY/kernel/effect_ledger.py:292-356 | in every run, clean or not, a caller told a cached result or a held detail looked at the row with that very result or detail |
| EffectGate.SettledIsTold | AINDY/agents/tool_registry.py:1463-1559 | a caller that looks at a success or unknown row is told its cached result or detail, whatever the others do before it leaves, unless its process dies |
| EffectGate.RowsRecordWhatHappened | AINDY/kernel/effect_ledger.py:292-469 | in every run, clean or not: a row says success only if some body returned that very cached result or an operator declared the effect landed, and unknown only with the detail of a body that ended unobserved |
| EffectGate.FailureLeavesRowOpen | AINDY/agents/tool_registry.py:1700-1719 | after a body that broke or did not run is finalized, whoever looks next claims the row and may run |
| EffectGate.LandingClosesRow | AINDY/kernel/effect_ledger.py:292-356 | after a body that landed is finalized, whoever looks next is told and cannot claim |
| EffectGate.ReopenedRowIsOpen | AINDY/kernel/effect_ledger.py:524-556 | an operator who declares an unknown effect not landed opens the row again |
| EffectGate.LostInsertLooksAgain | AINDY/kernel/effect_ledger.py:400-446 | a caller that lost the insert looks again and is told by the row it finds |
| EffectGate.EffectLandsAtMostOnce | AINDY/agents/tool_registry.py:1612-1719 | in every clean run under the lock at most one body ends in success or unobserved, unless an operator reopened an unknown effect |
| EffectDeaths.LandingsBounded | AINDY/kernel/effect_ledger.py:292-356 | in every run under the lock, with any deaths, failed finalizations and reopenings, in which an EXACTLY_ONCE caller gets its lock and its row, a body lands at most once, plus once per caller let on over the pending row of a landed effect, plus once per reopening |
| EffectDeaths.LandsOnceUnlessLeft | AINDY/agents/tool_registry.py:1463-1719 | in such a run, if no caller dies or fails to finalize between landing and finalizing, the effect lands at most once, plus once per reopening |
| EffectDeaths.LeftBehindLandsAgain | AINDY/kernel/effect_ledger.py:292-356 | from every reachable state in which a landed effect is only a pending row and nobody is inside, the next caller that finds it stale can land it again |
| EffectDeaths.DeathLandsTwice | AINDY/kernel/effect_ledger.py:329-355 | under every locking configuration a run from the start with one death lands the effect twice |
| EffectGate.ExitLeavesNothing | AINDY/agents/tool_registry.py:941-970 | a caller that left holds no lock, and a row that is still pending was reserved by another caller that is inside |
| EffectGate.RunInv | AINDY/agents/tool_registry.py:1303-1323 | in every clean run under the lock, a pending row belongs to the lock holder, and exactly the callers past the lock stage hold it |
| GateCall.Gate.ExecuteTool | AINDY/agents/tool_registry.py:1463-1719 | one call plays the state machine's steps from entry to exit, leaves the lock as it found it, touches the row only if it ran, and then leaves it as its outcome says: success with the result if it can be stored, unknown with the reason, or failed |
| Json.ResolvePath | AINDY/core/result_path.py:22-34 | the loop returns exactly the value that descending the dotted path reaches, and nothing when a part is missing |
| Json.ChildIff | AINDY/core/result_path.py:22-34 | one segment finds exactly the first entry of that name in an object, or the element at the index it reads as, counted from the end when negative |
| Json.PathResolves | AINDY/core/result_path.py:22-34 | the dotted text of any way of keys and indices through a value resolves to where the way ends |
| Json.PathWellFormedIff | AINDY/core/result_path.py:17-19 | a path is well formed when it is a text that is not empty, starts with no dot and has a part behind every dot |
| Strings.ParseDecimal | AINDY/core/result_path.py:22-34 | reading a printed integer gives it back |
| Strings.ParseIgnoresBlanks | AINDY/core/result_path.py:22-34 | white space around an index does not matter |
| Strings.UnderscoreSkipped | AINDY/core/result_path.py:22-34 | one underscore between digits of an index is passed over |
| ResultShapes.ResultPathError | AINDY/agents/step_references.py:117-154 | the loop over the parts reports the first part that cannot exist under the declared shape |
| ResultShapes.PathCheckExact | AINDY/agents/step_references.py:104-154 | a path is accepted exactly when some value conforming to the declared shape contains it, negative indices included |
| ResultShapes.RefusedPathIsMissing | AINDY/agents/step_references.py:104-154 | a refused path is missing from every conforming value |
| ResultShapes.AcceptedPathExists | AINDY/agents/step_references.py:104-154 | for an accepted path a conforming value that contains it |
| StepReferences.ContainsIffWalked | AINDY/agents/step_references.py:67-101 | contains_reference is true exactly when the walker yields something |
| StepReferences.ProblemsAreTheWalkers | AINDY/agents/step_references.py:92-237 | resolving reports exactly the problems of the references the walker yields, in that order |
| StepReferences.ResolvesIffEveryReferenceDoes | AINDY/agents/step_references.py:194-237 | resolving reports nothing exactly when every reference is well formed and resolves |
| StepReferences.ReferencesReplaced | AINDY/agents/step_references.py:194-237 | each reference that resolves is replaced, whole and once, by its looked-up value, which is not expanded again |
| StepReferences.LiteralsUnchanged | AINDY/agents/step_references.py:194-237 | outside references the output has the input's values, keys and lengths |
| StepReferences.ReferenceFreeUnchanged | AINDY/agents/step_references.py:194-237 | arguments without references come back unchanged and without problems |
| PlanReferences.ValidatePlanReferences | AINDY/agents/step_references.py:157-191 | the loop over the plan reports, in order, the errors of every reference of every tool step |
| PlanReferences.ValidIff | AINDY/agents/step_references.py:157-191 | a plan is accepted exactly when each reference of each tool step names an earlier tool step and its path, if any, exists under the shape that step's tool declared |
| PlanReferences.DeclaredIff | AINDY/agents/step_references.py:183-184 | a tool declares a shape exactly when it has one that is not empty, each kind of empty value by name |
| PlanReferences.StepReads | AINDY/runtime/agent_plan_compiler.py:166-168 | arguments, tool and WAIT of a step from its own fields |
| PlanReferences.ToolStepsExactly | AINDY/runtime/agent_plan_compiler.py:255-300 | the steps that take an ordinal are the object steps that are no WAITs |
| PlanReferences.RedriveRecomputes | AINDY/agents/step_references.py:157-237 | in a validated plan the resolved arguments, the problems and the action id of tool step k are the same for any two lookups that agree below k, missing results included |
| PlanReferences.RedriveFromResults | AINDY/agents/step_references.py:194-256 | so a re-drive of step k over tables built from the same results before it, with whatever was recorded since, has the same action id |
| PlanReferences.StepScopesDiffer | AINDY/agents/tool_registry.py:1203-1213 | two different steps of one run never share an effect scope |
| Strings.DecimalSigned | AINDY/agents/tool_registry.py:1203-1213 | the text of a step number starts with a minus exactly below zero and with a zero exactly at zero |
| PlanReferences.ScopesIdentify | AINDY/agents/tool_registry.py:1203-1213 | when run ids contain no '#', a scope identifies both run and step |
| PlanReferences.LookupFromStepResults | AINDY/agents/step_references.py:250-256 | the table holds a step exactly when an entry names it, and then the last such entry |
| PlanReferences.IndexRead | AINDY/agents/step_references.py:250-256 | an entry is for the step its step_index says, true and false being one and zero |
| PlanReferences.LookupRead | AINDY/agents/step_references.py:250-256 | a lookup carries the entry's status text and result |
| Compensation.RecordsAreMatchingNewestFirst | AINDY/core/effect_compensation.py:156-180 | the query answers exactly the run's successful effects, newest first |
| Compensation.RecordedExactly | AINDY/core/effect_compensation.py:171-180 | a record is found exactly when it is in the table, of that unit, successful and not an undo |
| Compensation.OthersIgnored | AINDY/core/effect_compensation.py:171-180 | rows of other units, failed rows and undos anywhere in the table change nothing |
| Compensation.UndoTouchesOwn | AINDY/core/effect_compensation.py:171-242 | every audit row an undo writes and every effect it lists is a successful one of that unit |
| UndoRestoring.UndoRestores | AINDY/core/effect_compensation.py:171-236 | in every world, one undo restores the state from before the first effect, and reports all as reversed, newest first, when rows were stamped in the order of the effects and each has a left-inverse compensator |
| UndoRestoring.InOrderRestores | AINDY/core/effect_compensation.py:171-236 | for worlds of every type, every registry and every effect function with left inverses: rows stamped in the order of the effects are undone to the state before the first |
| UndoRestoring.RestoresIff | AINDY/core/effect_compensation.py:171-236 | over worlds that are stacks, undo restores every one of them, for every registry with left inverses, if and only if the rows were stamped in the order of the effects; ties and inversions are all shut out |
| UndoRestoring.TiedStampsMayNotRestore | AINDY/core/effect_compensation.py:171-180 | two effects stamped in one instant whose ids fall the other way are reversed oldest first, and the state is not restored |
| Compensation.OnlyReversedChangeTheWorld | AINDY/core/effect_compensation.py:214-236 | the state an undo leaves is made by the compensators it reports as reversed and nothing else; one that raised contributes nothing |
| Compensation.EveryRecordReportedOnce | AINDY/core/effect_compensation.py:181-242 | every record lands in exactly one list of the summary |
| Compensation.EveryRecordInReportOnce | AINDY/core/effect_compensation.py:187-197 | a report-only call lists every record exactly once, as already reversed, reversible or irreversible |
| Compensation.SummaryAgreesWithRows | AINDY/core/effect_compensation.py:181-242 | the reversed, irreversible and failed lists are the audit rows of that status, in the same order |
| Compensation.ListedWhere | AINDY/core/effect_compensation.py:181-242 | an effect is listed as already reversed, irreversible or tried by its id and the declared compensators alone |
| Compensation.FailedExactlyWhenRaised | AINDY/core/effect_compensation.py:214-236 | a compensator that never raises leaves nothing failed, one that always raises leaves nothing reversed |
| Compensation.ReportPredictsUndo | AINDY/core/effect_compensation.py:181-213 | a report names, in order, exactly the effects whose compensator the next undo runs |
| Compensation.ReversedAtMostOnce | AINDY/core/effect_compensation.py:106-126 | over every sequence of undo calls one after the other an effect gets at most one reversed row |
| UndoRaces.ReversalsBounded | AINDY/core/effect_compensation.py:171-242 | with n undos that read before and commit after each other in any order, or are rolled back, an effect gets at most n reversed rows |
| UndoRaces.NeverTwiceIff | AINDY/core/effect_compensation.py:171-242 | an effect gets at most one reversed row in every run if and only if at most one undo is under way at a time |
| UndoRaces.SerialIsOneUndoer | AINDY/core/effect_compensation.py:129-242 | a single undoer leaves the audit log of calls one after the other |
| Compensation.AuditGrows | AINDY/core/effect_compensation.py:81-103 | over any sequence of undos the audit log only grows |
| Compensation.NextUndoRuns | AINDY/core/effect_compensation.py:106-213 | the next undo runs an effect's compensator exactly when one is declared and no reversed row exists, so a failed effect is retried and a reversed one never |
| Compensation.RowsPerEffect | AINDY/core/effect_compensation.py:81-236 | one undo adds at most one audit row of each status for an effect, and none for an effect reversed before |
| Compensation.UndoEngine.UndoRunEffects | AINDY/core/effect_compensation.py:129-242 | the loop leaves the state, the audit log and the summary of undoing the run's records in order; without a unit, or for a report, state and log are untouched |
| Environment.ClampToFloor | AINDY/core/execution_environment.py:547-605 | computes the clamp and, in field order, the names of the fields the caller tried to widen |
| Environment.WidenedExactly | AINDY/core/execution_environment.py:491-605 | a field is named exactly when the declared value exceeded the floor's; the roots when a mode that reads them meets a floor that bounds them and some named root lies inside none of the floor's |
| Environment.ClampedModes | AINDY/core/execution_environment.py:97-109 | each clamped mode by name: open or host only if both are, none if either is, scoped or allowlist in between; subprocess only if both |
| Environment.ClampedAssurance | AINDY/core/execution_environment.py:85-95 | the clamped minimum is the stronger of the two by name, and an unrecognised one never wins over a known one |
| Environment.ClampedCeilings | AINDY/core/execution_environment.py:497-504 | a clamped ceiling is one of the two and keeps out exactly what either keeps out |
| Environment.WidenedPairs | AINDY/core/execution_environment.py:491-605 | the pairs of declared and floor mode that are named as widened, one by one |
| Environment.WidenedCeilings | AINDY/core/execution_environment.py:497-504 | a ceiling is named exactly when a declared one lets something through that the floor keeps out |
| Environment.WidenedInOrder | AINDY/core/execution_environment.py:547-605 | widened fields are named in the order of the fields, each once |
| Environment.RootsWidenIff | AINDY/core/execution_environment.py:517-575 | comparing the lengths of the lists, as the code does, finds exactly that |
| Environment.ClampIsGreatestLowerBound | AINDY/core/execution_environment.py:491-605 | on every axis but the root lists the clamp is the greatest spec below both the declared one and the floor |
| Environment.LeqIff | AINDY/core/execution_environment.py:85-109 | the order this is stated in, by name: which modes, ceilings and assurance levels are above which |
| Environment.ClampMonotone | AINDY/core/execution_environment.py:547-605 | a narrower request under a narrower floor never gets more |
| Environment.ClampAssociative | AINDY/core/execution_environment.py:547-605 | clamping to two floors is clamping to their combination, and clamping again changes nothing |
| Environment.SurvivingRootsInsideFloor | AINDY/core/execution_environment.py:517-544 | under a floor below host every root that a readable mode keeps lies inside a root of the floor |
| Environment.CombinedFloorKeepsFewer | AINDY/core/execution_environment.py:517-544 | a root kept under the combined floor is kept under the two floors in turn |
| Environment.CombinedFloorDropsIff | AINDY/core/execution_environment.py:517-544 | a root is kept by two floors in turn and dropped by their combination exactly when both cover it and no root of the first that contains it is covered by the second |
| Environment.CombinedClampDropsIff | AINDY/core/execution_environment.py:517-605 | the same for whole specs in a mode that reads its roots, unbounded floors included |
| Environment.RootsDoNotAssociate | AINDY/core/execution_environment.py:517-544 | such a root exists |
| Environment.GuestConfined | AINDY/core/execution_environment.py:318-485 | whatever a guest declares, its VM sees nothing or its scratch root alone, with network, subprocess and environment off |
| Environment.VmGetsExactly | AINDY/core/execution_environment.py:436-485 | what the VM is let do by each mode: all paths, none, read-only, network, environment, subprocess |
| Environment.VmSeesExactly | AINDY/core/execution_environment.py:436-485 | in a mode that reads its roots the VM sees the named roots, or the scratch root when none is named |
| Environment.VmMemoryExactly | AINDY/core/execution_environment.py:436-485 | the VM has a memory ceiling exactly when one above zero is declared, and it is that many bytes |
| Environment.MemoryCeilingInherited | AINDY/core/execution_environment.py:330-485 | the operator's memory ceiling binds the VM exactly when the guest did not declare zero bytes |
| Environment.ZeroDeclaredLosesTheCeiling | AINDY/core/execution_environment.py:436-485 | a guest that declares zero bytes gets a VM without a memory ceiling |
| Environment.AcceptedExactlyWhenMet | AINDY/core/execution_environment.py:681-713 | a host is accepted exactly when it meets the declared and the floor's minimum assurance, and an unrecognised host meets no recognised one; what it runs under is the declared spec clamped to the floor |
| Capabilities.PlanRequiredCapabilities | AINDY/agents/capability_service.py:128-138 | the loop computes the sorted set of required capabilities, or nothing as soon as a tool has none |
| Capabilities.RequiredExactly | AINDY/agents/capability_service.py:73-138 | a capability is required exactly when every planned tool has one and it is a defined capability of the agent type or of a planned tool |
| Capabilities.AgentCapsExactly | AINDY/agents/capability_service.py:85-106 | an agent type has the defined capabilities of its own list, or of the default type's when it has none |
| Capabilities.GrantableIff | AINDY/agents/capability_service.py:425-461 | a tool is grantable exactly when it is planned and every planned tool is registered and, unless approved by hand, low risk and on the user's list |
| Capabilities.GrantsNormal | AINDY/agents/capability_service.py:464-513 | a mint writes both lists sorted, without repetitions, registered and defined |
| Capabilities.GrantsIff | AINDY/agents/capability_service.py:490-518 | a mint succeeds exactly when the plan is empty or its tools are all grantable, and some required capability lies inside the ceiling |
| Capabilities.GrantsAreLeast | AINDY/agents/capability_service.py:490-518 | a granted capability is exactly one that is required and inside the ceiling; a granted tool is planned, registered and, in auto mode, low risk and listed |
| Capabilities.AutoGrantsAreLowRisk | AINDY/agents/capability_service.py:425-513 | outside manual approval every planned tool of a grant is on the user's list and registered as low risk |
| Capabilities.ToolExercisableIff | AINDY/agents/capability_service.py:490-513 | of the granted tools, those with all their capabilities granted are the planned ones whose capabilities all lie inside the ceiling |
| Tokens.MintedValidates | AINDY/agents/capability_service.py:464-704 | a minted token validates for its run and user, with exactly its grants, until its expiry and not after, while the registries are unchanged and its key is in the grace window |
| Tokens.RefreshedValidates | AINDY/agents/capability_service.py:586-704 | a refresh of such a token keeps run, user, mode and grants, validates with them until its own expiry and not after, and can be refreshed in turn |
| Tokens.RefreshIff | AINDY/agents/capability_service.py:586-633 | a refresh is refused exactly for a token without run or user, and otherwise reissued for a day under its own mode, manual when it has none |
| Tokens.MintedRenewable | AINDY/agents/capability_service.py:464-633 | a minted token for a run and a user in manual or auto mode is one a refresh can renew |
| Tokens.PayloadInjective | AINDY/agents/capability_service.py:141-163 | the serialization of claims whose fields contain no vertical bar and whose names are non-empty and contain no comma or vertical bar determines them up to the order of the lists |
| Tokens.ValidatedClaimsAreIssued | AINDY/agents/capability_service.py:193-253 | with a collision-free MAC, a token that validates under the MAC of an issued one makes the issued claims, under a key still in the ring |
| Tokens.ValidToken | AINDY/agents/capability_service.py:636-704 | what every validated token satisfies: its run, its user, its time, a MAC under a key of the ring, and normalized lists |
| Tokens.AcceptedIff | AINDY/agents/capability_service.py:811-880 | a tool call is accepted exactly when the run has not ended, the token validates, the tool is granted and mapped, and every capability of the tool and of the agent type is granted |
| Tokens.MintedAdmits | AINDY/agents/capability_service.py:464-880 | a minted token admits exactly the planned tools whose capabilities lie inside the ceiling, provided the agent type's own were granted |
| Tokens.MintedAdmitsThePlan | AINDY/agents/capability_service.py:464-880 | without a ceiling a minted token admits exactly the tools of its plan |
| Tokens.AcceptedMeansGranted | AINDY/agents/capability_service.py:841-867 | every capability an accepted tool needs is on the token itself |
| Lineage.LoadParentChain | AINDY/agents/runtime_guardrails.py:238-259 | terminates on every table, cyclic ones included; returns the one line of ancestors from its top to the run, and refuses exactly when there is none |
| Lineage.AncestryUnique | AINDY/agents/runtime_guardrails.py:238-259 | a run has at most one line of ancestors |
| Lineage.AncestryDistinct | AINDY/agents/runtime_guardrails.py:238-259 | no run occurs twice on it |
| Lineage.EnforceReplayGuardrails | AINDY/agents/runtime_guardrails.py:73-103 | a replay is admitted exactly when the lineage has a beginning and fewer replays than the limit, deleted predecessors counted; a cycle is only reported when there is one |
| Forest.TreeBounded | AINDY/agents/runtime_guardrails.py:106-179 | in a table of bounded depth whose runs have at most B children, a tree has at most 1 + B + ... + B^D runs |
| Forest.GeometricSum | AINDY/agents/runtime_guardrails.py:106-179 | that sum is (B^(D+1) - 1) / (B - 1) |
| Forest.ShapedGrows | AINDY/agents/runtime_guardrails.py:106-179 | hanging a new run where the guard allows it keeps depth and agents within the limits on every line |
| Forest.GuardStays | AINDY/agents/runtime_guardrails.py:106-179 | what the guard found about depth and agents stays true while other runs come in |
| Delegation.EnforceDelegationGuardrails | AINDY/agents/runtime_guardrails.py:106-179 | the verdict is the guard's decision on the run's one line of ancestors, and a cycle when there is none |
| Delegation.AdmittedIff | AINDY/agents/runtime_guardrails.py:106-179 | the guard admits exactly a parent with a beginning, room in depth and breadth unless the limit is off, an agent that is new on the line, and no active child of that agent and trace |
| Delegation.LinesBounded | AINDY/agents/agent_coordinator.py:332-436 | in every table that any number of racing dispatchers can build, every run hangs below a root, at most D deep, with no agent repeated on the way |
| Delegation.ForestBounded | AINDY/agents/agent_coordinator.py:332-436 | with n dispatchers no run has more than B = C + n - 1 children and a tree has at most 1 + B + ... + B^D runs; with dispatches one after the other B is C |
| DelegationRaces.LimitKeptIff | AINDY/agents/agent_coordinator.py:353-390 | the limit on children holds in every run if and only if there is at most one dispatcher at a time |
| Delegation.CeilingInsideParent | AINDY/agents/agent_coordinator.py:28-57 | the ceiling is inside the parent's grant exactly when the parent has one or the delegate declares nothing, with an input where it is not |
| Delegation.CeilingExactly | AINDY/agents/agent_coordinator.py:28-57 | membership in the ceiling: in both sets when both have something, otherwise in the one that has |
| Delegation.ChildCaps | AINDY/agents/agent_coordinator.py:396-413 | a delegated child's token grants something, and nothing its parent's token does not |
| Delegation.AcceptedIsGrantedAbove | AINDY/agents/agent_coordinator.py:332-436 | along every line of runs that all hold tokens, refreshed or not, a capability needed by a tool the check accepts for a run was granted to every ancestor |
| Delegation.GrantsShrink | AINDY/agents/agent_coordinator.py:28-57 | along every such line granted capabilities only shrink |
| DelegationGrants.GrantsStay | AINDY/agents/agent_coordinator.py:332-436 | whatever happens, a run that holds a token goes on holding one with the same grant |
| DelegationGrants.ApprovedIsGranted | AINDY/agents/capability_service.py:464-583 | an approval takes a pending run to approved with a day's token for what its plan is granted by hand, or changes nothing |
| DelegationGrants.CreatedIsGranted | AINDY/agents/capability_service.py:464-583 | a run created with a token was granted it automatically |
| DelegationGrants.ChildIsGranted | AINDY/agents/agent_coordinator.py:367-413 | a child takes plan, user and trace from its parent and is granted by hand inside the delegate's ceiling |
| DelegationGrants.DispatchAdds | AINDY/agents/agent_coordinator.py:372-416 | a dispatch adds the child, marks the parent delegated and leaves every other run alone |
| DelegationGrants.RefreshedInPlace | AINDY/agents/capability_service.py:586-633 | a refresh reissues the token with its grant on a new clock, or changes nothing |
| Delegation.ReachableInv | AINDY/agents/agent_coordinator.py:332-436 | shape, grants, the guards already passed and the breadth bound hold after every sequence of creations, approvals, guards, inserts, refreshes and status changes |
| Delegation.Coordinator.DispatchDelegatedRun | AINDY/agents/agent_coordinator.py:332-436 | an undisturbed dispatch is guard and insert in a row: it adds the child with its clamped token and marks the parent delegated exactly when the guard admits it, and otherwise leaves the table alone and says why |
| Continuation.CountCompletedSegments | AINDY/core/agent_continuation.py:103-122 | the loop returns the largest prefix of segments whose steps are all completed |
| Continuation.LargestIff | AINDY/core/agent_continuation.py:103-122 | that is exactly the prefix after which the first unfinished step comes |
| Continuation.ResumesAtFirstUnfinished | AINDY/core/agent_continuation.py:148-183 | a re-drive repeats no finished segment and passes over no tool step; it starts at the segment that crashed exactly when that one has a tool step |
| Continuation.RedrivesBounded | AINDY/core/agent_continuation.py:148-230 | over every sequence of restarts, finished segments, waits and parks a run is re-driven at most the maximum times one plus the finished segments plus the parks, and finishes each segment at most once |
| Continuation.RedrivesBoundedByEvents | AINDY/core/agent_continuation.py:148-230 | the same bound from the number of park events alone |
| Continuation.CrashLoopEnds | AINDY/core/agent_continuation.py:161-230 | a run that only crashes is re-driven exactly while attempts are left, and ended by the restart after that |
| Continuation.PlanRunsThrough | AINDY/core/agent_continuation.py:103-183 | a run that finishes each segment and is resumed after each WAIT does every step of the plan once and ends exactly with the last segment |
| Continuation.ParkKeepsThePlace | AINDY/core/agent_continuation.py:148-183 | a park keeps the place and gives the attempts back; no restart touches a parked run and a resume puts it where it was |
| Continuation.StoppedForGood | AINDY/core/agent_continuation.py:148-230 | whatever follows, a stopped run is never re-driven |
| Continuation.AgentRow.ContinueCrashed | AINDY/core/agent_continuation.py:148-183 | one restart re-drives, ends or leaves the run as the state machine says, from the counted segment |
| Continuation.DispatchesBounded | AINDY/core/flow_continuation.py:78-156 | a flow is dispatched again at most the maximum times one plus the snapshots that lost the counter, so at most the maximum while it is kept |
| Continuation.DispatchesBoundedByEvents | AINDY/core/flow_continuation.py:78-156 | the same bound from the snapshots written without the counter alone |
| Continuation.FinishedForGood | AINDY/core/flow_continuation.py:103-156 | whatever follows, a finished flow is never dispatched again |
| Continuation.LostCounterNeverStops | AINDY/core/flow_continuation.py:103-142 | with a counter lost before every restart the dispatches have no bound |
| Continuation.FlowRow.TryContinue | AINDY/core/flow_continuation.py:78-180 | handled exactly when dispatched or dead-lettered; the counter goes up exactly when dispatched |
| ExecutionUnits.LaterFollowsEarlier | AINDY/core/execution_unit_service.py:28-263 | over every sequence of calls completed, failed and refused units keep their status and completion time, no unit becomes refused, and one that came to completed or failed has its completion time |
| ExecutionUnits.ExecutedBefore | AINDY/core/execution_unit_service.py:28-40 | over every sequence of calls nothing waits or completes that was not executing before |
| ExecutionUnits.FinalizedAtMostOnce | AINDY/core/execution_unit_service.py:111-146 | over every sequence of calls at most one finalize of a unit reports having moved it |
| ExecutionUnits.FinalizeMovesIff | AINDY/core/execution_unit_service.py:111-146 | a run's end moves its unit exactly when the unit is executing, or has not ended and the run did not complete; a waiting unit of a completed run stays |
| ExecutionUnits.FinalizedStatus | AINDY/core/execution_unit_service.py:111-146 | the status a run's end leaves its unit with, by the literal statuses of both |
| ExecutionUnits.UpdateMovesIff | AINDY/core/execution_unit_service.py:28-177 | the eleven moves a status update makes, one by one, and the unit after it |
| ExecutionUnits.GateOpens | AINDY/core/execution_gate.py:373-417 | the gate opens an executing unit, takes its own pending, waiting or resumed one to executing, and leaves a foreign or ended one alone |
| ExecutionUnits.RecordedAs | AINDY/core/execution_unit_service.py:53-110 | a new unit has the status asked for and a refusal is a unit of its own; a unit that is there is left alone |
| ExecutionUnits.SecondResumeIsIdle | AINDY/core/execution_unit_service.py:179-232 | after a resume that succeeded, a later one succeeds and changes nothing until the unit waits again or ends |
| ExecutionUnits.ResumedNow | AINDY/core/execution_unit_service.py:179-232 | a resume that acts leaves the unit executing without wait condition |
| ExecutionUnits.Service.UpdateStatus | AINDY/core/execution_unit_service.py:148-177 | moves the unit along the transition table and sets the completion time at an end, or changes nothing and says so |
| ExecutionUnits.Service.FinalizeForRunStatus | AINDY/core/execution_unit_service.py:111-146 | maps the run's end to the unit's and moves a unit that has not ended |
| ExecutionUnits.Service.ResumeExecutionUnit | AINDY/core/execution_unit_service.py:179-232 | the two transitions and the cleared wait condition, or the idle success |
| ExecutionUnits.Service.SetWaitCondition | AINDY/core/execution_unit_service.py:234-263 | changes the wait condition and no status |
| ExecutionUnits.Service.RequireExecutionUnit | AINDY/core/execution_gate.py:373-417 | opens a new unit executing, moves an existing one of the same user there if it may, and refuses another user's |
| ArgsLedger.DeferralExactIff | AINDY/agents/tool_registry.py:1093-1184 | recording and applying later gives every counter its direct value exactly when no tool changed mode in between |
| ArgsLedger.ModeConstantIff | AINDY/agents/tool_registry.py:1141-1184 | the condition in the words of the observations: each tool kept one mode throughout and it was not the empty one |
| ArgsLedger.RecordedExactly | AINDY/agents/tool_registry.py:1109-1119 | a tool has a row exactly when it was observed, with the exact number of each outcome, its last mode, the first errors up to the cap and the number of the others |
| ArgsLedger.ErrorsAddUp | AINDY/agents/tool_registry.py:1109-1119 | kept plus dropped errors are the errors observed, the kept ones are the first, and no more than the cap |
| ArgsLedger.Ledger.Record | AINDY/agents/tool_registry.py:1109-1119 | after it the ledger is the record of one observation more |
| ArgsLedger.ApplyDeferred | AINDY/agents/tool_registry.py:1155-1184 | the loop adds to each counter exactly the ledger's share and counts the tools |
| ArgsLedger.RowCountedUnder | AINDY/agents/tool_registry.py:1155-1184 | a shipped row adds each outcome to the counter of its own mode, of "off" when it has none, and to no other |
| ArgsLedger.Observer.Observe | AINDY/agents/tool_registry.py:1141-1152 | exactly one of the ledger and the counters gets the observation |
| ArgsLedger.Observer.CloseAndApply | AINDY/agents/tool_registry.py:1130-1184 | after closing, the counters are those of direct counting if no tool changed mode |

## Left out

- Malformed raw strings in Redis lists and hashes, which the code logs and skips, and the limit of three attempts and the waits of a call that is sent again.
- The circuit breaker of the Redis backend, queue metrics, health snapshots and the choice of backend: small members without a property across calls.
- The death of a thread of the in-memory backend, and the list of timers it keeps only so that they are not collected.
- MemoryBackend.Backend.RequeueStaleJobs: is the one recovery of its object, so it starts with no put of its own pending; several at once are runs of the state machine.
- Effect rows with status partial, the retention clean-up of old rows, and a failure of the egress decision before the gate's try block.
- GateCall.Gate.ExecuteTool: takes what the database and the tool answer during the call as a parameter; other callers' steps between its own are covered by the state machine, not by the method.
- The required list of a declared result shape, which the path check does not read; digits and spaces outside ASCII in path indices; tool names that are not strings and plans whose steps are not a list.
- Lookups from guest state and from the step table, which differ from the modelled one only in where the entries come from.
- The context object handed to a compensator and the text of audit rows.
- Environment variables and egress scope names of a declared environment, which the clamp passes through, and subprocess confinement on the host.
- Tokens whose fields have the wrong type, the run's parent id and the mapping note outside the MAC, and how the user's auto-grant list is derived from trust settings.
- Tokens.ValidatedClaimsAreIssued: says nothing about the agent type, because the MAC does not cover it.
- HMAC, SHA-256 and JSON encoding are functions, collision-free where a lemma asks for it.
- Delegation.Coordinator.DispatchDelegatedRun: inserting the child, minting its token and marking the parent are one step, and of the guard's duplicate check no property of whole tables is stated.
- Parent links written by the next-action dispatcher and not by delegation, and the handshake's accept and reject beyond their status changes.
- Run-creation limits per trace and the duplicate check of autonomous submissions: counting over one query.
- Continuation when each tool step is its own segment, the repair of a lost flow snapshot from history beyond losing its counter, and two processes scanning at once.
- Database errors inside execution-unit calls, which the service swallows, and links, children and queries of units.
- The warnings the argument ledger logs.
