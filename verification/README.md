# Verified model of the skedulr scheduler

This project models four parts of skedulr, a Go task scheduler, and proves what they promise:

* **The hierarchical timing wheel** (`timing_wheel.go`): a lazily grown tower of rings of buckets, one min-heap of
  live buckets shared by all levels, intrusive doubly linked lists, and an index from task id to entry. It is proved
  to be a fast form of something very simple, a flat set of timers in which each timer fires once its deadline,
  rounded down to a base tick, has arrived.
* **The shared store** (`storage.go`): the Lua scripts and pipelines as atomic steps taken by any number of instances.
  Dependency counters, the queue / processing / lease cycle, and the delayed set keep their invariants in every
  interleaving.
* **The retry chain and workflow release** (`scheduler.go`, `retry.go`): the exact attempt budget, and the fact that
  children waiting for a failure are released by the final failure only, and once.
* **Cron** (`cron.go`): the search for the next minute, and re-arming on top of the wheel.

## How it is laid out

Each part has a value model, on which the theorems are stated, and classes with the fields, loops and in-place updates
of the program, whose methods are proved to take the steps of the value model.

| part | values and theorems | classes |
|---|---|---|
| arithmetic | `Quantum` | |
| wheel | `WheelModel`, `WheelBounds`, `WheelMachine`, `FlatTimers`, `WheelRuns` | `Buckets`, `DelayQueue`, `TimingLevel`, `TimingWheel` |
| store | `StoreModel`, `StoreInvariants`, `StoreRuns`, `StoreLaws`, `SoleDelivery` | `RedisStorage` |
| retry and release | `RetryChain`, `WorkflowRelease`, `SchedulerActs` | `Scheduler` |
| cron | `CronModel` | `CronTask` |

`StoreLaws` says what each store operation means in the fields of a task and plain times, without the functions of
`StoreModel` it is modelled with, and lifts that to runs: the highest priority is handed out first, and a lease that is
renewed in time is held throughout. The contracts of `TimingWheel.constructor`, `TimingWheel.Schedule`, `Scheduler.Submit`
and `Scheduler.Finish` say the same of the objects in plain fields.

The route to the wheel's main theorem, `WheelRuns.WheelIsFlatTimers`: `Quantum` supplies the div/mod facts;
`WheelModel.OneClock` ties all clocks together; `RouteKeeps`, `AdvanceKeeps` and `DetachKeeps` keep the tower well
formed; `WheelMachine` adds conservation and the index; `TickDemotes` makes draining terminate; `FlatTimers` reads the
wheel as a flat set; `WheelRuns` puts steps together into runs. `TimingWheels.TimingWheel.Drain` then says the same of
the linked objects.

## What holds only under a condition

Where the code does not meet a promise on all inputs, a concrete input is given and the exact condition is proved.

* A task that lists a dependency twice stays waiting (`StoreRuns.ListedTwiceStaysWaiting`): its counter starts at the
  number of dependencies listed, while the children sets hold it once per distinct edge. A fresh waiting task whose
  parents are all done was released if and only if it lists some dependency and none twice, and its body was stored when
  the last edge was resolved (`StoreRuns.DuplicateNeverReleased`). In general a child is released, once, if and only if
  as many of its edges are resolved as its counter says, its body being stored at that moment
  (`StoreRuns.ReleaseCountExact`); that it is not completed or deleted while it waits is enough for the last part.
* Saving an id that is still waiting can release it while a parent is unresolved
  (`StoreInvariants.ResavingReleasesEarly`). Its counter stays exact if and only if the edges it already waits for are
  among those listed now (`StoreInvariants.SaveWaitingCounts`), and with none listed twice it is released early if and
  only if they are not (`StoreRuns.ReleasedEarlyIff`).
* Dequeuing with a lease of less than a second loses the task (`StoreInvariants.SubSecondLeaseLosesTask`) unless
  something else accounts for it (`StoreInvariants.DequeueAccounts`): the script truncates the duration to whole seconds,
  and Redis rejects a time to live of zero after the pop is done.
* `Readme.md:105` says no task is delivered to two instances. A dequeue overwrites a live lease, so this depends on the
  callers: queuing the retry of a task whose first attempt is still held is enough (`SoleDelivery.UnguardedRetryCollides`,
  `StoreInvariants.SameTaskDeliveredTwice`). Two guards prevent it: queue a task only when it is idle and not queued in
  another version, and claim a task only when it is not queued. Each guard is exact for its step
  (`SoleDelivery.GuardIsExact`). In a store in which bodies have their own ids, no continuation in which callers keep the
  guards, and store delayed bodies under their own ids, has a dequeue that meets a live lease if and only if every queued
  task has one entry, is not being processed and is not leased (`SoleDelivery.SoleIff`); from the empty store on that is
  so (`SoleDelivery.NeverTwiceFromStart`). The scheduler keeps neither
  guard: a retry can be queued while an earlier version is held, and `scheduler.go:230-246` claims stored bodies whose
  queue entries stay.
* The comment on the delayed script (`storage.go:77-87`) says every member with a score up to now is due. The script
  starts at score 0: a task scored -1 is never popped (`StoreRuns.NegativeScoreNeverDue`), and at any time
  from the epoch on enough batches pop every member with a score up to it if and only if no score is below zero (`StoreRuns.AllPastPoppedIff`).
* A plain Failed end completes nothing in the store (`WorkflowRelease.FailedRunsAgain`), so of all ends it is the one
  after which a task in the processing set is queued again once its lease lapses (`WorkflowRelease.FailedIsRecovered`).
* A task rebuilt from the store carries neither retry cap nor strategy (`RetryChain.RebuiltNeverRetries`), so four runs
  ending Dead become one ending Failed (`RetryChain.RebuildLosesRetries`). It keeps its number of runs and its end
  if and only if its next failure would have been a plain Failed anyway (`RetryChain.RebuildKeepsBudgetIff`).
* Armed cron minutes rise strictly if and only if the wheel's tick divides a minute (`CronModel.AlwaysAdvancesIff`);
  with any other tick some life repeats one (`CronModel.SameMinuteTwice`). The default tick of 10 ms does divide it.
* Division and remainder truncate in Go: 15 ms before the epoch, with a tick of 10 ms, the slot index is -1
  (`WheelBounds.SlotBelowRing`). For a deadline a tick or more before the epoch it is in the ring if and only if its
  quantum is a multiple of the ring size (`WheelBounds.SlotInRingIff`), so the wheel is modelled from the epoch on.

## Conventions

* Time is an unbounded integer of milliseconds, not negative when a wheel is built. `WheelBounds.RouteBounded` bounds
  every number the routing computes at an overflow level by `(wheelSize + 1)` times the deadline, which gives the range
  in which 64-bit arithmetic agrees.
* The wall clock is a parameter. Schedule, Cancel and the processing of one bucket are atomic steps, as are the scripts,
  pipelines and multi-call saves of the store. Starting a callback goroutine is recorded in the log `fired`.
* Where buckets, queue entries or due tasks tie, any order is allowed.
* A lease is a key with an expiry time; it is gone from that time on.

## Model

| member | source | states |
|---|---|---|
| Quantum.FloorOfFloor | timing_wheel.go:180-189 | Flooring a time to a tick and then to a coarser tick made of whole ticks is flooring it to the coarser tick |
| Quantum.SlotHoldsOneBoundary | timing_wheel.go:153-155 | Two boundaries within one turn of a ring that share the slot `(B / tickMs) mod wheelSize` are the same boundary |
| Buckets.WheelBucket.Add | timing_wheel.go:62-76 | Appends to the bucket's sequence, sets the expiration, reports exactly whether it changed, and keeps head, tail, next, prev and back-pointers spelling out the sequence |
| Buckets.WheelBucket.Flush | timing_wheel.go:82-98 | Returns the whole sequence in order, chained by `next` with `prev` and `bucket` cleared, and leaves the bucket empty with expiration -1 |
| DelayQueues.DelayQueue.Swap | timing_wheel.go:202-206 | Exchanges two buckets and keeps `h[b.heapIdx] == b` for every member |
| DelayQueues.DelayQueue.Up | timing_wheel.go:251 | Sifting up restores the heap order from one position that is out of place, with the same members |
| DelayQueues.DelayQueue.Down | timing_wheel.go:249 | Sifting down restores the heap order, or leaves the heap untouched and says so |
| DelayQueues.DelayQueue.Push | timing_wheel.go:207-211 | Adds exactly one bucket to a valid heap |
| DelayQueues.DelayQueue.Pop | timing_wheel.go:212-220 | Removes exactly the root, which leaves with `heapIdx == -1` |
| DelayQueues.DelayQueue.HeadIsLeast | timing_wheel.go:199-201 | The root of an ordered heap has the least expiration of all members |
| DelayQueues.DelayQueue.Fix | timing_wheel.go:248-249 | Repairs the heap after the expiration at one position changed either way |
| DelayQueues.DelayQueue.Offer | timing_wheel.go:246-252 | A bucket off the heap is added, one on the heap is moved into place; the heap is valid again |
| DelayQueues.DelayQueue.Poll | timing_wheel.go:266-281 | Returns the least bucket if it has expired, taken off the heap with its index reset; otherwise nothing has expired and the heap is unchanged |
| WheelModel.OneClock | timing_wheel.go:119-133 | In every well-formed tower level k's clock is the base clock floored to level k's tick |
| WheelModel.SpanGrows | timing_wheel.go:140-174 | `currentTime + interval` strictly grows from a level to the next, because a ring has at least two slots |
| WheelModel.GrowTower | timing_wheel.go:164-172 | A lazily allocated level, started at the clock of the level below, keeps all clocks floors of one time |
| WheelModel.PutSlot | timing_wheel.go:150-160 | An entry that fits lands in the slot of its own quantum: an occupied slot already has that very boundary as its expiration, so no slot mixes quanta |
| WheelModel.RouteKeeps | timing_wheel.go:140-174 | Routing keeps the tower well formed, moves no clock, links the entry exactly once or reports it due; "already due" comes only from the bottom level |
| WheelModel.AdvanceKeeps | timing_wheel.go:180-189 | Although advancing stops at the first level whose boundary is not crossed, afterwards every clock is the floor of the new time |
| WheelModel.AdvanceToEarliest | timing_wheel.go:484-487 | Advancing to the earliest live bucket keeps every slot well formed, and that bucket's own level shows exactly its boundary |
| WheelModel.DetachKeeps | timing_wheel.go:488 | Detaching the earliest bucket removes exactly its entries, all of which lie within the first tick of its level |
| WheelModel.RouteStaysBelow | timing_wheel.go:140-174 | An entry below the horizon of level m is linked at level m or lower, and no level is allocated |
| WheelModel.HorizonMonotone | timing_wheel.go:150 | The horizon `currentTime + interval` is strictly increasing in the level |
| WheelBounds.TickIsPower | timing_wheel.go:166 | Level k's tick is `tickMs * wheelSize^k` |
| WheelBounds.RouteBounded | timing_wheel.go:140-174 | Routing allocates level k only if `tickMs * wheelSize^k` is at most the deadline, and at every overflow level visited `currentTime + interval <= (wheelSize + 1) * deadline` |
| WheelBounds.DepthBound | timing_wheel.go:164-172 | A tower grown for a deadline to height h needs a deadline of at least `2^(h-1)` ms |
| WheelBounds.SlotInRingIff | timing_wheel.go:153-154 | With truncating division the slot index lies in the ring if and only if the deadline is less than a tick before the epoch or its quantum is a multiple of the ring size |
| WheelBounds.SlotBelowRing | timing_wheel.go:153-154 | A concrete deadline before the epoch whose slot index is -1 |
| WheelMachine.InsertKeeps | timing_wheel.go:445-452 | Inserting an entry keeps the wheel well formed, conservation, the exact id index, and the rule that whatever fired was due |
| WheelMachine.ScheduleKeeps | timing_wheel.go:392-418 | Scheduling a new entry keeps the whole invariant |
| WheelMachine.ScheduleDispatches | timing_wheel.go:445-452 | Scheduling fires the new entry if and only if its deadline is before the end of the current base tick, and nothing else; what does not fire stays indexed under its id and is not cancelled |
| WheelMachine.RegisterConserves | timing_wheel.go:408-415 | Re-scheduling an id supersedes exactly the old entry: every accepted entry stays exactly one of held, fired once, cancelled |
| WheelMachine.RegisterIndexes | timing_wheel.go:408-415 | After indexing a new entry the index is again a bijection between ids and live entries with an id |
| WheelMachine.CancelKeeps | timing_wheel.go:424-437 | Cancelling keeps the whole invariant |
| WheelMachine.FireHeld | timing_wheel.go:454-467 | Firing an entry moves it from held to fired and removes it from the index without ever deleting a newer entry |
| WheelMachine.TickKeeps | timing_wheel.go:476-495 | Processing one due bucket keeps the whole invariant |
| WheelMachine.TickDemotes | timing_wheel.go:484-493 | Processing a bucket of level k lowers the sum of (level + 1) over linked entries by at least its size; its own ring loses just that slot and no higher ring changes |
| FlatTimers.TickView | timing_wheel.go:476-495 | Seen as a flat set of timers, processing a bucket fires some timers that are due and changes nothing else |
| FlatTimers.ScheduleView | timing_wheel.go:392-418 | Seen flat, scheduling replaces the namesake and fires at most the timer scheduled, and that only if it is due |
| FlatTimers.CancelView | timing_wheel.go:424-437 | Seen flat, cancelling removes exactly the pending timers of that id |
| FlatTimers.NamedIsIndexed | timing_wheel.go:330 | The index names exactly the pending timer of an id: there is at most one |
| FlatTimers.BlockedIsQuiet | timing_wheel.go:270-280 | When the loop would block at t, no pending timer is due at t: nothing is missed |
| FlatTimers.DrainSettles | timing_wheel.go:476-495 | Draining at a fixed time, whatever ties the heap breaks, fires exactly the timers due then, in at most as many iterations as the sum of (level + 1) |
| FlatTimers.DrainTerminates | timing_wheel.go:476-495 | From every reachable state draining at a fixed time reaches a state in which the loop blocks |
| WheelRuns.NewWheelOk | timing_wheel.go:343-361 | A new wheel satisfies the invariant and has no timers |
| WheelRuns.StepSimulates | timing_wheel.go:392-495 | Each step of the wheel keeps the invariant and is a step of the flat timers: arming fires at most the timer armed, processing only due ones |
| WheelRuns.EveryStepAgrees | timing_wheel.go:392-495 | In every run each state keeps the invariant and each step is a flat-timer step; a block finds nothing due |
| WheelRuns.CancelledStays | timing_wheel.go:424-437 | In every run what was cancelled stays cancelled |
| WheelRuns.RunSafety | timing_wheel.go:445-452 | In every run nothing fires before its tick, nothing fires twice, and what was cancelled at any state has fired in no later one |
| WheelRuns.WheelIsFlatTimers | timing_wheel.go:392-495 | After any sequence of requests, each followed by draining, the wheel has fired exactly the timers at exactly the times the flat set fires, and has the same pending |
| WheelRuns.RouteKeepsSlots | timing_wheel.go:242-253 | Routing never changes the expiration of a live bucket and only appends to it, so no bucket on the heap ever needs to be moved |
| TimingLevels.TimingLevel.constructor | timing_wheel.go:119-133 | A new level has its clock floored to its tick and all buckets empty and off the heap |
| TimingLevels.TimingLevel.Place | timing_wheel.go:154-158 | Links the entry and offers the bucket exactly when it was empty; the heap again holds exactly the non-empty buckets of all levels |
| TimingLevels.TimingLevel.Overflow | timing_wheel.go:161-172 | The overflow level is the existing one or a new one; the linked objects show the grown tower |
| TimingLevels.TimingLevel.Add | timing_wheel.go:140-174 | On the linked objects `add` does what routing does on values, and a cancelled or due entry is left unlinked |
| TimingLevels.TimingLevel.AdvanceClock | timing_wheel.go:180-189 | On the linked objects the clocks end as the value model says, all slots untouched |
| TimingLevels.PollTower | timing_wheel.go:266-281 | The bucket polled has the least expiration of all live buckets at all levels; otherwise none has expired |
| TimingLevels.Detach | timing_wheel.go:488 | Flushing a polled bucket empties exactly its slot and hands out its entries in order |
| TimingWheels.TimingWheel.constructor | timing_wheel.go:343-361 | A tick below a millisecond becomes one, a ring size below two becomes two; the wheel is valid and empty, and its base clock stands at the start time floored to the tick |
| TimingWheels.TimingWheel.Insert | timing_wheel.go:445-452 | Takes the insertion step of the value model, the index and log included, with the rest of the walked list untouched |
| TimingWheels.TimingWheel.RemoveFromIndex | timing_wheel.go:458-467 | Removes the index entry only if it is this very entry |
| TimingWheels.TimingWheel.Schedule | timing_wheel.go:392-418 | Refuses with the right error when not started, stopped or without a callback; otherwise the new entry is dispatched at once exactly if its deadline is before the end of the current base tick, no other entry is, the clock stays, and an entry not dispatched is indexed |
| TimingWheels.TimingWheel.Cancel | timing_wheel.go:424-437 | Takes the cancelling step: flag set and index entry gone, the node left linked |
| TimingWheels.TimingWheel.ReinsertHead | timing_wheel.go:488-493 | Save next, clear next, insert: the rest of the detached list survives the rewiring of the entries before it |
| TimingWheels.TimingWheel.TickOnce | timing_wheel.go:476-495 | One turn of the loop processes the earliest expired bucket as the value model says, visiting each node once, or finds that it blocks |
| TimingWheels.TimingWheel.Drain | timing_wheel.go:476-495 | Run until it blocks, the loop terminates and the wheel shows what the flat timers show after settling |
| StoreInvariants.SaveWaitingCounts | storage.go:354-373 | Saving a waiting task keeps every counter equal to the number of children sets holding the child, plus the dependencies it lists again, if and only if the edges it already waits for are among those it lists |
| StoreInvariants.SavedCounts | storage.go:354-373 | Whatever it waited for before, saving a task leaves its counter above the number of children sets holding it by the number listed less the number of edges it then waits for |
| StoreInvariants.ResolveCounts | storage.go:46-63 | Resolving an edge keeps every counter exact |
| StoreInvariants.ReleasedExactly | storage.go:46-63 | A child with a stored body is released by exactly the step that resolves its last edge, or more or fewer edges earlier by its surplus |
| StoreInvariants.ResavingReleasesEarly | storage.go:354-373 | A concrete run in which an id saved twice is released while it still waits for a parent |
| StoreInvariants.DequeueAccounts | storage.go:65-75 | A dequeue keeps every owed task in the queue or in the processing set if and only if the lease lasts a second or something else accounts for the popped id |
| StoreInvariants.SubSecondLeaseLosesTask | storage.go:454-469 | A concrete task that a dequeue with a 999 ms lease loses |
| StoreInvariants.SameTaskDeliveredTwice | storage.go:441-452 | A concrete run in which two instances are handed the same id and the second takes over a live lease |
| StoreInvariants.DequeueKeepsTheRest | storage.go:65-75 | A dequeue keeps every owed task accounted for, except the popped one exactly when no lease can be set and nothing else accounts for it |
| StoreInvariants.RecoverAccounts | storage.go:102-123 | A recovery scan keeps every owed task accounted for |
| StoreInvariants.DeleteAccounts | storage.go:293-300 | Completing a task keeps every other owed task accounted for |
| StoreRuns.EveryRunOk | storage.go:46-123 | In every interleaving by any number of instances, with nothing asked of callers: counters exact up to the child's surplus, no owed task lost, each scheduling of a delayed task delivered at most once, when due, never after it was withdrawn, and none forgotten |
| StoreRuns.EveryRunFromStart | storage.go:46-123 | The same of every run from the empty store |
| StoreRuns.StepForgetsNone | storage.go:494-552 | Each scheduling issued stays armed, withdrawn or delivered |
| StoreRuns.PopDelivers | storage.go:88-100 | Popping a batch delivers each of its schedulings once, with a score between 0 and the caller's clock |
| StoreRuns.EdgesAfter | storage.go:46-63 | Over any run a child not saved again waits for exactly its edges that no step resolved |
| StoreRuns.ReleaseCountExact | storage.go:46-63 | Over any run a child not saved again is released exactly once if as many of its edges were resolved as its counter said and its body was stored when the counter got to zero, and not at all otherwise |
| StoreRuns.KeptMeansStored | storage.go:46-63 | It is enough that the body is stored and the child not completed or deleted while it waits; once released it may be |
| StoreRuns.DuplicateNeverReleased | storage.go:361-371 | Over any run after which no edge is left, a fresh waiting task was released once if it listed dependencies and none twice and its body was stored when the last edge was resolved, and never otherwise |
| StoreRuns.ListedTwiceStaysWaiting | storage.go:361-371 | A concrete task that lists a parent twice: when the parent is done no edge is left, its counter is one, and it is not released |
| StoreRuns.ReleasedEarlyIff | storage.go:354-373 | When a saved task is released edges of it are unresolved if and only if it listed fewer dependencies than the edges it waits for; with none listed twice, if and only if it already waited for one it does not list |
| StoreRuns.ReleasedOnce | storage.go:46-63 | Between two releases of one child it was saved as waiting again |
| StoreRuns.CrashedTaskRequeued | storage.go:102-123 | After a dequeue and any steps that do not take, claim, renew or complete the task, it stays in processing under the same lease until the first scan at or after the end of the lease, and that scan queues it |
| StoreRuns.LeaseExcludes | storage.go:327-352 | Until it expires a lease stays with its owner whatever other steps are taken: claims are refused and recovery passes the task over |
| StoreRuns.BatchesDrain | storage.go:530-552 | At a fixed time k batches of size max leave `n - k * max` of n due tasks, or none: the due part is empty after the ceiling of n / max calls |
| StoreRuns.LeftAreNegative | storage.go:88-100 | After that many batches what is left of the members scored up to that time are exactly those scored below zero |
| StoreRuns.AllPastPoppedIff | storage.go:77-87 | Every member scored up to now is popped by then if and only if no score is below zero |
| StoreRuns.NegativeScoreNeverDue | storage.go:494-512 | A task scored -1 is in no batch at any time and stays in the set |
| StoreLaws.SavedWaits | storage.go:354-373 | After a save the child waits for what it waited for before, its listed dependencies, and the success of each task it depends on; its counter is the number it lists; no other child is concerned |
| StoreLaws.DeleteForgets | storage.go:293-300 | Completing an id removes its body, lease and processing membership, and touches nothing of any other id |
| StoreLaws.RecoverMeans | storage.go:102-123 | A scan leaves exactly the leased ids in processing and queues exactly the bodies of those without a lease, with their priorities |
| StoreLaws.ScoresArePriorities | storage.go:441-452 | In every run each queued task keeps its priority as score |
| StoreLaws.QueueChanges | storage.go:65-75 | A queued task stays queued until it is popped; a push adds its task and a pop takes its task away |
| StoreLaws.HighestPriorityFirst | storage.go:65-75 | In every run from the empty store each dequeue takes a task whose priority is at least that of every queued task |
| StoreLaws.DequeueLeases | storage.go:65-75 | A dequeue of at least a second leaves the task processing, off the queue, and held by the caller exactly until the whole seconds are over |
| StoreLaws.ClaimGrants | storage.go:327-340 | A granted claim is held by the claimer exactly until now plus the duration, or for good when the duration is not positive |
| StoreLaws.HeartbeatRenews | storage.go:37-44 | A holder's heartbeat of at least a second makes the lease its own until exactly now plus the whole seconds, a shorter one ends it, and anybody else's changes nothing |
| StoreLaws.ClaimerRenews | storage.go:342-352 | A claimer can renew its lease at any time before the end |
| StoreLaws.BeatingHolds | storage.go:37-44 | In every run an owner that beats again before each end of its lease holds the task at every state: no scan takes it for an orphan, and every claim is refused |
| StoreLaws.BatchSizes | storage.go:530-533 | A batch has as many ids as are due, up to max, or up to a hundred when max is not positive |
| StoreLaws.CallsNeeded | storage.go:530-552 | With a positive max, k calls at a fixed time leave nothing due if and only if k times max reaches the number due |
| StoreLaws.PopsInOrder | storage.go:88-100 | Any number of calls at a fixed time hand out each due id at most once and in order of fire time, across calls too; they remove just those, and what they leave due fires no earlier |
| SoleDelivery.NeverTwice | storage.go:65-75 | While callers queue only idle tasks in one version and claim only tasks that are not queued, no dequeue of any run meets a live lease |
| SoleDelivery.SoleIff | storage.go:65-75 | No continuation in which callers keep the guards hands out a held task if and only if every queued task has one entry, is not processing and is not leased |
| SoleDelivery.NeverTwiceFromStart | storage.go:65-75 | In every run from the empty store in which callers keep the guards no dequeue meets a live lease |
| SoleDelivery.UnguardedRetryCollides | storage.go:441-469 | A concrete run from the empty store without the guards in which a retry is handed out while the first attempt is held |
| SoleDelivery.GuardIsExact | storage.go:327-340 | Queuing a task or claiming a lease keeps it that way if and only if the guard of the step holds |
| SoleDelivery.GuardedLeaseExcludes | storage.go:327-352 | With the guards kept a lease excludes claims, recovery and dequeues until it expires |
| RedisStorages.RangeByScore | storage.go:89 | Selects distinct due ids in order of score, as many as allowed, leaving none behind with a smaller score |
| RedisStorages.RedisStorage.SaveWaiting | storage.go:354-373 | Registers the task under each edge and sets the counter to the number of edges listed |
| RedisStorages.RedisStorage.ResolveDependencies | storage.go:46-63 | Decrements every child, returns the bodies of exactly the released ones, each once, and drops the edge and their counters |
| RedisStorages.RedisStorage.Enqueue | storage.go:441-452 | Adds the stored version with its priority as score |
| RedisStorages.RedisStorage.Dequeue | storage.go:65-75 | Pops an entry of highest priority, leases it and marks it processing; with a lease below a second it fails with the pop done |
| RedisStorages.RedisStorage.Claim | storage.go:327-340 | Takes the lease exactly when nobody holds it |
| RedisStorages.RedisStorage.Heartbeat | storage.go:37-44 | Extends the lease exactly when the caller still holds it |
| RedisStorages.RedisStorage.Delete | storage.go:293-304 | Removes body, lease and processing membership |
| RedisStorages.RedisStorage.RecoverOrphaned | storage.go:102-123 | Over the whole processing set: requeues exactly the lease-less ids that have a body, drops those that have none, keeps the leased, and returns the number requeued |
| RedisStorages.RedisStorage.ScheduleDelayed | storage.go:494-512 | Refuses an empty id; otherwise stores the body if given and sets the score |
| RedisStorages.RedisStorage.UnscheduleDelayed | storage.go:518-523 | Removes the id from the delayed set only |
| RedisStorages.RedisStorage.PopDueDelayed | storage.go:530-552 | Removes exactly one batch and returns the bodies that exist, in order |
| RetryChain.BudgetInTermsOfCapAndStrategy | retry.go:55-60 | With cap m and a strategy allowing n retries the budget is m + 1 runs ending Dead when 0 < m <= n, and otherwise n + 1 ending Failed |
| RetryChain.ClosedForgets | scheduler.go:727-816 | After a success, a cancellation or a death of a named task the store has no body, lease or processing entry of it; a plain failure and a retry leave the store as it was |
| RetryChain.PendingWhileBudgetLasts | scheduler.go:767-800 | Before the budget is spent a failing task only counts failures: no history, no edge resolved, a retry pending |
| RetryChain.ExactBudget | scheduler.go:727-816 | An always-failing task runs exactly its budget, from any first attempt, ends as predicted, with one history record and one failure counted per run |
| RetryChain.EndsAtFirstNonFailure | scheduler.go:572-600 | A chain that meets a success or an abort within its budget ends there and resolves that outcome's edge only |
| RetryChain.ResubmitRestoresBudget | scheduler.go:1303-1328 | Resubmitting a Dead or Failed task gives it the whole budget of attempt 0 again |
| RetryChain.RebuiltNeverRetries | scheduler.go:326-337 | A task rebuilt from the store ends Failed at its first failure |
| RetryChain.RebuildLosesRetries | scheduler.go:326-337 | A concrete plan of four runs ending Dead that rebuilt is one run ending Failed |
| RetryChain.RebuildKeepsBudgetIff | scheduler.go:326-337 | The rebuild keeps the number of runs left and the end if and only if the next failure would be a plain Failed |
| RetryChain.EveryLife | scheduler.go:727-816 | In every life with any outcomes and resubmissions: one history record per chain, the edges resolved are exactly those of the recorded ends, and the dead counter counts the task exactly while it is Dead |
| RetryChain.EveryLifeBounded | retry.go:28-31 | In every life a task fails at most its budget once per chain |
| WorkflowRelease.OnlyEndsResolve | scheduler.go:679-700 | The edges resolved over a life are exactly those the task's ends log and those other instances resolve |
| WorkflowRelease.ActsKeepWorld | scheduler.go:679-700 | Whatever the task and the instances do together keeps all store invariants |
| WorkflowRelease.WaitsUntilRecordedEnd | scheduler.go:727-816 | A child waits for a trigger of a task exactly as long as no recorded end matches it, Dead counting as Failed too, and nobody else resolved it |
| WorkflowRelease.FailureReleasesOnce | scheduler.go:727-816 | Over a whole life with resubmissions a child waiting only for the failure, its body stored when that edge is resolved, is released exactly once if some recorded end is Failed or Dead, or someone else resolved the edge, and never otherwise, even if it completes meanwhile |
| WorkflowRelease.TriggerReleasesOnce | scheduler.go:679-700 | The same for a child waiting for any one trigger: released once if a recorded end matches it or someone else resolved the edge, and never otherwise |
| WorkflowRelease.SuccessReleasesDependent | storage.go:361-371 | A fresh task that depends on one other is released once by a recorded success of that one, its body being stored then, and by no other end of it |
| WorkflowRelease.ReleasedByFinalFailure | scheduler.go:727-816 | In one attempt such a child is released once by the failure after which no retry comes, the second edge of a death included and whatever happens between the two, and by no other outcome |
| WorkflowRelease.FailedIsRecovered | scheduler.go:802-816 | Of the ends of a named task only Failed leaves it recoverable from the store |
| WorkflowRelease.FailedRunsAgain | scheduler.go:802-816 | A concrete Failed task that the next scan after its lease queues again |
| Schedulers.Scheduler.Submit | scheduler.go:852-928 | Each refusal if and only if its condition holds and no earlier one does, and then tasks, queue and store stay; otherwise tracks the task, stores it if named, and queues it unless it lists dependencies. The key is reserved unless it or an earlier check refused |
| Schedulers.SubmittedMeans | scheduler.go:885-912 | A submitted named task is stored; one that lists dependencies waits for each of them, counted, and is not queued; any other is queued with its priority; an unnamed one leaves the store alone |
| SchedulerActs.WaitingIsSavedChild | scheduler.go:902-909 | A submitted waiting task is a saved child of the run theorems, so it is released when they say |
| Schedulers.Scheduler.ResolveWorkflow | scheduler.go:679-700 | Resolves one edge and submits exactly the released children of known types that are not refused for capacity or key, in some order, with exact effect on store, queue and room; each job queued is a released child with its id, key, type, priority, payload and attempts |
| Schedulers.FreedAreChildren | scheduler.go:679-700 | Every job queued when an edge is resolved is a child that edge releases, of a known type, with its work unchanged and nothing left to wait for |
| Schedulers.RoomForAll | scheduler.go:852-871 | With room for all, exactly those released children are accepted that are of a known type and whose key is neither reserved nor that of an earlier one |
| Schedulers.NoRoomForAny | scheduler.go:853-863 | Once stopped or full the scheduler accepts no released child |
| Schedulers.Scheduler.HandleFailure | scheduler.go:727-816 | Takes the failing step of the chain; store, queue and room change exactly by settling the stored form, resolving the edges of the status in turn and submitting what each released; a retry is a new task with the same id, type, priority, payload, cap and strategy, no key, and one attempt more |
| Schedulers.Scheduler.Begin | scheduler.go:482-528 | Skips a task that is untracked or cancelled, recording the cancelled one; otherwise marks it running |
| Schedulers.Scheduler.Finish | scheduler.go:570-659 | A clean return succeeds, a cancelled context or a noted cancellation cancels, and an error or timeout is one more failure that ends Dead, Retrying or Failed by the attempts left, with status, counters, history and edges for each case. The key is free again unless a newly queued child took it; Dead, Failed and Retrying tasks stay tracked and others do not |
| Schedulers.ReportsOf | scheduler.go:573-648 | The chain's step after a run, seen in the scheduler's own counters, is what the worker's result calls for, case by case, whether the task is the tracked one or not |
| SchedulerActs.EndIsActs | scheduler.go:679-816 | The store after settling an end as the scheduler does is the one reached by the acts the release theorems are about, with no edge resolved by anyone else |
| SchedulerActs.FinishActs | scheduler.go:570-659 | Finishing an attempt, from any status, leaves the scheduler's store and the tracked task's chain where those acts lead, the one move being an attempt that succeeds, fails, times out or is cancelled by the worker's result and a noted cancellation |
| Schedulers.Scheduler.FireRetry | scheduler.go:794-796 | An accepted retry is the same chain, queued, with one attempt more |
| Schedulers.Scheduler.Resubmit | scheduler.go:1303-1328 | Accepts a task if and only if it is tracked as Dead or Failed; then it is Queued at attempt 0 and in the queue, and a dead one leaves the dead counter |
| CronModel.MatchField | cron.go:101-112 | True exactly for the pattern `*` and for the members of a comma-separated list |
| CronModel.SplitFindsListed | cron.go:105-110 | The members of a list are exactly the comma-free texts that stand between commas |
| CronModel.MatchesFieldByField | cron.go:90-97 | A minute matches if and only if each of the five fields, in the order minute, hour, day, month, weekday, is `*` or lists its value |
| CronModel.NextExecution | cron.go:77-86 | Finds the least matching minute within a year, or the year's end when none matches |
| CronModel.NextMeans | cron.go:77-86 | Five stars give the very next minute; otherwise the minute found is the first match, at most 525600 minutes away, and that far if there is none |
| CronModel.NextIsUnique | cron.go:77-86 | The next execution is determined by the minute the search starts from |
| CronModel.NothingSkipped | cron.go:57-61 | A callback that runs any time before the next match arms exactly that match |
| CronModel.AlwaysAdvancesIff | timing_wheel.go:146-155 | The minute armed next is always later than the one that fired if and only if the wheel's tick divides a minute |
| CronModel.ArmedMinutesRise | cron.go:43-64 | With such a tick the minutes one cron task is armed for strictly increase |
| CronModel.SameMinuteTwice | cron.go:57-62 | With any other tick a minute can be armed twice in a row |
| CronTasks.CronTask.Arm | cron.go:65-69 | Schedules exactly one wheel entry, at the next matching minute |
| CronTasks.CronTask.Fire | cron.go:43-63 | After the wheel fired the armed entry, the entry armed next is strictly later |

## Left out

- Races inside one wheel operation, such as a stale clock read while the tick loop advances: Schedule, Cancel and the processing of one bucket are atomic here.
- The wake channel, timers and the blocking part of the poller: `Poll` and `Drain` are one turn and a run at a fixed clock reading.
- O(1) unlinking on Cancel as `Readme.md:91` describes it: the code sets the flag and removes the index entry, and the node stays linked until its bucket is flushed; the model does the same.
- 64-bit overflow: integers are unbounded, with the range in which they agree given by `WheelBounds.RouteBounded`.
- Which of several equal entries the heap, the priority queue or a sorted set returns: any of them.
- WheelRuns.NewWheelOk: starts at a clock not before the epoch, because the truncating remainder gives slot indexes below zero before it (`WheelBounds.SlotInRingIff`).
- TimingWheels.TimingWheel.constructor: the same.
- StoreRuns.LeaseExcludes: leaves out a dequeue of the same id, which overwrites the lease; `SoleDelivery` says when none can come.
- StoreRuns.EveryRunOk: a task counts as owed when its body is stored under its own id at the time it is queued, until the body is replaced by that of another id or it is completed.
- StoreModel takes a sub-second lease as an error raised by Redis after the pop, and an expired key as absent.
- RetryChain.ExactBudget: concerns one chain of attempts whose retries are accepted; the wheel's callback ignores a refused submission, which ends the chain with the status Retrying.
- RetryChain leaves the value of backoff delays open: floating point and jitter do not affect the budget.
- WorkflowRelease.WaitsUntilRecordedEnd: says nothing of a child that is saved as waiting again meanwhile.
- Exactly-once execution across the local heap and the stored queue: a submission goes to both.
- The dedup key beyond its reservation and release, worker pools, pausing, scaling, shutdown and Scheduler.Cancel.
- The order of the scheduler's local priority queue: the model appends.
- Splitting a cron spec into fields, and Go's calendar: the field values of a minute are an arbitrary function of its number.
- The execution a cron fire submits, and recurring tasks with a fixed interval.
- Redis client calls, JSON, pub/sub, contexts, logging, middleware, the dashboard, history filters and statistics.
