# Coutil: its hand-written concurrency, verified

Coutil gives Lua coroutines asynchronous operations (on libuv), tasks that run on pools of system
threads, and channels between them. This project models the parts of it where several parties change
shared state, or where one buffer is overwritten in several passes, and proves what they are meant to
keep. `dafny verify dfyconfig.toml` checks all of it.

Two layers appear for each protocol. A state machine has one step for every critical section, callback
or coroutine resume; theorems about it hold in every run, whatever the interleaving. Classes with the
fields of the C structures carry out the code step by step, and every method is proved to do exactly
one step (`View()` before and after are related by `Next`). What the code asserts is asserted there.
What each step does is stated once more on the bare fields (the lemmas named `...Means`), and so is when
it is possible, so that neither layer rests on the definitions of the other.

| files | what they model |
|---|---|
| `StateQueue.dfy` | the intrusive queue of Lua states |
| `Rendezvous.dfy` | matching the two ends of a channel, against a search for the oldest compatible waiter |
| `SwapValues.dfy` | the in-place exchange of arguments between two stacks |
| `ChannelWait.dfy`, `ChannelCode.dfy` | waiting on a channel, canceling against matching, suspending a whole task |
| `SyncMap.dfy`, `SyncMapCode.dfy` | the reference-counted map of channel names |
| `ThreadPool.dfy`, `PoolRuns.dfy`, `PoolSteps.dfy`, `PoolCode.dfy` | the thread pool: counters, wake-ups, ownership and order of tasks, closing |
| `Operation.dfy`, `OperationRuns.dfy`, `OperationSteps.dfy`, `OperationCode.dfy` | the operation of a coroutine, and all operations of one loop |
| `FileInfo.dfy` | `system.fileinfo`: several passes over one mode string |
| `ProcEnv.dfy` | packed environments: two passes, unpacking, lookup |

## How the outside world appears

- libuv and the operating system are nondeterministic steps: one callback for every armed request, one
  close callback for every closed handle, a signal wakes at least one sleeper if there is one, sleepers
  may also wake by themselves, creating a thread may fail, and answers of the file system are inputs.
- A Lua stack is a sequence in a field; copying a value between states succeeds or, where the code
  handles that, fails at any point (the `credit` of `SwapValues`).
- Lua strings may hold NUL, C strings end there: `ProcEnv` keeps the difference. The mode string of
  `FileInfo` is the C string.
- The number of a `Handle` type stands for libuv's; only the one of `uv_async_t` matters.

## What is assumed of steps and callers

- Leaving a task in its `ChannelTask` and resetting its stack (src/lthpool.c:117-119) is one step, and so
  is unlocking a closed pool and destroying its conditions (src/lthpool.c:239-242).
- A reference to a pool is used only while the pool is open, or by a task that still runs while it closes.
- Request operations have no `cancel` function, and the only handles that have one are channel waits, as
  at all call sites. Libuv's callbacks run only while the loop is not inside a coroutine it resumed.
- A setup function either arms the operation or not before it raises an error, returns or waits; it does
  not raise an error after arming a handle.

## Where the code does not do what one would expect

- *A closed pool can get a thread.* `addthread_mx` provides a worker before it looks at the status
  (src/lthpool.c:49-61). A pool that is shut with tasks left gets a thread again in some run if and only
  if its size is not 0 (`PoolRuns.ClosedPoolGrowsIffSized`); one such run ends with the pool destroyed
  while that thread is in it (`PoolRuns.DestroyedWithThread`).
- *A finalizer signals nobody.* When `collectthreadpool` (src/lthpool.c:274-283) takes the last task of a
  closing pool, the closer and all workers are left asleep if and only if no worker was up
  (`PoolRuns.FinalizerStrandsIffAsleep`, and a run in `PoolRuns.StrandedCloser`). The theorems on closing
  that need neither to happen say `CarefullyReachable`: runs where a pool shut with tasks left has size 0,
  and no finalizer takes the last task of a closing pool whose workers all sleep.
- *The peer of a failed exchange gets a number for a message.* `pusherrfrom` copies the top of the failed
  stack after it pushed the count there (src/lchaux.c:108-119), so the peer is told `false, 2`. The failing
  clauses of `SwapValues.Swap` state this for every point of failure.
- *A failure to arm pushes no count.* `armsynced` (src/lchannem.c:161-188) leaves `false` and a message,
  where `channelsync` (src/lchannem.c:64-65) asserts a count on top and drops it, as
  `cancelsuspension` provides. The assertion holds after such a failure if and only if libuv's error
  was -2 (`ChannelCode.FailureChecked`); with assertions off the top value is lost.
- *A NUL is not packed.* Packing cuts names and values at a NUL, and the lookup compares the whole of a
  Lua string. `ProcEnv.RoundTrip` and `ProcEnv.LookupIsTable` hold if and only if no string holds one.
- *One documented transition is not taken.* O8 (doc/devnotes.md:592) has a canceled handle restarted at
  once; `checkreset` (src/loperaux.c:314-319) never answers SAMEOP while CLEANUP is set. The model follows
  the code: such a coroutine waits in "Reseting Canceled".

## Model

| member | source | states |
|---|---|---|
| `StateQueues.StateQueue.Append` | src/lchaux.c:30-38 | the states of the second queue follow those of the first; nothing else is linked or lost |
| `StateQueues.StateQueue.Enqueue` | src/lchaux.c:49-52 | the state becomes the last, with a null link |
| `StateQueues.StateQueue.Dequeue` | src/lchaux.c:54-66 | takes the first state and clears its link; null on an empty queue |
| `StateQueues.StateQueue.Unlink` | src/lchaux.c:75-83 | cuts out exactly the state behind a given one, wherever it is, tail included |
| `StateQueues.StateQueue.Remove` | src/lchaux.c:68-89 | deletes the given state and keeps the order of the rest; a state not queued changes no link; the walk ends |
| `StateQueues.WithoutCuts` | src/lchaux.c:68-89 | removal leaves what is before and behind the state in place |
| `Rendezvous.MaskTest` | src/lchaux.c:208-211 | the mask test on the head decides compatibility with every waiter at once |
| `Rendezvous.ChannelSync.HeadDecides` | src/lchaux.c:208-211 | in a one-sided queue the oldest compatible waiter is the head, or there is none, as the mask says |
| `Rendezvous.ChannelSync.JoinsUniform` | src/lchaux.c:208-228 | a newcomer that does not match is on the endpoint of all who wait |
| `Rendezvous.ChannelSync.MatchChSync` | src/lchaux.c:200-233 | with nobody compatible, as on an empty channel, the party is put at the end if `getstate` gives a state and else refused; with somebody it meets the head and nobody else leaves; all as the search of the reference has it |
| `Rendezvous.ChannelSync.Cancel` | src/lchannem.c:107-116 | withdraws exactly the given state, and tells whether it still waited |
| `Rendezvous.NoPartnersWait` | src/lchaux.c:200-233 | in every run two parties that could meet never both wait; all waiters are on one endpoint, and "any" waits alone |
| `Rendezvous.FirstComeFirstServed` | src/lchaux.c:200-233 | in every run the matched, then the waiting, are those who waited and did not withdraw, in the order they came; nobody is lost or matched twice |
| `Rendezvous.MatchTakesOldest` | src/lchaux.c:208-216 | in every run a newcomer meets the oldest waiter of all, or nobody |
| `Rendezvous.ComeMeans` | src/lchaux.c:200-233 | in every run any new party may come; what becomes of it and of the others, on an empty channel too |
| `Rendezvous.FirstComerIsMet` | src/lchaux.c:209-228 | the first to come to an empty channel waits, and is met by the next compatible party |
| `Rendezvous.WithdrawMeans` | src/lchannem.c:107-116 | in every run any waiter may withdraw, alone |
| `Rendezvous.StepKeepsInv` | src/lchaux.c:200-233 | every arrival and withdrawal keeps the one-sided queue and the order of service |
| `SwapValues.Swap` | src/lchaux.c:121-175 | each side ends with its base values, `true`, the other's arguments in order and their count, for all bases and counts and whoever brings more; a copy that fails at any point leaves `false`, a message and 2, on the side and with the message the code gives |
| `SwapValues.CopyLoop` | src/lchaux.c:134-157 | round by round both argument lists are exchanged in place; exactly how many copies succeed decides the outcome |
| `SwapValues.Turn` | src/lchaux.c:143-155 | one round puts the next argument of each side at its place on the other, or fails |
| `SwapValues.Unread` | src/lchaux.c:134-157 | writes never reach an argument not yet read |
| `SwapValues.Finish` | src/lchaux.c:159-174 | the surplus of the longer side follows in one block, and both results are completed |
| `SwapValues.PushErrFrom` | src/lchaux.c:108-119 | the failed side gets the message, its peer the number 2 in its place |
| `SwapValues.PeerTold` | src/lchaux.c:115-118 | so the peer learns of the failure only if the message happens to be the number 2 |
| `ChannelWaits.WakesBalance` | src/lchaux.c:177-198 | in every run `wakes` is the callbacks not yet run minus the matchers not yet counted, although the wake-up is sent first; 0 while a task is parked |
| `ChannelWaits.NoLostWakeUp` | src/lchaux.c:186-193 | a parked task with an undelivered wake-up always has a matcher still to count, which takes it out |
| `ChannelWaits.ParkRefusedForCause` | src/lchaux.c:340-350 | the worker keeps a task running exactly while wake-ups and counts differ |
| `ChannelWaits.ResumedOncePerPark` | src/lchaux.c:186-193 | each suspension is ended at most once |
| `ChannelWaits.OneWinner` | src/lchannem.c:107-145 | every wait that is over was either removed by its owner and never given values, or taken, given values and called back once; `handle` was cleared once |
| `ChannelWaits.OwnerTouchesOwnStateOnly` | src/lchannem.c:86-121 | the owner arms and restores the channel's state only while it is neither queued nor in a matcher's hands |
| `ChannelWaits.InUse` | src/lchannem.c:207 | "in use" exactly while the state is queued, in a matcher's hands or waiting for its callback |
| `ChannelWaits.WaitsStep` | src/lchannem.c:107-199 | every step moves at most one wait, one stage further or to its end |
| `ChannelWaits.WakesStep` | src/lchaux.c:177-198 | every step keeps the balance of `wakes` |
| `ChannelWaits.ArmMeans` | src/lchannem.c:154-199 | arming queues the channel's state, "in use", and begins a wait of its own |
| `ChannelWaits.OwnerMeans` | src/lchannem.c:107-145 | in every run, what canceling and the callback do to the wait, its tally and `wakes` |
| `ChannelWaits.MatcherMeans` | src/lchaux.c:212-216 | in every run, what taking and giving do; nothing is counted yet |
| `ChannelWaits.TaskMeans` | src/lchaux.c:186-193 | in every run a yielded task is parked exactly if `wakes` is 0, and a count takes it out |
| `ChannelWaits.WaitIsServed` | src/lchannem.c:123-199 | a wait can go all the way, and is then taken, given values and called back once |
| `ChannelCode.CallerIsParty` | src/lchannem.c:57-63 | the base and count both kinds of caller pass fit the layout the exchange needs |
| `ChannelCode.CallMatched` | src/lchannem.c:57-69 | a call that meets a waiter returns `true` and the waiter's arguments, and the count asserted on top is right |
| `ChannelCode.FailureChecked` | src/lchannem.c:161-188 | after a failure to arm, the assertion of the caller holds only for error -2 |
| `ChannelCode.EmptyChecked` | src/lchannem.c:224-231 | what `cancelsuspension` leaves satisfies it |
| `ChannelCode.LuaChannel.Restore` | src/lchannem.c:86-92 | the channel is free, with an empty stack and no registered wake-up |
| `ChannelCode.LuaChannel.ArmSynced` | src/lchannem.c:154-199 | either the arguments, base and count are on the channel's own stack and it is armed, or the channel is untouched and the caller has the reason |
| `ChannelCode.LuaChannel.CancelSynced` | src/lchannem.c:107-121 | a state still queued is restored; one already matched waits for its callback |
| `ChannelCode.LuaChannel.Matched` | src/lchaux.c:213-217 | the matcher leaves `true` and its own arguments on the channel, and gets those the channel was armed with |
| `ChannelCode.LuaChannel.ReturnSynced` | src/lchannem.c:94-105 | exactly the values received go to the coroutine; the asserted count is right; the channel is free again |
| `ChannelCode.LuaChannel.OnSynced` | src/lchannem.c:123-145 | one callback uncounts one wake-up and either returns the values or restores the channel canceled too late |
| `ChannelCode.ChannelTask.GetSuspendedTask` | src/lchaux.c:189-193 | takes the parked task, if any, and counts |
| `ChannelCode.ChannelTask.SuspendedChTask` | src/lchaux.c:340-350 | parks the task exactly when `wakes` is 0 |
| `SyncMaps.MappedIffUsed` | src/lchaux.c:292-337 | in every run a name is mapped exactly while it has a holder or a waiter, and its count is the number of holders |
| `SyncMaps.NoDanglingSync` | src/lchaux.c:292-337 | no holder's pointer is to a freed sync; holders share a sync exactly if they share the name |
| `SyncMaps.FreedOnlyUnused` | src/lchaux.c:320-337 | a sync is freed exactly by its last holder, with an empty queue |
| `SyncMaps.GetKeeps` | src/lchaux.c:292-318 | getting a sync keeps counts, pointers and distinct blocks |
| `SyncMaps.FreeKeeps` | src/lchaux.c:320-337 | so does giving one up |
| `SyncMaps.QueueStepKeeps` | src/lthpool.c:101-115 | and so does what a holder does to the queue in between |
| `SyncMaps.QueueMeans` | src/lchaux.c:200-233 | in every run a holder reaches the one queue of its name, and changes nothing else |
| `SyncMapCode.ChannelMap.GetChSync` | src/lchaux.c:292-318 | returns the block the map has for the name, with one reference more, or a new one; no other block changes |
| `SyncMapCode.ChannelMap.FreeChSync` | src/lchaux.c:320-337 | drops one reference, and the block with the last one if nobody waits |
| `SyncMapCode.ChannelMap.Open` | src/lchannem.c:267-271 | a holder keeps the name and the pointer it got |
| `SyncMapCode.ChannelMap.Close` | src/lchannem.c:44-52 | a holder gives up what it had |
| `SyncMapCode.PointerIsMapped` | src/lthpool.c:101-115 | in every run following a holder's pointer reaches the block mapped for its name |
| `PoolRuns.NoLostWakeUp` | src/lthpool.c:36-148 | in every run enough workers are woken or starting for the queue, and one more for an oversized pool, or all are; `threads == running + idle + starting` |
| `PoolRuns.PendingIsServed` | src/lthpool.c:49-87 | unless a creation failed, a sized pool never has a pending task with nobody up |
| `PoolRuns.SingleOwnership` | src/lthpool.c:67-139 | in every run a task is in one place at most, and `tasks`, `pending` and `running` count what they say |
| `PoolSteps.FirstQueuedFirstTaken` | src/lthpool.c:62-139 | first come, first served: in every run the tasks taken so far, then those in the queue, are those queued so far in that order |
| `PoolSteps.StepOrder` | src/lthpool.c:62-139 | every step takes from the front and queues at the end |
| `PoolSteps.SectionMeans` | src/lthpool.c:67-148 | what a worker section leaves as the worker brought it |
| `PoolSteps.LeavingMeans` | src/lthpool.c:75-83 | a worker leaves exactly if it is one too many or finds a closing pool out of work |
| `PoolSteps.TakingMeans` | src/lthpool.c:77-89 | else it takes exactly the first task of the queue, if there is one |
| `PoolSteps.SleepingMeans` | src/lthpool.c:83-87 | and else sleeps; a worker that does not leave wakes nobody |
| `PoolSteps.FarewellMeans` | src/lthpool.c:141-152 | whom a leaving worker wakes, and whom it joins |
| `PoolSteps.AddingMeans` | src/lthpool.c:49-65 | a task goes to the end of the queue; a sleeper is woken, or a thread created up to the size, exactly if too few workers are on their way |
| `PoolSteps.ResizingMeans` | src/lthpool.c:252-272 | how many threads a resize creates, and when it wakes a worker to leave |
| `PoolSteps.ClosingMeans` | src/lthpool.c:223-250 | the closer waits while threads are left, then takes the queue, closes, and destroys a pool without tasks |
| `PoolSteps.CollectingMeans` | src/lthpool.c:274-283 | one task less, wherever its state was closed; a closed pool is destroyed with its last |
| `PoolSteps.OutsideMeans` | src/lthpool.c:101-117 | tasks move outside the mutex without touching queue or counters |
| `PoolRuns.SuspendedCount` | src/lthpool.c:304-318 | what is reported as suspended is the tasks outside the pool less workers that already lost theirs |
| `PoolRuns.DestroyedOnce` | src/lthpool.c:209-250 | destroyed exactly when closed with no task, and once; every thread created is there, joined, or the one pending a join |
| `PoolRuns.CareMeans` | src/lthpool.c:223-283 | which steps the careful runs exclude: closing a sized pool with tasks left, and collecting the last task of a closing pool that sleeps |
| `PoolRuns.CarefulStep` | src/lthpool.c:40-148 | every careful step keeps a closing pool without tasks awake, and a closed one free of threads |
| `PoolRuns.DestroyFindsAllZero` | src/lthpool.c:209-221 | all that destruction asserts holds, and every thread was joined |
| `PoolRuns.DrainStep` | src/lthpool.c:71-87 | in a closing pool without tasks every worker section ends one thread, and nothing else changes their number |
| `PoolRuns.DrainMeasure` | src/lthpool.c:141-148 | so a run uses up one thread for every worker section |
| `PoolRuns.DrainProgress` | src/lthpool.c:223-232 | while threads are left one can go on; with none left the closer is woken and destroys the pool |
| `PoolRuns.ClosedPoolGrowsIffSized` | src/lthpool.c:49-61 | a pool shut with tasks can get a thread again if and only if its size is not 0 |
| `PoolRuns.DestroyedWithThread` | src/lthpool.c:49-61 | a run that destroys a pool with a thread in it |
| `PoolRuns.FinalizerStrandsIffAsleep` | src/lthpool.c:274-283 | taking the last task of a closing pool strands it if and only if no worker is up |
| `PoolRuns.StrandedCloser` | src/lthpool.c:274-283 | a run that strands the closer |
| `ThreadPools.WakeStep` | src/lthpool.c:36-155 | every critical section keeps the counters and enough workers awake |
| `ThreadPools.Conservation` | src/lthpool.c:67-139 | steps only move tasks, but for adding, ending and collecting one, which change `tasks` too |
| `ThreadPools.OwnedStep` | src/lthpool.c:67-139 | every step keeps single ownership |
| `ThreadPools.LifeStep` | src/lthpool.c:141-250 | every step keeps the account of threads, the closer's wake-up and the single destruction |
| `PoolCode.ThreadPool.CheckHaltedMx` | src/lthpool.c:40-45 | without tasks the size becomes 0 and all sleepers are woken |
| `PoolCode.ThreadPool.AddThreadMx` | src/lthpool.c:49-65 | wakes or creates a worker exactly if those on their way are too few; puts the task at the end of the queue unless closed |
| `PoolCode.ThreadPool.WorkerLoop` | src/lthpool.c:74-88 | a worker with the mutex ends, takes the first pending task, or goes to sleep, each exactly when it must, and reports which; the loop ends |
| `PoolCode.ThreadPool.ThreadMain` | src/lthpool.c:67-155 | from lock to unlock or wait, a worker does one step of the model; it reports to run, wait or end exactly when it took the first of the queue, joined the sleepers or left |
| `PoolCode.ThreadPool.EndThread` | src/lthpool.c:141-154 | leaving wakes another worker or the closer as needed, and joins the last one that left |
| `PoolCode.ThreadPool.ResumeTask` | src/lthpool.c:159-169 | the task is the last of the queue, exactly if the pool is not closed |
| `PoolCode.ThreadPool.AddPoolTask` | src/lthpool.c:285-302 | the task is the last of the queue and counted; the asserted success is certain |
| `PoolCode.ThreadPool.ResizePool` | src/lthpool.c:252-272 | creates threads by the growth of the size, up to the pending tasks if told so and up to the first failure, which it reports; or wakes a worker to leave |
| `PoolCode.ThreadPool.DestroyPool` | src/lthpool.c:209-221 | joins the last thread, and is called only with everything at zero |
| `PoolCode.ThreadPool.ShutPool` | src/lthpool.c:233-250 | closes the pool, takes its whole queue away, and destroys it if no task is left |
| `PoolCode.ThreadPool.ClosePool` | src/lthpool.c:223-250 | one turn of the closer: waits again while threads are left, else shuts the pool |
| `PoolCode.ThreadPool.CollectThreadPool` | src/lthpool.c:274-283 | uncounts one task, and destroys a closed pool with its last one |
| `OperationRuns.OneRow` | doc/devnotes.md:427-439 | in every run every operation is in exactly one row of the documented table: flags, continuation, callback owed |
| `OperationRuns.HandleCallbackIsExpected` | src/loperaux.c:451-470 | between callbacks an open handle is awaited or to be cleaned up, and the latter only for a channel wait |
| `OperationRuns.RestartsOnFreeUnion` | src/loperaux.c:262-286 | a coroutine waiting for its union is restarted only by the callback that frees it |
| `OperationRuns.ClosedOnce` | src/loperaux.c:202-223 | `uv_close` is called once for every handle armed, and its callback comes once for every close |
| `OperationRuns.CountersCount` | src/loperaux.c:182-208 | `nactive` counts the operations libuv owes a callback, `nasync` the open channel waits among them |
| `OperationRuns.SuspendsIffOnlyChannels` | src/loperaux.c:329-331 | the loop suspends its task exactly when something is outstanding and all of it is open channel waits |
| `OperationRuns.Anchored` | src/loperaux.c:365-449 | a coroutine is anchored exactly while THRSAVED is set or it has a handle; always while a callback is owed; never when freed and stopped |
| `OperationSteps.Table` | doc/devnotes.md:427-439 | the table by its columns: how flags, continuation and union go together in every run |
| `OperationSteps.LateCancelStaysOpen` | src/loperaux.c:233-242 | in every run a channel wait canceled after its match keeps its handle open until its own callback, which closes it |
| `OperationSteps.ResumeMeans` | src/loperaux.c:225-286 | an explicit resume leaves a channel wait already matched to its callback, and closes any other open handle |
| `OperationSteps.CallOnFreeMeans` | src/loperaux.c:244-260 | on a free union the await is armed and awaited, armed and canceled, or not armed |
| `OperationSteps.CallOnSameMeans` | src/loperaux.c:313-320 | an await of the open handle's kind goes on with it |
| `OperationSteps.CallInUseMeans` | src/loperaux.c:288-322 | any other await waits for the union, closing an open handle that is not to be cleaned up |
| `OperationSteps.LeaveMeans` | src/loperaux.c:397-470 | a coroutine that stops elsewhere leaves no other open handle and no anchor on a free union |
| `OperationSteps.FreedMeans` | src/loperaux.c:182-200 | the callback that frees the union resumes exactly a coroutine that awaits it |
| `OperationSteps.RestartMeans` | src/loperaux.c:262-286 | and starts the very await a coroutine waits to start |
| `OperationSteps.FiredMeans` | src/loperaux.c:451-470 | the callback of an open handle resumes who awaits it, and else closes it |
| `Operations.StepKeeps` | src/loperaux.c:182-470 | every call, resume and callback keeps an operation within the table and its accounts |
| `OperationCode.Operation.CloseHdl` | src/loperaux.c:202-208 | closes the handle, and uncounts a channel wait |
| `OperationCode.Operation.Cancel` | src/loperaux.c:210-223 | closes an open handle once; a request is left to its callback |
| `OperationCode.Operation.ArmCoReq` | src/loperaux.c:365-381 | an armed request is busy, anchored and counted; a failed one leaves the union free |
| `OperationCode.Operation.ArmCoHdl` | src/loperaux.c:434-449 | the same for a handle, and for `nasync` |
| `OperationCode.Operation.CheckReset` | src/loperaux.c:304-322 | free, same or to be waited for, closing what must be closed |
| `OperationCode.Operation.ResetCoReqK` | src/loperaux.c:350-363 | an await of a request is one step; the case asserted impossible is |
| `OperationCode.Operation.ResetCoHdlK` | src/loperaux.c:416-432 | an await of a handle is one step |
| `OperationCode.Operation.K_EndOp` | src/loperaux.c:225-242 | resumed by the loop, the results; by others, clean-up with the handle left open exactly if `cancel` answers 0, and else the handle is closed; pending without clean-up, as asserted |
| `OperationCode.Operation.ExplicitResume` | src/loperaux.c:225-286 | an explicit resume is one step; which handles it closes and uncounts, and which it leaves open |
| `OperationCode.Operation.OnRequest` | src/loperaux.c:383-409 | the callback of a request frees the union and resumes a pending coroutine |
| `OperationCode.Operation.OnHandle` | src/loperaux.c:451-470 | the callback of a handle resumes its coroutine or cleans up |
| `OperationCode.Operation.OnClosed` | src/loperaux.c:182-200 | the close callback frees the union, and restarts a coroutine that waits for it |
| `FileInfo.SystemFileInfo` | src/lfilef.c:635-654 | blocking or not, slot i is nil for a path that is no link and otherwise what the source of character i answers, about the link itself with `l`; or the error of the one-pass reference; sources are asked as it asks them |
| `FileInfo.SourceLoop` | src/lfilef.c:588-654 | the loop ends with base plus n slots, slot i with the value of character i, the base untouched, and the flags of the bits kept |
| `FileInfo.AskedOnce` | src/lfilef.c:563-584 | a source is asked once at most, and exactly if it is wanted and none before it failed |
| `FileInfo.AskedInOrder` | src/lfilef.c:563-584 | sources are asked in the fixed order |
| `FileInfo.SourceIs` | src/lfilef.c:474-521 | which characters belong to which source, as documented |
| `FileInfo.SwitchesAgree` | src/lfilef.c:366-402 | the switches that select sources and that push values agree on every character |
| `FileInfo.SlotsMean` | src/lfilef.c:429-472 | what the values of the one-pass reference are, slot by slot |
| `FileInfo.RefusedMeans` | src/lfilef.c:512-549 | a mode string is refused for its first character, behind the flags, without a source |
| `FileInfo.FailedMeans` | src/lfilef.c:563-602 | a call fails with the first wanted source that fails, and succeeds if none does |
| `FileInfo.LeadingFlags` | src/lfilef.c:523-538 | the flags are the leading ones, up to the first other character |
| `FileInfo.CheckInfoMode` | src/lfilef.c:523-552 | flags are the leading ones only, the needed bits are those of the characters' sources, and the offending character is the first |
| `FileInfo.CheckPrefixFlags` | src/lfilef.c:523-538 | counts the leading flags and sets just their bits |
| `FileInfo.MissingOne` | src/lfilef.c:554-561 | asking a source clears its bit, keeps the others and the flags, and names it as current |
| `FileInfo.GetInfoSrc` | src/lfilef.c:563-584 | takes the first source still needed, in the fixed order |
| `FileInfo.InfoStack.PlaceAt` | src/lfilef.c:419-427 | the top value goes to its slot, padding with nil above the top, and nothing else moves |
| `FileInfo.InfoStack.PushAnswer` | src/lfilef.c:434-470 | a value is pushed exactly for a character of the current source, and it is that character's |
| `FileInfo.InfoStack.PushFileInfo` | src/lfilef.c:429-472 | one pass places the values of its source and spoils none placed before, whatever stale copies it leaves |
| `FileInfo.InfoStack.Answered` | src/lfilef.c:588-602 | one answered source, with the bits kept in slot 3, adds its values to those placed |
| `FileInfo.InfoStack.Round` | src/lfilef.c:643-649 | one turn asks one source more and places it, or ends with its failure |
| `ProcEnv.Measure` | src/lprocesf.c:288-299 | counts exactly the bytes needed, or finds the first bad field |
| `ProcEnv.PutField` | src/lprocesf.c:306-310 | appends `name=value` and its NUL behind what is written |
| `ProcEnv.Fill` | src/lprocesf.c:301-314 | writes all the bytes counted and no more, with a pointer to each string and a final NULL |
| `ProcEnv.NewProcEnv` | src/lprocesf.c:282-315 | a table is packed exactly if every value is a string and no name has `=`; else the first bad name is reported |
| `ProcEnv.PackedMeans` | src/lprocesf.c:301-314 | the block: each pointer to `name=value` and its NUL, one string after the other without gaps, NULL at the end |
| `ProcEnv.UnpackEnv` | src/lprocesf.c:326-337 | assigns every packed pair in order, reading inside the block only |
| `ProcEnv.IntoLast` | src/lprocesf.c:330-335 | in the table unpacked into, a packed name has the value packed last |
| `ProcEnv.IntoOther` | src/lprocesf.c:326-335 | and any other name keeps what the given table had |
| `ProcEnv.MatchIs` | src/lprocesf.c:345-347 | the comparison finds the string of that very name, not of a longer or shorter one, and reads no byte beyond it |
| `ProcEnv.ProcEnvIndex` | src/lprocesf.c:340-352 | refuses a name with `=`, else answers the value of the first string of the name |
| `ProcEnv.FindFirst` | src/lprocesf.c:345-350 | of strings with the same name the first is found |
| `ProcEnv.RoundTrip` | src/lprocesf.c:282-337 | unpacking a packed table gives it back if and only if no string holds a NUL |
| `ProcEnv.LookupIsTable` | src/lprocesf.c:282-352 | indexing a packed table answers what the table held for every name, if and only if no string holds a NUL |
| `ProcEnv.RoundTripMeans` | src/lprocesf.c:282-337 | the round trip on the fields of the table: every name its value and no other name, if and only if without NUL |
| `ProcEnv.LookupMeans` | src/lprocesf.c:282-352 | the lookup on the fields of the table: every name its value and any other absent, if and only if without NUL |
| `ProcEnv.CutShort` | src/lprocesf.c:308-310 | a table with a NUL in a value that neither unpacking nor indexing gives back |

## Left out

- libuv, the operating system and the Lua VM themselves: they are the nondeterministic steps described above.
- Memory failures, but for copies that fail in an exchange and a channel that cannot be armed; so also the error returns of `lcuTP_createtpool` and `channel.create`.
- Lifetimes the locks do not protect: the channel name after its state was published (src/lthpool.c:115) and the `ChannelTask` after its wake-up was sent (src/lchaux.c:186-193).
- A worker's own bookkeeping of the task's stack around `lua_resume` (src/lthpool.c:91-120), but for the layout it passes to the exchange.
- `SwapValues.PushErrFrom`: the second copy, of the message to the peer, is taken to succeed; were it to fail its own message would be copied in its place.
- `Rendezvous.ChannelSync.MatchChSync`: keeps the queue as a sequence; the linked form is `StateQueues`.
- `ProcEnv.NewProcEnv`: field names are strings; a name of another type is not modelled, and a number stands for its text.
- `FileInfo.SystemFileInfo`: what a value looks like (numbers, permission letters) is left to `Data`, one value for each character and source.
- Closing a whole Lua state: `channelclose` on a channel still waited on, `channelmap_gc`, `terminateloop`.
- Userdata handles and userdata requests, and so their share of `nactive`; `uv_onrecvdata` clears `stop` at the end of a stream, and a handle read again would be counted twice.
- Overflow of the C counters, and fairness: that an enabled step is taken some time.
- Sockets, name resolution, standard streams, signals, process spawning, time, other file calls and system information: thin layers over libuv.
- Buffers, port parsing, netmask lengths and permission letters: correct but small. The modules written in Lua.
