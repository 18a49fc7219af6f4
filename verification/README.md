# FiberServer: verified models of its stateful core

FiberServer is a C++ artifact server built on its own coroutine scheduler. This project models
the parts whose correctness rests on state shared between threads, fibers and requests, and
proves what those parts promise, for all inputs and over whole runs. Nothing here executes the
server.

| files | what they model |
|---|---|
| SchedulerQueues, SchedulerCore | the global queue, the local queues, batch pulls and work stealing: functions on sequences, and the objects that cut the lists in place |
| SchedulerMachine, SchedulerLedger, SchedulerDrain, SchedulerFibers, SchedulerReady, SchedulerSteps, SchedulerBreaches | any number of workers in `run()`, one critical section per step, with entries in flight between locks; accounting, shutdown, READY fibers, each step's effect on the queues, fibers that switch out while they are already being woken, and what happens when the parking code breaks its discipline |
| FiberObjects | one fiber and one thread as objects, and that the scheduler makes no other state changes |
| ConnectionPool, PoolProtocol | the coroutine connection pool: callers, timeouts, returns and connections created outside the lock |
| FlatBytes, ByteArrays, Varints | the linked list of blocks as one flat byte sequence, its scatter and gather areas, and variable-length integers on top |
| TimerSet, TimerRuns, TimerManagers | the ordered timer set, its runs under any clock, and the object |
| FdEvents, EventLoop | event bits, waiter contexts, the pending counter and the kernel's interest set; runs, the dispatch loop, and the object |
| ArtifactStore, ArtifactRows, ArtifactSessions | the three artifact tables; the precheck, publish and delete transactions with the commit that MySQL brings about in the middle of them; the rows they add and remove; and the session that performs them |
| ArtifactJobs, ArtifactRuns, ArtifactFailures | the same requests statement by statement, any number of them interleaved: when the reference counts and the physical files survive, and runs in which they do not |
| Base64, Percent, QueryStrings | the codecs and the query parser |
| ChunkNames, Chunks, ChunkLeftovers | chunk file names, upload directories and merging, and directories with a merged file left behind |

A method that updates state is proved equal to a function of the old state, and the properties
are proved about that function: by independent descriptions of its result, by invariants that
every step keeps, and by theorems over every run. `Options` holds the option type.

## What is assumed and what the proofs found

* A critical section is one step. The state of fibers that a draw consults is the state at the
  start of its critical section.
* Memory does not run out, `epoll_ctl` fails only for the reasons the model names, and the
  clock, allocator addresses, directory order, file identifiers and failing statements are
  parameters of the operations.
* `popLocalTask` throws an entry away when its fiber is still EXEC
  (FiberServer/scheduler.cpp:226-228); such entries are counted as dropped. The shutdown
  theorem does not lean on `stopping()` being atomic, which it is not, but on the poll that
  every worker makes after its idle fiber has ended.
* No fiber is resumed twice only if a fiber with an outstanding wake-up parks with
  `YieldToHold`, registers one wake-up at a time, and only registered wake-ups are scheduled.
  Runs from the start whose first breach is one of these steps: `YieldToReady` puts the fiber on
  two workers (`SchedulerBreaches.ReadyWithWakeRunsTwice`); a second wake-up, a stray entry, or a
  callback that finishes with a wake-up outstanding fails the assertion in `swapIn`
  (`SecondWakeAborts`, `StrayEntryAborts`, `FinishWithWakeAborts`). For a fiber that is not a
  callback's, the clause on finishing is used by the proof and not shown to be needed.
* A failed connection attempt lets a newcomer pass a parked waiter
  (`PoolProtocol.FailedCreationLetsNewcomerPass`).
* `read` of zero bytes with the position exactly at capacity dereferences a null cursor. The
  model returns `NullCursor` there, and exactly there.
* A dispatch of both directions after one of them was cancelled fails an assertion
  (`EventLoop.StaleReportCrashes`); registering an event twice fails one in `addEvent`, after an
  error line in the log that reads as if the call went on.
* No deadline slips under a steady clock. Under any clock one slips exactly at a refresh by a
  clock that has gone back, or at a rollover that re-arms a recurring timer before the reported
  deadline (`TimerRuns.StepExact`, `TimerRuns.RolloverSafeExact`); `TimerRuns.RolloverCanMiss` is
  such a run. A timer with an empty callback stays in the set, and cancel, refresh and reset
  refuse it (`TimerSet.EmptyCallbackStays`).
* `EnsureArtifactTable` runs `CREATE TABLE IF NOT EXISTS` on the session of an open transaction
  (FiberServer/my/mysqlop_soci.cpp:410-443), and MySQL commits before such a statement (MySQL
  Reference Manual, "Statements That Cause an Implicit Commit"). The increment or the new rows of
  an upload are durable before its artifact is inserted, every statement of a delete commits by
  itself, and a later `rollback` restores nothing. A failed upload leaves the tables alone
  exactly when it fails before that point (`ArtifactStore.ShareUndone`, `PublishUndone`), an
  aborted delete exactly when it does not reach its first DELETE (`DeleteUndone`). Two uploads of
  different bytes that race to one coordinate leave a reference without an artifact, and no
  statement has to fail for it (`ArtifactFailures.RefusedUploadStrandsCount`).
* A delete looks the artifact up outside its transaction, and a precheck reads a file's name
  outside its own. Two deletes of one coordinate, or a delete that overtakes a precheck, erase a
  file that another artifact names (`ArtifactFailures.TwoDeletesLoseFile`,
  `DeleteOvertakesShare`).
* Reusing a file that the project already has adds an artifact without a reference, so that a
  later delete erases a file still in use, without any race (`ArtifactFailures.ReuseLosesFile`).
* A build without a version does not show in a file row's name, so two such builds share their
  rows, and deleting one removes those of both (`ArtifactRows.SharedNameExact`,
  `BuildsWithoutVersionShareRows`).
* The counts, the files and what the requests under way owe stay in order along a run exactly
  when no statement is one of those that `ArtifactRuns.Harms` lists (`ArtifactRuns.StepExact`,
  `ArtifactRuns.RunExact`).
* The table of unreserved characters holds `=`, although the comment above it does not list
  it (FiberServer/base/util.cpp:547-592). The model follows the table, so query parameters come
  back exactly when no key contains `=`.
* A merged file left in an upload directory counts as a chunk when its checksum starts like a
  number v. The directory then counts as ready exactly when one slice is missing, and the merge
  glues slice v in twice and leaves the missing one out; that is the data exactly when all slices
  from the one to the other are equal (`ChunkLeftovers.LeftoverExact`, `LeftoverMerges`). A failed
  last upload and the clean-up of old files lead there (`LeftoverMergesWrong`).
* A write that is cut short leaves a chunk that counts as present. `Chunks.AnyOrderRestores` says
  exactly which saves have to be whole.

## Model

| member | source | states |
|---|---|---|
| SchedulerQueues.PopLocalExact | FiberServer/scheduler.cpp:209-233 | a local draw cuts the queue into a busy prefix that is dropped, the entry returned, and an untouched tail; an unsuccessful one empties it |
| SchedulerQueues.PopGlobalExact | FiberServer/scheduler.cpp:235-310 | a pull returns the first eligible entry and the movable entries of a stretch right behind it, in order; one entry leaves the queue, or at most half of them, and the stretch ends early only when that many have left; everything else keeps its place; when other workers are woken |
| SchedulerQueues.PopGlobalNone | FiberServer/scheduler.cpp:245-294 | an unsuccessful pull leaves the queue alone, what is left is pinned elsewhere or busy, and others are woken exactly for an entry pinned elsewhere |
| SchedulerQueues.PopGlobalMembers | FiberServer/scheduler.cpp:253-285 | eligible and movable in terms of threads and fiber states |
| SchedulerQueues.StealExact | FiberServer/scheduler.cpp:337-378 | a steal takes the movable entries of a youngest stretch, youngest first: one, or at most half of the queue, and it stops before the oldest entry only when that many have left; the others keep their order |
| SchedulerQueues.StealMembers | FiberServer/scheduler.cpp:347-365 | the loot holds only movable entries of the victim and is empty only when the victim has none |
| SchedulerQueues.PopLocalBag | FiberServer/scheduler.cpp:209-233 | a local draw neither loses nor copies an entry |
| SchedulerQueues.PopGlobalBag | FiberServer/scheduler.cpp:235-310 | a pull neither loses nor copies an entry |
| SchedulerQueues.TakeYoungestBag | FiberServer/scheduler.cpp:337-378 | a steal neither loses nor copies an entry |
| SchedulerCore.Processor.PopLocalTask | FiberServer/scheduler.cpp:209-233 | the loop on the list yields the entry and the rest that the function on sequences yields |
| SchedulerCore.Processor.GiveUp | FiberServer/scheduler.cpp:337-363 | the backward walk that erases stolen entries in place yields exactly the loot and what is left |
| SchedulerCore.Scheduler.ScheduleNoLock | FiberServer/scheduler.h:177-207 | an entry without fiber and callback is refused and changes nothing; an unpinned entry of a worker goes to the end of its own queue, any other to the end of the global queue; one counter moves, nothing else does; when to tickle |
| SchedulerCore.Scheduler.CutBatch | FiberServer/scheduler.cpp:245-294 | the critical section of a pull, with its cursor that erases while it walks, is the function on sequences |
| SchedulerCore.Scheduler.MoveBatch | FiberServer/scheduler.cpp:274-291 | the inner loop takes exactly the movable entries up to the limit, in order, and reports whether something was left behind |
| SchedulerCore.Scheduler.PopGlobalTask | FiberServer/scheduler.cpp:235-310 | the whole pull: the entry, the batch appended to the puller's queue, and the counters |
| SchedulerCore.Scheduler.StealTask | FiberServer/scheduler.cpp:312-383 | the whole steal: it fails exactly when no other processor has a movable entry; otherwise the victim is the first one in the rotation that has any, it loses its loot, the thief gains it in order, all other queues stay as they are |
| SchedulerCore.RotationReaches | FiberServer/scheduler.cpp:330-335 | the rotation over victims reaches every processor |
| SchedulerCore.Scheduler.ProcessorQueuesEmpty | FiberServer/scheduler.cpp:385-393 | true exactly when every local queue is empty |
| SchedulerLedger.LedgerKept | FiberServer/scheduler.cpp:395-522 | every step of every worker keeps the accounting, the ownership of processors and the affinity of entries; what the steps do to the queues is stated in SchedulerSteps and SchedulerReady |
| SchedulerLedger.TaskConservation | FiberServer/scheduler.h:177-220 | in every run the scheduling counters equal queued plus in flight plus executed plus dropped, and the entries themselves agree as bags |
| SchedulerLedger.CountersAgree | FiberServer/scheduler.cpp:432-453 | with no draw under way, executions are local plus global plus stolen, and the batch, attempt and failure counters agree |
| SchedulerLedger.DistinctProcessors | FiberServer/scheduler.cpp:192-207 | in every run the workers that entered run() have distinct processors, exactly those below the round-robin cursor, which counts them |
| SchedulerLedger.ActiveNeverUnderflows | FiberServer/scheduler.cpp:451-502 | m_activeThreadCount is the number of workers between draw and return, and no decrement meets zero |
| SchedulerLedger.ThreadAffinity | FiberServer/scheduler.h:190-206 | no pinned entry is ever in a local queue, and a worker only draws entries it may run |
| SchedulerSteps.EnqueueQueues | FiberServer/scheduler.h:177-224 | an unpinned entry of a worker goes to the end of its own queue unless it is forced onto the global one, any other to the end of the global queue; one counter moves |
| SchedulerSteps.DrawLocalQueues | FiberServer/scheduler.cpp:209-233 | a local draw drops the busy entries in front and takes the next one; only the own queue changes |
| SchedulerSteps.PullAlone | FiberServer/scheduler.cpp:235-310 | the two steps of a pull, with nothing in between, leave the queues and counters of the function: the batch is at the end of the own queue |
| SchedulerSteps.StealAlone | FiberServer/scheduler.cpp:312-383 | the steps of a steal, with nothing in between, try the processors in rotation and rob the first one with anything movable, or have tried all and found nothing |
| SchedulerSteps.ChosenDecides | FiberServer/scheduler.cpp:461-496 | an entry of an ended fiber is skipped and never resumed, any other is never skipped; which fiber runs it |
| SchedulerSteps.IdleDecides | FiberServer/scheduler.cpp:499-512 | a worker without a task leaves exactly when its idle fiber has ended, and scans the local queues exactly when stop was asked for, nobody is active and the global queue is empty |
| SchedulerSteps.StopAlone | FiberServer/scheduler.cpp:385-393 | the scan ends the idle fiber exactly when every local queue is empty, and stops at the first that is not |
| SchedulerSteps.FlagsExact | FiberServer/scheduler.cpp:66-103 | in every run the two stop flags are up exactly as start() and stop() left them, and m_stopping is raised after m_autoStop |
| SchedulerReady.SettleQueues | FiberServer/scheduler.cpp:466-489 | back in run(), a READY fiber goes to the end of the worker's own queue as one unpinned entry; no other fiber is queued and no other queue moves |
| SchedulerReady.SettleStates | FiberServer/scheduler.cpp:466-496 | a finished callback fiber is INIT again and kept, any other finished fiber stays as it is, a parked one becomes HOLD |
| SchedulerReady.ReadyIsQueued | FiberServer/scheduler.cpp:466-489 | in every run a READY fiber that no worker has is queued or in flight, and in a disciplined run as exactly one entry |
| SchedulerDrain.DrainKept | FiberServer/scheduler.cpp:395-546 | every step keeps the shutdown argument: who may still enqueue, and who still has to poll |
| SchedulerDrain.DrainedAtShutdown | FiberServer/scheduler.cpp:412-517 | once the workers have left run(), every local queue is empty and the global queue holds no unpinned entry enqueued by a worker or before stop() |
| SchedulerFibers.FibersKept | FiberServer/fiber.cpp:104-142 | under the wake-up discipline every step keeps: one wake-up per fiber, and an entry that is not busy belongs to a fiber nobody holds |
| SchedulerFibers.NoDoubleResume | FiberServer/scheduler.cpp:461-496 | in disciplined runs no two workers are ever inside the same fiber |
| SchedulerFibers.SwapInNeverAborts | FiberServer/fiber.cpp:104-111 | in disciplined runs the assertion in swapIn holds whenever a worker gets there |
| SchedulerBreaches.ReadyWithWakeRunsTwice | FiberServer/fiber.cpp:130-142 | a run from the start, disciplined until a fiber yields READY with a wake-up queued: two workers end up inside the fiber |
| SchedulerBreaches.SecondWakeAborts | FiberServer/fiber.cpp:104-111 | the same for a second wake-up registered while one is queued: the assertion in swapIn fails |
| SchedulerBreaches.StrayEntryAborts | FiberServer/fiber.cpp:104-111 | the same for an entry scheduled without a registered wake-up |
| SchedulerBreaches.FinishWithWakeAborts | FiberServer/scheduler.cpp:476-498 | the same for a callback that finishes with a wake-up outstanding: its fiber is kept for the next callback and resumed by the wake-up, so the next callback meets it EXEC |
| FiberObjects.Fiber.Reset | FiberServer/fiber.cpp:65-75 | reset succeeds exactly for a task fiber that is INIT, TERM or EXCEPT, and leaves INIT and the new callback |
| FiberObjects.Fiber.Finish | FiberServer/fiber.cpp:146-166 | the end of a fiber: TERM with the callback cleared, or EXCEPT with it kept |
| FiberObjects.Fiber.Settle | FiberServer/scheduler.cpp:466-473 | back in run(): READY is scheduled again, a finished fiber stays finished, anything else becomes HOLD |
| FiberObjects.Thread.SwapIn | FiberServer/fiber.cpp:104-111 | the fiber becomes current and EXEC; the assertion holds exactly when it was not EXEC |
| FiberObjects.Thread.YieldToReady | FiberServer/fiber.cpp:130-135 | READY before the switch; the assertion holds exactly when it was EXEC |
| FiberObjects.Thread.YieldToHold | FiberServer/fiber.cpp:136-142 | the state stays EXEC across the switch |
| FiberObjects.StatesFollowFiber | FiberServer/fiber.cpp:65-175 | in disciplined runs every step of the scheduler does to every fiber exactly the operation of Fiber it stands for, with its assertion satisfied, or nothing |
| ConnectionPool.PoolState.TakeOrWait | FiberServer/db/soci_db.cpp:99-183 | the first critical section of get: reuse, create, refuse or wait, in that order of preference |
| ConnectionPool.PoolState.OnTimeout | FiberServer/db/soci_db.cpp:127-154 | the statements of the timeout callback do what TimeOutExact says |
| ConnectionPool.LimitExact | FiberServer/db/soci_db.cpp:316-321 | max_conn decides, else the older setting, else 30, and never below one |
| ConnectionPool.GetExact | FiberServer/db/soci_db.cpp:99-127 | the oldest idle connection, else a free slot, else a refusal for a zero timeout or outside a fiber, else a place at the end of the list, with a timer exactly for a positive timeout |
| ConnectionPool.TimeOutExact | FiberServer/db/soci_db.cpp:127-154 | a wait that is not over ends: out of the list, done, timed out, a wake-up owed; everybody else keeps place and state, and a waiter that is done changes nothing |
| ConnectionPool.FreeExact | FiberServer/db/soci_db.cpp:251-276 | for any list: done waiters at its head are passed over, the first other one gets the connection, else it goes to the end of the idle ones |
| ConnectionPool.ResumeExact | FiberServer/db/soci_db.cpp:157-178 | the fiber goes on with the connection it was handed, or out of the list without one; nobody else changes |
| ConnectionPool.PoolState.FreeSoci | FiberServer/db/soci_db.cpp:251-276 | the loop over waiters hands the connection to the first that is not done, or puts it back |
| ConnectionPool.PoolState.AfterResume | FiberServer/db/soci_db.cpp:164-178 | after the wait: the connection, or the waiter is closed |
| PoolProtocol.StepKeeps | FiberServer/db/soci_db.cpp:99-277 | every step of callers, timeouts, returns and creations keeps the pool invariant |
| PoolProtocol.FreeIsDirect | FiberServer/db/soci_db.cpp:256-268 | a listed waiter is never done, so the skip branch is unreachable and the first waiter gets the connection |
| PoolProtocol.PoolConservation | FiberServer/db/soci_db.cpp:99-198 | in every run totalCount is idle plus held plus handed over plus being created, never above the limit, and no connection is in two places |
| PoolProtocol.EndedOnce | FiberServer/db/soci_db.cpp:113-178 | a waiter is listed exactly while it is not done, is ended by a hand-off or a timeout but not both, is scheduled at most once, and holds no connection after a timeout |
| PoolProtocol.ExpireEnds | FiberServer/db/soci_db.cpp:127-154 | in every run, when a waiter's timer fires its wait is over and it is in no list: by the timeout, without a connection and with one wake-up owed, unless it was over before |
| PoolProtocol.OwedIsScheduled | FiberServer/db/soci_db.cpp:148-152 | a wake-up that is owed can be made, and is then made once |
| PoolProtocol.ResumedOnce | FiberServer/db/soci_db.cpp:157-178 | a waiter resumed by the pool was ended by exactly one party and scheduled exactly once |
| PoolProtocol.HandOffsInOrder | FiberServer/db/soci_db.cpp:254-272 | hand-offs follow the order of arrival |
| PoolProtocol.OvertakingExact | FiberServer/db/soci_db.cpp:101-120 | while someone waits nothing is idle, and a newcomer is served exactly when a slot is free, which needs a failed creation |
| PoolProtocol.FailedCreationLetsNewcomerPass | FiberServer/db/soci_db.cpp:192-196 | a concrete run in which a failed creation lets a newcomer pass a parked waiter |
| ByteArrays.ByteArray.constructor | FiberServer/net/bytearray.cpp:30-38 | a new array is valid and empty with one block |
| ByteArrays.ByteArray.AddCapacity | FiberServer/net/bytearray.cpp:531-560 | room for n bytes after the position, in whole blocks and no more than needed; the old bytes, the position and the size stay; a null cursor is repaired |
| ByteArrays.ByteArray.Write | FiberServer/net/bytearray.cpp:377-410 | write overwrites the flat bytes [position, position+n), growing them, for every block size from 1; the block invariant holds and no null block is used |
| ByteArrays.ByteArray.Read | FiberServer/net/bytearray.cpp:412-439 | read returns the flat slice and moves past it; it throws exactly past the end, and meets a null cursor exactly for zero bytes at capacity |
| ByteArrays.ByteArray.SetPosition | FiberServer/net/bytearray.cpp:471-487 | any position up to capacity is accepted, the bytes stay, the size grows to it, the cursor is right again |
| ByteArrays.ByteArray.Clear | FiberServer/net/bytearray.cpp:363-375 | an empty valid array of one block |
| ByteArrays.ByteArray.GetReadBuffers | FiberServer/net/bytearray.cpp:589-619 | the areas, in order the blocks' own memory, together hold exactly the next bytes to read, at most what there is |
| ByteArrays.ByteArray.GetWriteBuffers | FiberServer/net/bytearray.cpp:621-649 | after growing, the areas are exactly the memory of the flat stretch behind the position |
| ByteArrays.ByteArray.Offset | FiberServer/net/bytearray.cpp:383-384 | the offset in the current block is position modulo block size, and the cursor is null exactly at capacity |
| FlatBytes.JoinOverwrite | FiberServer/net/bytearray.cpp:387-403 | writing inside one block is writing the flat sequence at the matching place |
| FlatBytes.JoinSlice | FiberServer/net/bytearray.cpp:420-438 | reading inside one block is reading the flat sequence at the matching place |
| Varints.LebRoundTrip | FiberServer/net/bytearray.cpp:142-151 | unsigned LEB128 (DWARF 5, section 7.6): the bytes mean the value, and a reader stops right after them |
| Varints.LebLength | FiberServer/net/bytearray.cpp:144-151 | a value below 128^k takes at most k bytes, so the 5 and 10 byte buffers are never overrun |
| Varints.LowBitsFirst | FiberServer/net/bytearray.cpp:142-167 | the low seven bits come first (DWARF 5, section 7.6) |
| Varints.Emit | FiberServer/net/bytearray.cpp:142-167 | the shifting loop fills its buffer with exactly the LEB128 bytes and stays inside it |
| Varints.WriteUint | FiberServer/net/bytearray.cpp:142-167 | the encoding overwrites the flat bytes at the position |
| Varints.ReadUint | FiberServer/net/bytearray.cpp:287-317 | for any data: the value of the group read modulo the width, bytes consumed exactly, at most 5 or 10; an exception exactly when the data end first |
| Varints.ZigzagRoundTrip | FiberServer/net/bytearray.cpp:113-135 | with two's-complement wrap: the code is 2v or -2v-1, and decoding gives v, the least value included |
| Varints.ZigzagOnto | FiberServer/net/bytearray.cpp:129-135 | every unsigned value is the code of the value it decodes to |
| Varints.RangesExact | FiberServer/net/bytearray.cpp:138-167 | the four types' ranges and buffer sizes in numbers |
| Varints.WriteAll | FiberServer/net/bytearray.cpp:138-167 | typed values written in turn overwrite with their encodings joined |
| Varints.ReadAll | FiberServer/net/bytearray.cpp:283-317 | reading the same kinds where encodings lie gives the values back |
| Varints.RoundTrip | FiberServer/net/bytearray.cpp:138-167 | for every list of 32 and 64 bit values, block size and position: write, rewind, read gives the same values and consumes exactly the bytes written |
| TimerSet.LessIsTotalOrder | FiberServer/time.cpp:5-24 | the comparator is a strict total order, null pointers included |
| TimerSet.LessExact | FiberServer/time.cpp:5-24 | null pointers first, then the earlier deadline, then the lower address |
| TimerSet.ExpiredExact | FiberServer/time.cpp:144-180 | exactly the timers that are due are handed out, in order, whatever the sentinel's address; exactly the recurring ones are back, due at now plus their interval; all others are untouched; after a rollover all are due |
| TimerSet.BoundExact | FiberServer/time.cpp:161-165 | the bound search with a sentinel plus the skip stops exactly behind the due timers |
| TimerSet.RearmExact | FiberServer/time.cpp:170-179 | the loop over expired timers changes each of them once and keeps the set ordered |
| TimerSet.DeadlineExact | FiberServer/time.cpp:31-31 | a deadline is at least its interval exactly when the sum does not wrap |
| TimerSet.AddKeeps | FiberServer/time.cpp:97-115 | the timer is armed at now plus its interval, as a word, and the rest stays; who is notified; the invariant survives exactly when there is a callback and the sum does not wrap |
| TimerSet.EmptyCallbackStays | FiberServer/time.cpp:37-88 | a timer without a callback is in the set after addTimer, and cancel, refresh and reset refuse it and change nothing |
| TimerSet.CancelKeeps | FiberServer/time.cpp:37-50 | cancel succeeds exactly for a live timer in the set, clears its callback and takes it out; every other timer stays as it is |
| TimerSet.RefreshKeeps | FiberServer/time.cpp:51-64 | refresh succeeds exactly for a live timer in the set, restarts its interval at now, and notifies nobody; the invariant survives exactly when the sum does not wrap |
| TimerSet.ResetKeeps | FiberServer/time.cpp:65-88 | reset takes the old start or now as words, and under the invariant the old start is not below zero; it answers true for an unchanged interval even of a dead timer; the invariant survives exactly when the sum does not wrap |
| TimerSet.NextTimerExact | FiberServer/time.cpp:129-142 | the wait is zero exactly when a timer is due; otherwise no deadline is before its end and one is at it |
| TimerRuns.DeadlinesNeverMissed | FiberServer/time.cpp:97-142 | in every run under a steady clock: in the set exactly while live, next at least the interval, and either somebody was notified or no deadline is before the one last reported; at most one notification more than looks |
| TimerRuns.StepExact | FiberServer/time.cpp:51-180 | under any clock every operation keeps the set in order, and it lets a deadline slip before the reported one unannounced exactly at a refresh by a clock gone back or a rollover that re-arms too early |
| TimerRuns.RunSafeExact | FiberServer/time.cpp:51-180 | a whole run under any clock is safe all along exactly when none of its steps is such a miss |
| TimerRuns.RolloverSafeExact | FiberServer/time.cpp:157-174 | after a rollover the last report stays good exactly when somebody was told already or every recurring interval reaches the reported deadline |
| TimerRuns.StaysSilent | FiberServer/time.cpp:170-179 | a cancelled timer, or one that fired its only time, is never listed again, whatever the clock does |
| TimerRuns.CancelSilences | FiberServer/time.cpp:37-50 | no run after a cancel lists the timer |
| TimerRuns.OneShotFiresOnce | FiberServer/time.cpp:176-178 | a timer that does not recur is listed at most once in any run |
| TimerRuns.RolloverExact | FiberServer/time.cpp:187-195 | with its unsigned subtraction, the rollover test fires exactly for a step back of more than 3600000 ms, or of anything within the clock's first hour |
| TimerRuns.SmallStepBackFiresNothingEarly | FiberServer/time.cpp:144-180 | a step back of at most an hour makes no timer fire before its deadline |
| TimerRuns.RolloverCanMiss | FiberServer/time.cpp:157-174 | a run from the start in which a rollover leaves a timer due before the reported deadline with nobody notified |
| TimerManagers.TimerManager.AddTimer | FiberServer/time.cpp:97-115 | the object's state and notification are those of the specification |
| TimerManagers.TimerManager.CancelTimer | FiberServer/time.cpp:37-50 | likewise for cancel |
| TimerManagers.TimerManager.RefreshTimer | FiberServer/time.cpp:51-64 | likewise for refresh, with the erase before the deadline changes |
| TimerManagers.TimerManager.ResetTimer | FiberServer/time.cpp:65-88 | likewise for reset, with the notification |
| TimerManagers.TimerManager.GetNextTimer | FiberServer/time.cpp:129-142 | likewise for getNextTimer |
| TimerManagers.TimerManager.ListExpiredCb | FiberServer/time.cpp:144-180 | the loops hand out exactly the callbacks of the timers the specification lists, and leave its state |
| FdEvents.AddExact | FiberServer/iomanager.cpp:140-187 | addEvent is always legal for the kernel, fails only when the kernel refuses, and fails its assertion exactly when the event is registered already |
| FdEvents.DelExact | FiberServer/iomanager.cpp:188-220 | delEvent succeeds exactly for a registered event, and drops its waiter |
| FdEvents.CancelExact | FiberServer/iomanager.cpp:221-251 | cancelEvent succeeds exactly for a registered event, and schedules its waiter |
| FdEvents.CancelAllExact | FiberServer/iomanager.cpp:252-288 | cancelAll schedules every waiter of the fd and leaves no event |
| FdEvents.DispatchExact | FiberServer/iomanager.cpp:354-398 | a dispatch schedules exactly the waiters among the reported events, and crashes exactly when one reported event is registered and another is not |
| FdEvents.FinishExact | FiberServer/iomanager.cpp:76-92 | triggering schedules the event's one waiter and empties its context; the assertion holds exactly for a set bit |
| FdEvents.GrownKeeps | FiberServer/iomanager.cpp:131-152 | growing to one and a half times the fd, rounded down, makes room for it and registers nothing |
| EventLoop.InitialHolds | FiberServer/iomanager.cpp:93-120 | the table starts with 32 empty contexts, in agreement |
| EventLoop.StepKeeps | FiberServer/iomanager.cpp:140-398 | a disciplined operation never crashes and keeps bits, contexts, counter and kernel in agreement |
| EventLoop.BooksBalance | FiberServer/iomanager.cpp:140-398 | in every reachable state: bit set exactly with scheduler and one waiter, kernel interest equals the bits, counter equals their number, and each registration is waiting, scheduled once or deleted |
| EventLoop.LoopKeeps | FiberServer/iomanager.cpp:354-398 | whatever epoll reports, a round of the loop that does not crash keeps the agreement |
| EventLoop.StaleReportCrashes | FiberServer/iomanager.cpp:389-396 | a report of both directions after one was cancelled fails the assertion |
| EventLoop.IOManager.RegisterEvent | FiberServer/iomanager.cpp:140-187 | the statements of addEvent on the object do what the specification says |
| EventLoop.IOManager.RemoveEvent | FiberServer/iomanager.cpp:188-220 | likewise for delEvent |
| EventLoop.IOManager.Cancel | FiberServer/iomanager.cpp:221-251 | likewise for cancelEvent |
| EventLoop.IOManager.CancelEverything | FiberServer/iomanager.cpp:252-288 | likewise for cancelAll |
| EventLoop.IOManager.TriggerEvent | FiberServer/iomanager.cpp:76-92 | likewise for triggerEvent, the waiter swapped out of its context |
| EventLoop.IOManager.DispatchLoop | FiberServer/iomanager.cpp:354-398 | the loop over the reports is the rounds one after another, stopping at a failed assertion |
| ArtifactStore.PrecheckKeepsArtifacts | FiberServer/my/mysqlop_soci.cpp:442-476 | no precheck changes an artifact that is there, whatever fails |
| ArtifactStore.PublishKeepsArtifacts | FiberServer/my/mysqlop_soci.cpp:442-476 | no publish changes an artifact that is there, whatever fails |
| ArtifactStore.AnswersExact | FiberServer/servlets/upload_servlet.cpp:71-136 | a precheck that runs alone: after a success answer the coordinate holds the declared checksum, after a conflict another one; any other answer leaves the tables, but a share that fails behind its commit point does not |
| ArtifactStore.PublishAnswers | FiberServer/servlets/dirupload_servlet.cpp:132-160 | a publish that runs alone: success puts the checksum at the coordinate and one reference on a file that was not shared; a failure leaves the tables exactly when it comes before the commit point |
| ArtifactStore.ShareUndone | FiberServer/servlets/upload_servlet.cpp:112-134 | a failed share leaves the tables alone exactly when it fails before the commit that CREATE TABLE brings about |
| ArtifactStore.PublishUndone | FiberServer/my/mysqlop_soci.cpp:410-446 | likewise for a failed publish |
| ArtifactStore.DeleteUndone | FiberServer/my/mysqlop_soci.cpp:509-530 | an aborted delete leaves the tables alone exactly when it does not reach its first DELETE |
| ArtifactStore.DeleteTakesOne | FiberServer/servlets/deletefile_servlet.cpp:54-98 | a delete that runs alone takes out its own coordinate and no other, exactly when its first DELETE is reached, whatever it answers; success is never answered without it |
| ArtifactStore.PrecheckExact | FiberServer/servlets/upload_servlet.cpp:71-136 | a precheck that runs alone keeps the reference counts exactly when it is not one of the cases of Breaks: the reuse branch, a committed reference that no artifact follows, a failed lookup of the name |
| ArtifactStore.PublishExact | FiberServer/servlets/dirupload_servlet.cpp:132-160 | a publish that runs alone keeps the reference counts exactly when it fails before the commit point or its artifact lands |
| ArtifactStore.DeleteExact | FiberServer/servlets/deletefile_servlet.cpp:54-98 | a delete that runs alone keeps the reference counts exactly when it does not stop short behind its first DELETE, and asks for the physical file exactly when no artifact carries it any more |
| ArtifactRows.StorageNameParts | FiberServer/my/artifact_metadata.h:55-65 | the parts of a storage name between its slashes are version, build and name, without a build for an empty one, and the name alone without a version |
| ArtifactRows.SharedNameExact | FiberServer/my/artifact_metadata.h:55-65 | two coordinates share a storage name exactly when name and version agree, and the build unless there is no version |
| ArtifactRows.WithoutExact | FiberServer/my/mysqlop_soci.cpp:324-340 | every row of the owner and name goes, every other stays as often as it was there |
| ArtifactRows.WithoutInOrder | FiberServer/my/mysqlop_soci.cpp:324-340 | and keeps its order |
| ArtifactRows.DeleteRows | FiberServer/servlets/deletefile_servlet.cpp:69-79 | a delete removes exactly the rows under its coordinate's name in its project, once it gets so far, and never adds one |
| ArtifactRows.DeleteKeepsOthers | FiberServer/servlets/deletefile_servlet.cpp:69-79 | the rows of another coordinate stay, unless the two share a name |
| ArtifactRows.BuildsWithoutVersionShareRows | FiberServer/my/artifact_metadata.h:58-60 | two builds without a version share their rows, and deleting one removes those of both |
| ArtifactRows.PublishAddsRow | FiberServer/servlets/dirupload_servlet.cpp:139-150 | a publish that commits adds one row with checksum, file, project and name; any other adds none |
| ArtifactRows.PrecheckAddsRow | FiberServer/servlets/upload_servlet.cpp:112-124 | a precheck adds one row exactly when it shares a file and commits that |
| ArtifactRows.PrecheckDecides | FiberServer/servlets/upload_servlet.cpp:71-136 | the answer of every precheck, in artifact mode and out of it |
| ArtifactRows.PublishDecides | FiberServer/servlets/dirupload_servlet.cpp:132-160 | a publish succeeds exactly when no statement fails, the checksum is new and the coordinate accepts it |
| ArtifactRows.DeleteDecides | FiberServer/servlets/deletefile_servlet.cpp:54-98 | when a delete finds nothing, is aborted, or is done, and when it asks for the physical file |
| ArtifactJobs.PrecheckAlone | FiberServer/servlets/upload_servlet.cpp:71-136 | the statements of a precheck, with nothing in between, are the transaction of ArtifactStore, for every combination of failures |
| ArtifactJobs.PublishAlone | FiberServer/servlets/dirupload_servlet.cpp:132-160 | likewise for a publish |
| ArtifactJobs.DeleteAlone | FiberServer/servlets/deletefile_servlet.cpp:54-98 | likewise for a delete, its lookup included |
| ArtifactJobs.AskExact | FiberServer/servlets/dirupload_servlet.cpp:75-118 | the upload's own coordinate check: done, refused or stored |
| ArtifactRuns.CoordinatesAreImmutable | FiberServer/my/mysqlop_soci.cpp:442-476 | in every interleaving of requests, failures included, a published coordinate keeps its checksum and file until the DELETE of that coordinate |
| ArtifactRuns.AnswersTrue | FiberServer/servlets/upload_servlet.cpp:71-136 | in every interleaving, the moment an artifact request is answered with success its coordinate holds its checksum, and a conflict is answered while it holds another |
| ArtifactRuns.StepExact | FiberServer/my/mysqlop_soci.cpp:410-530 | any number of requests at once: counts, files and what the requests owe stay in order over a statement exactly when it is none of those that Harms lists |
| ArtifactRuns.RunExact | FiberServer/my/mysqlop_soci.cpp:410-530 | and all along a run exactly when none of its statements is one |
| ArtifactRuns.NoArtifactLosesItsFile | FiberServer/servlets/deletefile_servlet.cpp:54-111 | in every run without such a statement each artifact's file is in the store and no request is about to erase it, and each count is the number of artifacts plus that of requests that still owe one |
| ArtifactFailures.RefusedUploadStrandsCount | FiberServer/servlets/dirupload_servlet.cpp:139-157 | a run without failing statements: two uploads of different bytes race to one coordinate, the second is refused, and its committed reference stays with no artifact |
| ArtifactFailures.TwoDeletesLoseFile | FiberServer/servlets/deletefile_servlet.cpp:61-98 | a run without failing statements: two deletes of one coordinate both find it, and the file that another project's artifact names is erased |
| ArtifactFailures.DeleteOvertakesShare | FiberServer/servlets/upload_servlet.cpp:112-134 | a run without failing statements: a delete erases a file between a precheck's lookup of its name and its increment, and the precheck then adds an artifact that names it |
| ArtifactFailures.ReuseLosesFile | FiberServer/servlets/upload_servlet.cpp:96-111 | publish, reuse within the project, delete: a file still in use is erased |
| ArtifactSessions.Session.EnsureTable | FiberServer/my/mysqlop_soci.cpp:410-440 | CREATE TABLE ends the open transaction, so that nothing is left to roll back, unless it fails before that |
| ArtifactSessions.Session.Rollback | FiberServer/servlets/upload_servlet.cpp:118-130 | puts back what the open transaction began with, and nothing when none is open |
| ArtifactSessions.Session.PrecheckUpload | FiberServer/servlets/upload_servlet.cpp:71-136 | the statements with begin, commit and rollback leave the tables and the answer of the specification |
| ArtifactSessions.Session.ReuseFile | FiberServer/servlets/upload_servlet.cpp:96-111 | the branch for a file the project has: only the artifact is added |
| ArtifactSessions.Session.ShareFile | FiberServer/servlets/upload_servlet.cpp:112-134 | the branch for a file another project has: count and row, a commit in the middle of CreateArtifact, and the artifact |
| ArtifactSessions.Session.PublishUpload | FiberServer/servlets/chunkupload_servlet.cpp:195-223 | likewise for the last transaction of an upload |
| ArtifactSessions.Session.DeleteFile | FiberServer/servlets/deletefile_servlet.cpp:54-98 | likewise for the delete, whose rollbacks come when no transaction is open any more |
| ArtifactSessions.Session.InsertArtifact | FiberServer/my/mysqlop_soci.cpp:442-476 | an existing coordinate is only accepted with its own checksum and never rewritten |
| ArtifactSessions.Session.Decrement | FiberServer/my/mysqlop_soci.cpp:785-806 | the count goes down but not below zero, and -1 reports a missing row |
| ArtifactSessions.Session.DropFiles | FiberServer/my/mysqlop_soci.cpp:324-340 | all rows of an owner and a file name go, the others stay in order |
| Base64.RoundTrip | FiberServer/util/hash_util.cpp:135-241 | decoding undoes encoding for all data (RFC 4648, section 4) |
| Base64.DecodesExactly | FiberServer/util/hash_util.cpp:143-193 | the decoder accepts exactly groups of four symbols with at most two paddings at the very end |
| Base64.AlphabetExact | FiberServer/util/hash_util.cpp:162-174 | the alphabet and the padding of RFC 4648, table 1, both ways |
| Base64.GroupMeans | FiberServer/util/hash_util.cpp:214-237 | four symbols in base 64 are three bytes in base 256, high digits first |
| Base64.DecodeMeans | FiberServer/util/hash_util.cpp:144-193 | any accepted group decodes to its 24 bits |
| Base64.DecodeMeansPadded | FiberServer/util/hash_util.cpp:186-193 | with one padding, to the first 16 of 18 bits |
| Base64.DecodeMeansTwicePadded | FiberServer/util/hash_util.cpp:186-193 | with two, to the first 8 of 12 |
| Base64.TestVectors | FiberServer/util/hash_util.cpp:203-241 | test vectors of RFC 4648, section 10 |
| Base64.Base64Encode | FiberServer/util/hash_util.cpp:203-241 | the loop with its accumulator yields the encoding |
| Base64.Base64Decode | FiberServer/util/hash_util.cpp:135-197 | the loop yields the decoding, or nothing for malformed input, and never writes outside three quarters of the input's size |
| Base64.ReadQuad | FiberServer/util/hash_util.cpp:144-184 | one group: its bits and paddings, or a reason why all of the input is malformed |
| Percent.RoundTrip | FiberServer/base/util.cpp:593-653 | decoding undoes encoding for every string and both settings of the flag (RFC 3986, section 2.1) |
| Percent.EncodeAlphabet | FiberServer/base/util.cpp:547-622 | only unreserved characters, percent and plus come out, no ampersand, and an equals sign exactly from an equals sign |
| Percent.TablesExact | FiberServer/base/util.cpp:547-589 | the two tables in terms of characters: unreserved ones and '=', and the values of digits in either case |
| Percent.EncodeOne | FiberServer/base/util.cpp:593-616 | one character: itself, a plus sign for a space if so asked, or its two digits in upper case |
| Percent.DecodeFront | FiberServer/base/util.cpp:624-646 | an escape in digits of either case is one byte, a plus sign a space if so asked, anything else stands for itself |
| Percent.UrlEncode | FiberServer/base/util.cpp:593-622 | the loop with its buffer made on demand yields the encoding |
| Percent.UrlDecode | FiberServer/base/util.cpp:624-653 | the loop with its buffer made on demand yields the decoding |
| QueryStrings.ParseQuery | FiberServer/servlets/dirupload_servlet.cpp:37-50 | the loop over positions yields the map of the specification |
| QueryStrings.ParseExact | FiberServer/servlets/dirupload_servlet.cpp:37-50 | what the parser makes of any percent-encoded parameters: each key ends at its first equals sign |
| QueryStrings.ParseReturnsMap | FiberServer/servlets/dirupload_servlet.cpp:37-50 | the parameters come back as the map they stand for exactly when no key contains an equals sign |
| QueryStrings.ParseOne | FiberServer/servlets/dirupload_servlet.cpp:37-50 | a parameter ends at '&' and its key at the first '=', both are decoded, and what has no '=' is ignored |
| ChunkNames.NameRoundTrip | FiberServer/my/chunkManager.cpp:47-49 | a chunk's number is read back from its file name, for every int |
| ChunkNames.DecimalExact | FiberServer/my/chunkManager.cpp:47-49 | names are decimal, high digits first |
| ChunkNames.StoiExact | FiberServer/base/util.cpp:176-184 | spaces, one sign, the longest run of digits, whatever follows: the number, if it fits an int |
| ChunkNames.StoiNone | FiberServer/base/util.cpp:176-184 | without a digit there is no number |
| Chunks.SortedExact | FiberServer/base/util.cpp:189-190 | the indices are sorted and the same as before |
| Chunks.ReadyIndices | FiberServer/base/util.cpp:162-193 | a full directory of chunks lists as 0, 1, ..., total - 1 in whatever order it is read |
| Chunks.ReadyExact | FiberServer/my/chunkManager.cpp:118-122 | counting the files tells exactly whether every chunk is there |
| Chunks.MergeExact | FiberServer/my/chunkManager.cpp:124-143 | a ready directory of slices, some perhaps cut short, always merges, and to the original bytes exactly when every slice is whole |
| Chunks.AnyOrderRestores | FiberServer/my/chunkManager.cpp:96-143 | from an empty directory, with slices saved in any order, repeatedly, with files that do not open and writes cut short: ready exactly when each slice's file was opened once, and merging restores the data exactly when each slice's last such try was whole |
| Chunks.SaveExact | FiberServer/my/chunkManager.cpp:96-116 | what a save answers and what its file holds afterwards, for every way the disk takes it |
| Chunks.WholeWritesRestore | FiberServer/my/chunkManager.cpp:96-143 | with whole writes: ready exactly when each slice was saved, and then merging restores the data |
| Chunks.SlicesCover | FiberServer/servlets/upload_servlet.cpp:160-160 | the computed number of chunks covers the declared size |
| ChunkLeftovers.LeftoverExact | FiberServer/my/chunkManager.cpp:118-143 | with a merged file left behind: if stoi rejects its name, ready exactly with all slices and then correct; otherwise ready exactly when one slice is missing |
| ChunkLeftovers.LeftoverMerges | FiberServer/my/chunkManager.cpp:124-143 | what such a directory merges to: nothing when the number is no saved slice, else that slice twice and the missing one left out, which is the data exactly when all slices between are equal |
| ChunkLeftovers.OnlySlicesBeside | FiberServer/my/chunkManager.cpp:96-187 | whatever saves, merges and clean-ups come, beside the merged file there are only slices |
| ChunkLeftovers.LeftoverMergesWrong | FiberServer/my/chunkManager.cpp:147-187 | save, save, merge, clean-up: the directory counts as ready again and merges to the second slice twice |
| Chunks.TaskDirectory.SaveChunkContent | FiberServer/my/chunkManager.cpp:96-116 | a chunk replaces an earlier try, an empty one is rejected, a file that does not open changes nothing, and a write cut short leaves what it wrote |
| Chunks.TaskDirectory.GetIndices | FiberServer/base/util.cpp:162-193 | the listing loop collects exactly the names that are numbers, sorted |
| Chunks.TaskDirectory.IsAllChunksReady | FiberServer/my/chunkManager.cpp:118-122 | the count test |
| Chunks.TaskDirectory.CopyAll | FiberServer/base/util.cpp:316-322 | reading through a buffer of any size copies all bytes |
| Chunks.TaskDirectory.MergeFiles | FiberServer/base/util.cpp:297-353 | the target becomes the contents of the numbered files in order, up to the first one that is missing, which fails the merge |
| Chunks.TaskDirectory.MergeChunks | FiberServer/my/chunkManager.cpp:124-143 | the merged path exactly when the count is right and every file opens |

## Left out

- Liveness and wake-up delivery: entries of fibers still EXEC are dropped by `popLocalTask`, so no claim is made that a wake-up arrives.
- Context switching, thread creation, thread-local lookup, epoll and pipe system calls and the hooked system calls; only their effect on fiber states and the interest set is modelled.
- `start` after a complete `stop`; in the machine the scheduler starts once, before `stop` sets its flags.
- `m_idleThreadCount`, `getStats`, `dump` and `switchTo`; the idle count only decides whether to tickle, and only `SchedulerCore.Scheduler.ScheduleNoLock` reads it.
- Wrap-around of the round-robin cursors and of the scheduler's and pool's counters; they are unbounded numbers.
- `getThis`, the main fiber's `call` and `back`, and stack allocation.
- The map of pools by name, connection arguments and pool destruction; one pool is modelled. A timer callback that finds its waiter gone does nothing and has no step.
- ByteArrays.ByteArray.Read: the overload with an explicit position, which starts from the current block whatever position it is given, is not modelled; nor are `writeToFile`, `readFromFile`, fixed-width integers, floats, strings and the conversions to text.
- ByteArrays.ByteArray.AddCapacity: the division in double precision is taken as exact, which it is below 2^53 bytes.
- Varints.ReadUint: the bits are or-ed into the accumulator in the code and added here; the added part is a multiple of the next power of two above the accumulator, so the two agree.
- TimerRuns.DeadlinesNeverMissed: assumes callbacks that are not empty, sums that do not wrap and a clock that does not go back; `TimerRuns.StepExact` drops the last of these, `TimerSet.AddKeeps`, `RefreshKeeps` and `ResetKeeps` say what the other two cost.
- The read lock that `listExpiredCb` takes and drops before its write lock only repeats the emptiness test and has no step of its own.
- Concurrent growth in `contextResize`, negative fds and event masks other than one READ or WRITE; a closed fd that the kernel forgets by itself.
- The race of a stale timer with a later retry in the hooked socket calls.
- EventLoop.IOManager.RegisterEvent: the assertion that the calling fiber is EXEC is left to the scheduler's own invariant.
- Columns of the tables that no transaction tests (sizes, types, branches, times), tokens, the other queries, and the retry of physical deletes.
- SQL text, deadlocks and lock waits: a statement is one step, and statements of a transaction up to its commit are one step, which the row locks that they hold justify. A `commit` that fails counts as a failing statement before it.
- ArtifactStore.PublishExact: speaks of the transaction once the physical file is stored under an unused identifier; an upload that fails afterwards leaves that file behind.
- Hash functions, HMAC, hexadecimal text, JSON, HTTP parsing, configuration, logging and the remaining servlets; they would add easy members or are generated code.
- Chunks.AnyOrderRestores: the contents that clients send are the slices of the data; a client that sends other bytes is not covered. Writes of the merged file are taken as whole, since `MergeFiles` never asks the stream.
- ChunkLeftovers.LeftoverMerges: leaves out a checksum that is itself the text of an int, where the merge reads the file it writes.
- `saveChunk`, which moves a file instead of writing one, has the effect of `saveChunkContent` without its rejection of empty contents; the move itself is not modelled.
- Chunks.TaskDirectory.MergeFiles: merging a chunk into itself, when the checksum spells a chunk's number, is not described.
