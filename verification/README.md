# Verification of the million actor runtime

Dafny models of the stateful parts of `million`, a C++ actor runtime in which services exchange
messages, handlers are coroutines, and a pool of workers runs the services. Objects that the
runtime updates in place are classes whose methods are proved against functions on values; what
the runtime promises is proved about those functions, for every input or every run. Behaviour
spread over several threads is a state machine with one step for each lock section or flag
access, and its theorems hold for every interleaving of any length.

`dafny verify dfyconfig.toml` checks everything.

| file | subject |
|---|---|
| `WheelModel.dfy`, `WheelRuns.dfy`, `WheelTimer.dfy` | the five-layer timing wheel: arithmetic, one iteration, whole runs, the timer object |
| `Scheduler.dfy`, `PoolRest.dfy` | worker pool, run queue, mailboxes and the in-queue flag; that the pool comes to rest |
| `ReplyProtocol.dfy`, `ReplyOnce.dfy`, `ReplyMail.dfy`, `ServiceProtocol.dfy` | requests and replies between services on that pool, that what is sent arrives, and that a service's own code does what they say |
| `Coroutine.dfy` | promises, parent links and session awaiters of one handler |
| `Executor.dfy` | suspended tasks keyed by the session they wait for |
| `ServiceCore.dfy`, `Lifecycle.dfy`, `StageMoves.dfy`, `Mailbox.dfy`, `ServiceReplies.dfy` | mailbox, message processing and stages of one service; what may and what must happen in its whole life; its mailbox while it works; whom it answers |
| `DBRow.dfy`, `RowTable.dfy`, `WriteBack.dfy`, `RowService.dfy` | versioned rows with dirty fields, the cache of rows and its queries, write-back to SQL, and both together |
| `Framing.dfy`, `SendQueue.dfy` | length-prefixed packets, and the single writer of a connection |
| `ConfigTable.dfy` | single-field and composite indices over configuration tables |
| `Snowflake.dfy` | session ids and the id generator |
| `Wrappers.dfy` | what several of these share |

## Main results

* **Timer.** A task of `t` ticks dispatched after `n` iterations fires in iteration
  `n / 64^L * 64^L + t`, where `L` is its layer, exactly once, through every cascade and wrap
  (`ExactDeadline`). "Fires `t` ticks later" holds if and only if `n` is a multiple of `64^L`;
  otherwise the task is early, never late (`DueBounds`). Tasks that entered one layer with one
  deadline fire in the order they were added (`StableOrder`). From `AddTask` on nothing is lost or
  doubled unless a delay is refused (`NothingLost`); once one is, `Tick` throws at least every second
  time for good (`RefusedStays`). Catching up never drifts, and one `Tick` over `n` intervals is `n`
  Ticks of one (`TickByTick`).
* **Scheduling.** No service is with two workers or both queued and held, no wakeup is lost,
  mailboxes are emptied in order, and waiting is bounded by the number of services. Left to itself
  the pool does a bounded number of steps and then rests with every mailbox empty (`WorkIsBounded`,
  `DeliversAll`), provided that no exited service has mail: one that has goes round the run queue for
  ever (`ExitedSpins`), and an exited service still takes exit messages (`PushMsg`).
* **Sessions.** No reply is popped before its caller is registered, a reply resumes only the task
  that asked, and no request is answered twice. The code that processes a service's messages
  refines that protocol (`MessageRefines`). What is sent arrives, once and in order
  (`EverythingArrives`), and a task that called waits, unchanged, until it is woken by its own
  answer or timeout (`CallWaits`, `WaitsUntilWoken`, `WokenByAnswer`).
* **Coroutines.** For every sequence of calls, awaits, returns, throws and resumes, whenever
  control is back in the executor the root's awaiter is that of the innermost waiting task.
* **Lifecycle.** A service's log of stages and handler calls is lawful over its whole life, and moves
  on when it must: a handler that ends while the service starts or stops takes it to Running or
  Stopped at once, and a timeout then stops it (`EndsMoveOn`, `TimeoutStops`). But a stopping service
  takes neither replies nor timeouts into its mailbox, so an OnStop that waits for an answer never
  returns (`StopHangs`, with the exact condition).
  That exiting is final rests on the check in `ProcessMsgs`: `ProcessMsg` called directly leaves
  Exited exactly when a timeout makes a left-over task fail (`ExitedByItself`), which a service can
  get into by its own messages (`ExitedReopens`) and never does if no task is left when it exits
  (`ExitedForGood`). Each reply of a service answers a message of its own, under that message's id (`RepliesAnswer`).
* **Write-back.** The SQL row is always, as a whole, one version the owner committed. The comment
  at `module/db/src/db_service.h:95` blames a failed sync on another writer; the model shows
  that one timed-out request executed late is enough with a single writer (`LateExecution`), and
  that from then on the row is never written again (`StalledForever`, `CanAdvance`). Without
  timeouts no sync fails (`NoTimeoutNoFailure`). Later loads of the row by primary key never disturb
  this exactly if no query that could bring the row was still waiting when the owner's own load
  was answered (`LoadAgain`, `WholeAmongQueries`); otherwise an accepted commit can be lost silently
  (`TwoFirstLoads`).
  A timeout as such costs nothing: the sync is tried again (`RetriesAfterTimeout`). Whatever owners
  commit, cached versions only go up (`VersionsIncrease`), and of statements that expect one version
  SQL lets at most one win (`OneWinner`).
* **Connections.** The packets sent arrive exactly if and only if none is empty or longer than
  64 MiB; the receive buffer stays within a megabyte of what has been read and is being read;
  at most one writer is alive, and the wire always holds a prefix of what was sent. With packets
  sent in one piece this holds at every point of every run, whatever is sent (`InOnePieceEach`). The
  writer stops after a bounded number of steps, with everything written unless a write failed
  (`EverythingIsWritten`), and whatever bytes a peer sends are read in the one way they can be
  (`ParseIs`, `ParseUnique`).
* **Indices.** A lookup is the scan, its row is unique, and a build fails exactly on an unknown
  field or two rows with one key.
* **Ids** never repeat while each generator issues at most 4096 per millisecond between two starts,
  and that bound is exact: the first id after a restart is an old one if and only if more were
  issued (`RestartRepeats`).

## Premises

* Steps are sequentially consistent.
* The clock of the timer does not go back; delays are below `64^5` ticks (longer ones throw, and
  `Tick` says so).
* In the reply protocol session ids are fresh and a request that is awaited is awaited at once,
  with nothing in between, as `Call` does. A handler answers its request only by returning a
  value: `IService::Reply` and `SendTo` (`million/include/million/iservice.h:98-112`), with which a
  handler can send a reply by itself as `module/cluster/src/cluster_service.h:333` does, are not used.
* The lifecycle theorem is about control messages with request ids, as `Start`, `Stop` and `Exit`
  send them.
* In the write-back theorem one owner loads the row once by its primary key, marks every edit,
  clears no mark and leaves the primary key alone. In the theorem with queries others load rows by
  primary key too, and SQL answers with a row of the key it was asked for.
* The pieces of a packet that is sent in several are sent together; their first one carries the
  length of them all, below 2^32.
* Messages, rows, field values and bodies of handlers are opaque; only their equality matters.

## Model

| member | source | states |
|---|---|---|
| `WheelMath.DueBounds` | million/src/internal/wheel_timer.hpp:99-113 | a deadline is never after the delay asked for, equals it below 64 ticks and exactly when the position is a multiple of the layer's span, and from 64 ticks on lies in the future |
| `WheelTimer.WheelTimer.constructor` | million/src/internal/wheel_timer.hpp:29-30 | a new timer has empty queues and indexes at 0 |
| `WheelTimer.WheelTimer.Init` | million/src/internal/wheel_timer.hpp:33-35 | the reference time is the clock |
| `WheelTimer.WheelTimer.AddTask` | million/src/internal/wheel_timer.hpp:82-85 | a task joins the end of the new tasks and nothing else changes |
| `WheelTimer.WheelTimer.GetLayer` | million/src/internal/wheel_timer.hpp:89-97 | the shifting loop finds the layer whose span brackets the delay, and refuses exactly the delays of 64^5 ticks and more |
| `WheelTimer.WheelTimer.FileTask` | million/src/internal/wheel_timer.hpp:101-111 | one task goes to the slot its layer and the layer's index select, with the delay the lower layers need |
| `WheelTimer.WheelTimer.DispatchTasks` | million/src/internal/wheel_timer.hpp:99-114 | all tasks of a queue are filed in order and the queue emptied; it throws exactly on a delay that is too large, which a slot never holds, and then the tasks before it are filed and still in the queue with what is left of their delays; the queue iterated is not appended to |
| `WheelTimer.WheelTimer.TakeAdds` | million/src/internal/wheel_timer.hpp:38-44 | new tasks are swapped out and dispatched in order; after a throw those before the refused one are filed, the queue iterated stays as it is, and the refused task is in one of the two queues for good |
| `WheelTimer.WheelTimer.TurnLayer` | million/src/internal/wheel_timer.hpp:66-72 | one layer's index wraps at 64 and its new slot is dispatched downwards |
| `WheelTimer.WheelTimer.RollUp` | million/src/internal/wheel_timer.hpp:61-75 | the do-while is the odometer carry over the layers |
| `WheelTimer.WheelTimer.AdvanceOnce` | million/src/internal/wheel_timer.hpp:50-76 | one iteration hands out the front slot in order, empties it and carries |
| `WheelTimer.WheelTimer.AdvanceBy` | million/src/internal/wheel_timer.hpp:50-76 | the loop does as many iterations as asked and hands out what each fires |
| `WheelTimer.WheelTimer.CatchUp` | million/src/internal/wheel_timer.hpp:48-77 | iterations and reference time advance together |
| `WheelTimer.WheelTimer.Tick` | million/src/internal/wheel_timer.hpp:37-77 | new tasks are dispatched, then exactly the iterations due run; over the whole run iterations equal the whole intervals since the start, despite truncating at each call; a throw leaves the time, fires nothing and files exactly the tasks before the refused one |
| `WheelQueues.InsertInv` | million/src/internal/wheel_timer.hpp:99-113 | an insert never goes to the current slot of an upper layer and leaves less than a slot's span to go |
| `WheelQueues.InsertPend` | million/src/internal/wheel_timer.hpp:103-111 | an insert appends to the queue of its one deadline and to no other |
| `WheelQueues.InsertBelow` | million/src/internal/wheel_timer.hpp:99-113 | tasks of a drained slot all go to strictly lower layers, whatever is in the slot being drained |
| `WheelQueues.CarryStep` | million/src/internal/wheel_timer.hpp:60-75 | a whole carry keeps the indexes at the digits of the tick count and only moves each deadline's tasks down, behind those of the lower layer |
| `WheelQueues.AdvanceStep` | million/src/internal/wheel_timer.hpp:50-76 | iteration n fires exactly what is due at n |
| `WheelRuns.ExactDeadline` | million/src/internal/wheel_timer.hpp:37-114 | for every run and deadline: its iteration fires exactly the tasks dispatched with it, each once; until then all of them wait |
| `WheelRuns.StableOrder` | million/src/internal/wheel_timer.hpp:54-56 | tasks that entered one layer with one deadline fire in dispatch order |
| `WheelRuns.Conservation` | million/src/internal/wheel_timer.hpp:37-114 | at every point what has fired plus what the slots hold is what was dispatched |
| `WheelTimer.NothingLost` | million/src/internal/wheel_timer.hpp:37-114 | unless a delay was refused, everything ever given to AddTask has fired, is in a slot or is among the new tasks, each as often as it was given |
| `WheelTimer.RefusedStays` | million/src/internal/wheel_timer.hpp:38-44 | a refused delay is in one of the two queues after every call, so it is refused again |
| `WheelTimer.NoDrift` | million/src/internal/wheel_timer.hpp:46-48 | intervals already counted plus intervals since the reference time are the intervals since the start |
| `WheelTimer.SplitTimes` | million/src/internal/wheel_timer.hpp:46-77 | a Tick in between changes neither the total of intervals nor the reference time |
| `WheelTimer.SplitSteps` | million/src/internal/wheel_timer.hpp:50-76 | a + b iterations at once fire the same data in the same order as a and then b |
| `WheelTimer.AnyTicks` | million/src/internal/wheel_timer.hpp:46-77 | any sequence of calls without new tasks has the wheel, the reference time and the fired data, in order, of the last call alone |
| `WheelTimer.TickByTick` | million/src/internal/wheel_timer.hpp:46-77 | one Tick that covers n intervals is n Ticks of one interval each |
| `Scheduler.ServiceMgr.PushService` | million/src/service_mgr.cpp:89-107 | the queue section is the pool's push step: queued unless the flag is set |
| `Scheduler.ServiceMgr.PopService` | million/src/service_mgr.cpp:109-119 | waits exactly while nothing is queued and the pool runs, leaves exactly when it is stopped, and otherwise takes the oldest service |
| `Scheduler.ServiceMgr.ClearInQueue` | million/src/worker.cpp:25-26 | letting go of a service is the pool's clearing step |
| `Scheduler.StepInv` | million/src/worker.cpp:20-30 | every step of any worker or sender keeps single processing, no lost wakeup and mailbox order |
| `Scheduler.Interleavings` | million/src/worker.cpp:20-30 | in every interleaving a service is queued at most once, with at most one worker, never both; a non-empty mailbox is watched; popped messages followed by the mailbox are the accepted ones in order |
| `Scheduler.RestMeansDelivered` | million/src/worker.cpp:20-30 | when nothing can happen any more, every mailbox is empty |
| `Scheduler.OneMessagePerPop` | million/src/worker.cpp:24 | a worker looks for at most one message each time it pops a service |
| `Scheduler.BoundedWaiting` | million/src/service_mgr.cpp:95-101 | a queued service is popped within as many pops as there are services |
| `PoolRest.WorkIsBounded` | million/src/worker.cpp:20-35 | in every interleaving without an exit or mail to an exited service the steps of senders and workers are bounded by the mail, the queue, the senders and the phases at first, and a fixed amount for each new message |
| `PoolRest.DeliversAll` | million/src/worker.cpp:20-30 | from every such pool with a worker, every run without new messages has at most that many steps, and when none is left every mailbox is empty |
| `PoolRest.ComesToRest` | million/src/worker.cpp:20-30 | and a state in which none is left is reached |
| `PoolRest.ExitedSpins` | million/src/worker.cpp:24-30 | an exited service with mail is popped, found exited and queued again, and the pool is where it was |
| `PoolRest.AcceptedArePushed` | million/src/service_core.cpp:21-35 | the messages accepted for a service are exactly those pushed to it with success, in order |
| `PoolRest.ExitTakesNoMore` | million/src/service_core.cpp:197-206 | a service that has exited is never given another message |
| `PoolRest.StopPopsNoMore` | million/src/service_mgr.cpp:109-114 | after a stop no service is popped |
| `PoolRest.StoppedAtRest` | million/src/worker.cpp:20-22 | and when nothing more can be done every worker has ended |
| `ReplyProtocol.StepSys` | million/src/task_executor.cpp:47-67 | every action keeps: awaited ids belong to the task that sent them, and are registered or about to be by the worker that has the service |
| `ReplyProtocol.ReplyMeetsCaller` | million/src/service_core.cpp:174-194 | no reply to an awaited request is popped before the task is registered, and it is in the caller's mailbox |
| `ReplyProtocol.ResumesItsSender` | million/src/task_executor.cpp:24-45 | a reply or timeout resumes only the task that sent the request; no two task maps share an id |
| `ReplyProtocol.RegisterIsFree` | million/src/task_executor.cpp:136-141 | with fresh ids the duplicate-id branch is not reached |
| `ReplyOnce.AtMostOneReply` | million/src/service_core.cpp:259-274 | no request is answered twice, and each answer goes to the service that asked |
| `ReplyMail.EverythingArrives` | million/src/service_core.cpp:21-35 | in every interleaving what a service has popped, followed by its mailbox, is exactly what was sent to it, in order: requests, timeouts and replies |
| `ReplyMail.PoolRefines` | million/src/worker.cpp:20-30 | every action of a service is exactly these steps of the worker pool |
| `ReplyMail.CallWaits` | million/src/task_executor.cpp:47-67 | an accepted call suspends its task, which is registered under the request's id when control is back |
| `ReplyMail.WaitsUntilWoken` | million/src/task_executor.cpp:24-92 | in every interleaving a registered task stays as it is until its service takes up an answer or a timeout of its id |
| `ReplyMail.WokenByAnswer` | million/src/task_executor.cpp:24-45 | then exactly that task runs on, and nothing does if there is none |
| `ServiceProtocol.MessageRefines` | million/src/service_core.cpp:47-195 | from the start or resumption of a task by a message to its end or next wait, through any steps of the other workers and sends of its own, the service's tasks and replies are those of the protocol |
| `ServiceProtocol.NothingRefines` | million/src/service_core.cpp:136-181 | a message that the stage ignores, or a reply or timeout for no task, changes neither tasks nor replies in either |
| `ServiceProtocol.RunKeeps` | million/src/worker.cpp:20-30 | while one worker has a service the others leave its tasks alone |
| `Coroutine.Propagate` | million/include/million/task.h:87-92 | the loop over parent links ends and writes the awaiter into exactly the tasks it reaches |
| `Coroutine.CoAwait` | million/include/million/task.h:172-194 | ready exactly if the task never awaited a session; otherwise it is linked to its caller and its awaiter handed to the caller and all above it |
| `Coroutine.AwaitStarted` | million/include/million/task.h:172-194 | a task awaited where it was started is linked exactly if it has not finished, and its awaiter then reaches its caller and everything the caller is linked to |
| `Coroutine.Chain.DoAwait` | million/include/million/task.h:81-93 | when control is back in the executor every task of the chain holds the new awaiter, which resumes the innermost one |
| `Coroutine.Chain.DoResume` | million/src/task_executor.cpp:94-103 | resuming through the root resumes the innermost task |
| `Coroutine.Chain.DoEnd` | million/include/million/task.h:218-225 | a task that ends, with or without exception, hands control to its caller |
| `Coroutine.Chain.IsDone` | million/src/task_executor.cpp:35-44 | the root is done exactly when the handler is over |
| `Coroutine.Chain.Play` | million/include/million/task.h:79-225 | each action of the handler or executor keeps the chain coherent |
| `Coroutine.RunHandler` | million/include/million/task.h:79-225 | for every handler script the promises follow the handler's own nesting, and a waiting root carries the id awaited last |
| `Executor.TaskExecutor.Push` | million/src/task_executor.cpp:125-143 | filed exactly under a valid, free id; a timeout is armed unless the id is invalid or the wait is endless, even for an id that is taken |
| `Executor.TaskExecutor.RePush` | million/src/task_executor.cpp:145-153 | the entry moves from its old key to the session awaited now, or is dropped, with the new wait's timeout armed |
| `Executor.TaskExecutor.TrySchedule` | million/src/task_executor.cpp:24-45 | not found, finished and erased, or kept under the new id with its timeout armed; "found but not processed" never happens |
| `Executor.TaskExecutor.TaskTimeout` | million/src/task_executor.cpp:73-92 | the task runs on; if it ends it is erased, reporting exactly an exception; if it waits again its new timeout is armed and the first result says whether it was kept |
| `Executor.TaskExecutor.AddTask` | million/src/task_executor.cpp:47-67 | a finished task is handed back, a waiting one filed with its timeout armed |
| `Executor.StepPartition` | million/src/task_executor.cpp:24-153 | every operation keeps each added task in exactly one of pending, answered, silently ended, dropped |
| `Executor.KeysAndFates` | million/src/task_executor.cpp:24-153 | after any adds, replies and timeouts every entry is unfinished under the valid request id it awaits, and every added task is in one place once |
| `Executor.DroppedWhen` | million/src/task_executor.cpp:125-153 | a task is dropped exactly when it awaits the invalid id or one another task awaits; its own id again is fine |
| `ServiceCore.ServiceCore.PushMsg` | million/src/service_core.cpp:21-35 | accepted exactly in Ready, Starting and Running, or for an exit message |
| `ServiceCore.ServiceCore.PopMsg` | million/src/service_core.cpp:37-40 | the oldest message, or none |
| `ServiceCore.ServiceCore.ReplyMsg` | million/src/service_core.cpp:259-274 | one reply to the sender under the request's id with the reply bit, unless the task failed or returned nothing |
| `ServiceCore.ServiceCore.Reschedule` | million/src/service_core.cpp:134-184 | a reply resumes its task; one that ends is replied to and moves the stage on |
| `ServiceCore.ServiceCore.ProcessMsg` | million/src/service_core.cpp:47-195 | the new stage, tasks, replies and log for every kind of message in every stage |
| `ServiceCore.ServiceCore.ProcessMsgs` | million/src/service_core.cpp:197-206 | messages are worked off in order, at most the number asked for, none once exited |
| `Lifecycle.WorksJoin` | million/src/service_core.cpp:197-206 | portions worked off one after another are one run |
| `Lifecycle.WorksKeeps` | million/src/service_core.cpp:47-206 | every message keeps the service's log lawful and its stage in step with it |
| `Lifecycle.LifeOfService` | million/src/service_core.cpp:47-206 | stage changes follow the edges, OnMsg only while running, an OnStart between two OnStops, exiting final with exactly one OnExit, and before any stop Running is entered only as the one OnStart ends, no other handler having been called |
| `StageMoves.EndsMoveOn` | million/src/service_core.cpp:61-172 | over every life a task that ends while starting is at once followed by the entry into Running, one that ends while stopping by that into Stopped, and the exits asked for are the other entries into Stopped |
| `StageMoves.MessageByMessage` | million/src/service_core.cpp:47-195 | each message of a life adds exactly the events listed for its kind, the stage and the task's outcome |
| `StageMoves.TimeoutStops` | million/src/service_core.cpp:121-132 | a timeout worked off while starting or stopping, or one that makes a task fail, stops the service and asks for its exit once; nothing else asks |
| `StageMoves.ReplyMovesOn` | million/src/service_core.cpp:134-172 | the reply on which OnStart returns makes the service run, the one on which OnStop returns makes it stopped |
| `Mailbox.StopHangs` | million/src/service_core.cpp:21-28 | a stopping service can ever leave that stage exactly if a timeout, or a reply one of its tasks waits for, was in its mailbox already |
| `Mailbox.StartDoesNotHang` | million/src/service_core.cpp:21-28 | a starting service takes the reply its OnStart waits for, and runs |
| `Lifecycle.ExitedByItself` | million/src/service_core.cpp:123-132 | ProcessMsg alone leaves Exited exactly on a timeout that makes a left-over task fail |
| `Lifecycle.ExitedForGood` | million/src/service_core.cpp:123-132 | an exited service stays so under every sequence of messages and task outcomes, even without the check in ProcessMsgs, exactly if it has no task left |
| `Lifecycle.ExitedReopens` | million/src/service_core.cpp:123-132 | a start, a message whose handler waits, a stop and an exit lead to an exited service that the timeout of that wait makes Stopped |
| `ServiceReplies.ProcessMirrors` | million/src/service_core.cpp:47-195 | processing a message is at most one executor operation, and the replies are exactly those of the tasks it hands back |
| `ServiceReplies.RepliesAnswer` | million/src/service_core.cpp:259-274 | over a service's whole life each reply goes to the sender of a message of its own under that message's id with the reply bit, so none is answered twice; suspended tasks are filed under the valid ids they await |
| `DBRow.DBRow.constructor` | module/db/src/db_row.cpp:8-20 | a new row has version 0, blank fields and no mark |
| `DBRow.DBRow.CopyFromDirty` | module/db/src/db_row.cpp:73-94 | exactly the marked fields (and the key if asked) and the version are taken over; marks add up |
| `DBRow.DBRow.CopyDirtyTo` | module/db/src/db_row.cpp:61-71 | a new row with the marked fields alone |
| `DBRow.DBRow.IsDirty` | module/db/src/db_row.cpp:96-103 | true exactly if some field is marked |
| `DBRow.DBRow.MarkDirty` | module/db/src/db_row.cpp:114-118 | every field is marked |
| `DBRow.DBRow.ClearDirty` | module/db/src/db_row.cpp:128-132 | no field is marked |
| `DBRow.DBRow.Edit` | module/db/src/db_row.cpp:124-126 | one field is set and marked; outside the row it throws |
| `DBRow.DBRow.Commit` | module/db/src/db_row.cpp:142-145 | the version goes up by one and the whole row is sent with the old version |
| `DBRow.SqlTable.SetList` | module/db/src/sql_service.h:485-496 | the SET list is the marked columns, each once, in order |
| `DBRow.SqlTable.Update` | module/db/src/sql_service.h:465-523 | one statement: the row changes, in the marked columns and version, exactly if version and key match |
| `DBRow.UpdateExact` | module/db/src/sql_service.h:485-505 | the update makes the stored row the whole new row exactly if every field that differs is marked |
| `DBRow.OneWinner` | module/db/src/sql_service.h:465-523 | of any statements that expect one version, whoever sends them and in whatever order, at most one changes the row |
| `RowTable.DBTable.LocalCacheDBRow` | module/db/src/db_service.h:234-260 | the row is cached over what was there, and a loop is started only for a row not cached before |
| `RowTable.DBTable.QueryDBRow` | module/db/src/db_service.h:170-198 | a query by primary key for a cached row gets it without asking SQL, and the row its loop; any other query, one by another field always, waits for SQL |
| `RowTable.DBTable.SqlQueryResp` | module/db/src/db_service.h:198-212 | SQL's row is cached over what is there by then, and returned; no row, no change |
| `RowTable.MarkedSilently` | module/db/src/db_service.h:246-253 | a row never has two loops, and is marked without one exactly when cached, with a loop asked for, over a row cached without |
| `RowTable.OneLoopPerRow` | module/db/src/db_service.h:113-121 | as the handlers query, and however their queries overlap, every cached row has exactly one sync loop |
| `RowTable.LoadAgain` | module/db/src/db_service.h:182-212 | every sequence of loads by primary key, overlapping or not, leaves a cached row as it is exactly if no query that could bring that row was waiting |
| `RowTable.FirstLoad` | module/db/src/db_service.h:196-212 | a first load leaves it so if no other query for the row is waiting |
| `RowTable.RightRow` | module/db/src/db_service.h:183-212 | in every run of queries by any field, one by another field is handed a row only by SQL's answer to it, and one by primary key only a row SQL found under that key |
| `RowService.RunAgrees` | module/db/src/db_service.h:81-212 | loads by anyone in between make no difference to the write-back of a settled row |
| `RowService.WholeAmongQueries` | module/db/src/db_service.h:81-212 | with one owner and any loads after its own, the cached row is the owner's delivered version and the SQL row a whole version between the recorded and the cached one; no commit is refused |
| `RowService.TwoFirstLoads` | module/db/src/db_service.h:246-253 | with two first loads at once a commit is accepted and then overwritten by the row as loaded |
| `WriteBack.DBRowCache.DBRowUpdateReq` | module/db/src/db_service.h:145-164 | a commit is taken over exactly if it is newer than the cached row and its old version is not above its new one |
| `WriteBack.DBRowCache.DBRowTickSync` | module/db/src/db_service.h:81-87 | a request is sent exactly if the cached version is ahead of the recorded one |
| `WriteBack.DBRowCache.SqlUpdateResp` | module/db/src/db_service.h:88-101 | success records the version that was sent, failure ends the sync, no answer leaves it to the next tick, another call's answer changes nothing |
| `WriteBack.CommitByCommit` | module/db/src/db_service.h:145-164 | for commits of any owners: taken over exactly if newer than the cached row, with an old version not above the new one, else nothing changes |
| `WriteBack.VersionsIncrease` | module/db/src/db_service.h:145-164 | the versions taken over strictly increase, the cached version never goes down, and the cached row is the last of them |
| `WriteBack.TakenFrom` | module/db/src/db_service.h:145-164 | and each is one that was committed |
| `WriteBack.WholeRow` | module/db/src/db_service.h:83-87 | a matching request completes the stored version to the whole row of its own version |
| `WriteBack.StepKeeps` | module/db/src/db_service.h:81-167 | every edit, commit, delivery, tick, execution, answer and timeout keeps the write-back invariant |
| `WriteBack.WholeVersionsInSql` | module/db/src/db_service.h:81-167 | in every interleaving the SQL row is the whole row committed or loaded as its version, recorded <= SQL <= cached version, and no commit is refused |
| `WriteBack.StalledForever` | module/db/src/db_service.h:92-98 | once SQL is ahead of the recorded version with no answer to tell, the SQL row never changes again |
| `WriteBack.CanAdvance` | module/db/src/db_service.h:82-101 | between syncs, SQL can ever advance again exactly if the recorded version is SQL's |
| `WriteBack.LateExecution` | module/db/src/db_service.h:88-91 | from every such state a timeout and a late execution stop the write-back |
| `WriteBack.RetriesAfterTimeout` | module/db/src/db_service.h:88-104 | from every state in which a sync times out with SQL where it is recorded, the next tick brings SQL to the latest cached version |
| `WriteBack.FailureEnds` | module/db/src/db_service.h:92-98 | after a failed update no further request is sent in any run |
| `WriteBack.NoTimeoutNoFailure` | module/db/src/db_service.h:92-98 | without timeouts a single owner's sync never fails |
| `Framing.LengthRoundTrip` | million/src/net/tcp_connection.cpp:132 | a length survives the trip through network byte order |
| `Framing.NetworkOrder` | million/src/net/tcp_connection.cpp:47 | four bytes are ordered as their values, so the most significant comes first |
| `Framing.Connection.Grow` | million/src/net/tcp_connection.cpp:61-69 | the growth loop ends, with room for what is needed and less than a megabyte more, having at least doubled or added a megabyte if it grew |
| `Framing.Connection.ReadBody` | million/src/net/tcp_connection.cpp:57-81 | the body is exactly the next bytes, read in consecutive chunks of 64 KiB, the last one maybe less, into a buffer within a megabyte of them |
| `Framing.Connection.Process` | million/src/net/tcp_connection.cpp:36-86 | the read loop delivers exactly the packets the stream holds before its end or a length that is too large |
| `Framing.ParseUnique` | million/src/net/tcp_connection.cpp:37-86 | if a stream is packets, empty ones included, each behind its length, and then bytes from which none can be read, the reader gets exactly these |
| `Framing.ParseIs` | million/src/net/tcp_connection.cpp:37-86 | and every stream is of that form |
| `Framing.ReadBack` | million/src/net/tcp_connection.cpp:128-137 | whatever is sent, in one piece or several, the reader gets exactly the non-empty packets before the first over 64 MiB |
| `Framing.ReadBackPart` | million/src/net/tcp_connection.cpp:36-137 | with a last packet sent in part only, the reader gets it once its last byte is out, and the refusal of its length at once |
| `Framing.RoundTrip` | million/src/net/tcp_connection.cpp:37-86 | exactly the packets sent arrive if and only if none is empty or over 64 MiB |
| `Framing.PrefixParse` | million/src/net/tcp_connection.cpp:37-86 | more bytes only add packets |
| `SendQueue.TcpConnection.Send` | million/src/net/tcp_connection.cpp:105-113 | the packet is queued, and a writer is started exactly if there is none |
| `SendQueue.TcpConnection.Take` | million/src/net/tcp_connection.cpp:120-127 | the writer takes everything, or lowers the flag on an empty queue |
| `SendQueue.TcpConnection.WriteOut` | million/src/net/tcp_connection.cpp:128-137 | what is taken is written in order, each length first unless it is 0 |
| `SendQueue.TcpConnection.Drain` | million/src/net/tcp_connection.cpp:119-138 | a writer left alone writes all and stops |
| `SendQueue.StepOrdered` | million/src/net/tcp_connection.cpp:105-139 | every step keeps written, taken and queued packets equal to the sent ones, and the wire their encoding |
| `SendQueue.DrainsInOrder` | million/src/net/tcp_connection.cpp:105-139 | in every interleaving at most one writer, exactly while the flag is up unless a write failed; the wire is a prefix of what was sent, and all of it once the flag is down |
| `SendQueue.EverythingIsWritten` | million/src/net/tcp_connection.cpp:115-139 | at every point at most so many steps are left without another packet; when none is, the writer has stopped, with everything written unless a write failed |
| `SendQueue.EndToEnd` | million/src/net/tcp_connection.cpp:36-139 | at every point, also between the pieces of a packet, the peer has a prefix of the packets sent, and all of them that are complete once the sender is idle |
| `SendQueue.InOnePieceEach` | million/src/net/tcp_connection.cpp:98-102 | with packets sent in one piece the peer has, at every point of every run, a prefix of those sent, and with an idle sender exactly those sent if and only if each can be sent |
| `ConfigTable.ConfigTable.FindRow` | module/config/include/million/config/config_table.h:43-55 | the first row that satisfies the predicate |
| `ConfigTable.ConfigTable.BuildIndex` | module/config/include/million/config/config_table.h:74-94 | fails exactly on an unknown field or two rows with one value, and then changes nothing |
| `ConfigTable.ConfigTable.FindRowByIndex` | module/config/include/million/config/config_table.h:97-110 | the result of the scan, and the only such row |
| `ConfigTable.ConfigTable.BuildCompositeIndex` | module/config/include/million/config/config_table.h:112-140 | the same for several fields |
| `ConfigTable.ConfigTable.FindRowByCompositeIndex` | module/config/include/million/config/config_table.h:142-161 | the result of the scan over those fields in that order, and the only such row |
| `ConfigTable.LookupIsScan` | module/config/include/million/config/config_table.h:97-161 | an index that agrees with the rows looks up what the scan finds |
| `SessionDef.ReplyRoundTrip` | million/include/million/session_def.h:14-28 | every id is a send or a reply id; send ids survive the round trip and have different reply ids |
| `Snowflake.SeataSnowflake.Make` | million/include/million/seata_snowflake.hpp:21-34 | refuses exactly the worker numbers over 10 bits |
| `Snowflake.StartSeqIs` | million/include/million/seata_snowflake.hpp:29-33 | the first counter is 4096 for each millisecond since the epoch, up to multiples of 2^64, for every clock |
| `Snowflake.SeataSnowflake.NextId` | million/include/million/seata_snowflake.hpp:38-42 | the counter goes up and its lower 53 bits follow the worker number |
| `Snowflake.StepInv` | million/include/million/seata_snowflake.hpp:21-42 | every id is one its worker's counter has passed, and no two are equal |
| `Snowflake.IdsUnique` | million/include/million/seata_snowflake.hpp:21-42 | ids of any workers, restarted any number of times with at most 4096 ids issued per millisecond between two starts, are distinct, non-zero send ids |
| `Snowflake.RestartRepeats` | million/include/million/seata_snowflake.hpp:29-42 | after any such run a restart, the clock not having gone back, repeats an id at once if and only if more than 4096 per millisecond were issued since the last start |
| `Snowflake.RestartAtOnce` | million/include/million/seata_snowflake.hpp:29-42 | one id between two starts within a millisecond is enough |

## Left out

- Concurrency of the run queue beyond the queue lock: mailboxes, phases of the workers and senders are values in a step relation; only the queue sections are methods of a class.
- C++ memory-model effects on the plain flag and stage fields.
- Separate-worker threads and `DeleteService`, which asserts false (`million/src/service_mgr.cpp:65-73`).
- `Scheduler.ServiceMgr.PushService`: the early return for a service with its own thread and the notification after the lock are left out; a worker that waits looks again at any time here.
- `Scheduler.Interleavings`: does not claim that an exited service is ever deleted, nor fairness between workers.
- `ReplyOnce.AtMostOneReply`: a handler that sends a reply by itself, with `IService::Reply` or `SendTo` (`million/include/million/iservice.h:98-112`), is not modelled, only a reply that it returns; and at most one, because a task that ends on the timeout path is erased without a reply (`million/src/task_executor.cpp:87-91`).
- `ReplyProtocol.ResumesItsSender`: a timeout carries only the session id, so a second wait under the same id could be woken by the first one's timeout; ids are awaited once here.
- `Coroutine.RunHandler`: in a script a child task is awaited where it is started; for one kept in a variable and awaited later only `CoAwait` itself is proved. The destruction of coroutine frames is left out.
- `Lifecycle.LifeOfService`: says nothing about which task ended a start after a stop, or whether OnStop finished: any task that ends, and any timeout, moves Starting and Stopping on.
- `ServiceCore.ServiceCore.ProcessMsg`: the coroutine a handler becomes is given as where it ends up (waiting for an id, or finished), and OnExit's exceptions are only logged; messages sent by handlers are in the reply protocol instead.
- `WheelTimer.WheelTimer.Tick`: the callback is the list of what it is given, and the final sleep is left out. When dispatch throws, the queue it was at stays as it is, tasks already filed included; in the original the data of these has been moved away, and filing them again at a later call files what a move leaves behind.
- `Framing.Connection.Process`: the stream is all the peer ever sends, and reading past it is its end; connection callbacks and closing are left out.
- `SendQueue.DrainsInOrder`: senders that interleave the pieces of two packets are allowed, but only `EndToEnd` speaks of packets, for points at which each packet's pieces so far were sent together.
- `DBRow.DBRow.Commit`: awaiting the database service's answer is left out; deliveries are steps of the write-back machine.
- `WriteBack.WholeVersionsInSql`: one row and one owner; several writers are not covered, nor are queries by a non-primary key, which overwrite the cached row.
- `RowTable.DBTable.SqlQueryResp`: what SQL answers is a parameter; a query whose call fails is one that finds no row.
- `WheelRuns.Conservation`: counts from dispatch; `NothingLost` adds the tasks not yet dispatched.
- `ServiceProtocol.MessageRefines`: one message at a time, for one service at a time; ids are non-zero request ids, and a new task gets the protocol's next task number as its handle.
- Integer widths where they do not bite: 64-bit versions and counters of rows, the 32-bit row numbers of an index, 16-bit layer indexes; masks and shifts are divisions and remainders.
- Field values in index keys that are not equal to themselves (NaN), and hash functions.
- SQL text and type mapping, sockets, logging, DLL loading, YAML, Redis, etcd, the JS engine.
- `ServiceLock`, `EventMgr` and the cluster handshake.
