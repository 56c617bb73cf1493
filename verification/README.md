# ESPressio Threads: a Dafny model of its thread protocols

ESPressio Threads runs user code on platform tasks. This project models the three parts of it in which a mistake
would be hard to see, and proves what they promise over every input and every run.

* **Thread life cycle and task exit.** A `Thread` can be initialized, terminated and initialized again. Each
  incarnation has a task that starts behind a gate; its exit is handed over from the initializer or the worker to a
  dispatcher, which deletes the task, reports, releases `Shutdown` callers and lets go. `TaskExit` is a step system
  with one step per atomic access or critical section; ghost counters name incarnations. `ShutdownGuarantee` and
  `ShutdownDelivery` have the exact conditions under which `Shutdown` keeps its promise, `ShutdownProgress` that it
  asks for the stop and comes to its end, and `InitializeOutcome` what `Initialize` answers. `ThreadTasks` has the
  finalizing and dispatching methods on the stored atomics, each proved to take exactly the steps of its party and to
  keep their invariant.
  `TerminationDispatcher`, `TaskConfiguration` and `CleanupOwnership` are smaller step systems for the dispatcher and
  its queue, for the configuration mutex and for the cleanup claim, each with the object beside it. `ThreadStates`
  has the transition relation; `ReentrantLifecycle` has `SetThreadState` as an object whose callbacks call back, and
  `TransitionLock` the recursive mutex with any number of tasks inside, where every interleaving comes to turns.
* **ThreadManager.** `ThreadRegistry` says what registration may answer; `ThreadManagers` has the object, proved
  against it; `IterationPinning` is the step system of iterations, registrations and cleanup passes, and
  `CleanupPasses` says which threads a pass deletes and an iteration visits.
* **PrecisionThread.** `PrecisionTiming` is a pure reading of every critical section, with a reference that steps
  along the deadline grid; `PrecisionThreads` has the object over 64-bit words, proved against it;
  `PrecisionRuns` has whole runs; `ScheduleWake` is the wake protocol.

`Foundations` holds words and division facts. `dafny verify dfyconfig.toml` checks everything.

In the step systems a step that is not possible at that moment changes nothing, so a list of actions, in any order
and of any length, is a run, and the theorems quantify over all of them.

## Hypotheses

These are what the code relies on; each is built into the model named.

* `Initialize` calls on one Thread neither overlap nor nest (`TaskExit`); its first checks precede the configuration
  lock. `TaskConfiguration` drops this hypothesis.
* Giving a signal succeeds, an untimed wait returns only when signalled, and sending succeeds once there is room.
* A thread is registered under an identifier nobody has, which `ThreadRegistry` proves of the registration
  (`IterationPinning`).
* Pointers are not reused, a claimed thread is not registered again, and the application deletes no thread the
  manager lists, has claimed or is looking at (`IterationPinning`).
* Atomics are sequentially consistent. The processor count does not change during a run (`ThreadRegistry`).
* Clock conversions are the identity on 64-bit nanosecond counts; frequencies are reals.
* Fewer than 2^64 measurement resets happen during one iteration (`PrecisionRuns.BoundedResets`);
  `FinishAcceptedIff` says exactly what happens otherwise.

## Where code and documentation differ

The model follows the code.

* The repository's README.md, line 1002, says the termination dispatcher does not retry initialization. `_initialize`
  (src/ESPressio_ThreadTerminationDispatcher.cpp:24-58) rolls back a failed attempt, and the next call tries again.
* Its lines 1008-1010 describe a garbage-collector task. There is none in the code: cleanup runs on the task
  that asks for it, and on the dispatcher after each record.
* Its line 998 promises that when `Shutdown` returns the worker is deleted, the dispatcher has made its last access,
  and members may be destroyed. `ShutdownDeliversIff` says exactly when that is so, provided no further call of
  `Initialize` begins: unless `Shutdown` loads the handle while a call begun before is still preparing its task, or
  loads an invalid one in a window in which a task's exit is still to be recorded and the pending flag is down. Of the
  tasks created before the load, `ShutdownKeepsPromiseIff` says the same with the window alone. Three runs break the
  promise: one returns to a task created since the load (`ReturnsWithTaskCreatedSince`), one to a task created but not
  yet published (`ReturnsWithTaskAlive`), and one with the task deleted but its record, and so the dispatcher's
  accesses, still to come (`ReturnsBeforeRecord`). All take an `Initialize` in progress on another task at the load;
  without one the promise holds (`ShutdownDelivers`).

## Model

| member | source | states |
|---|---|---|
| `TaskExit.OneTaskAtATime` | src/ESPressio_Thread.hpp:429-491 | across all incarnations at most one task exists; when Initialize is about to create one, every earlier task is deleted, its dispatch is over, no record is queued, and gate, exit signal, pending flag and finalization flag are all clear |
| `TaskExit.OneRecordPerTask` | src/ESPressio_Thread.hpp:192-223 | every incarnation is finalized once: records are queued and dispatched exactly once each, in creation order, the worker that leaves its loop wins the finalization flag, and a suspended worker has queued its record |
| `TaskExit.ExitSignalIsCurrent` | src/ESPressio_Thread.hpp:468-470 | an exit signal on show was given by the latest incarnation after its task was deleted; none from an older incarnation survives to satisfy a later Shutdown |
| `ShutdownGuarantee.ShutdownKeepsPromiseIff` | src/ESPressio_Thread.hpp:365-407 | of the tasks created before the handle load: whatever happens later, a Shutdown that has returned to another task finds each of them deleted and its dispatch over, if and only if the load did not fall into the window (handle invalid, an exit still to be recorded, pending flag down) |
| `ShutdownGuarantee.WindowStages` | src/ESPressio_Thread.hpp:478-558 | the window is open exactly between the creation of a task and its publication, and from the taking of a handle that is given up until the pending flag is raised; the task lives in the first part and until its deletion in the second |
| `ShutdownGuarantee.ShutdownReturnsAfterLastAccess` | src/ESPressio_Thread.hpp:365-407 | the promise for the tasks created before the load, with no Initialize past its checks, a live handle, or the pending flag up at the load; for tasks created since see ShutdownDeliversIff |
| `ShutdownGuarantee.SafeOutsideWindow` | src/ESPressio_Thread.hpp:365-407 | a load outside the window, with a live handle or an invalid one, keeps the promise for the tasks created before it under every continuation |
| `ShutdownGuarantee.EarlyReturnInsideWindow` | src/ESPressio_Thread.hpp:387-397 | a load inside the window, and a caller that runs on alone, returns with the promise broken and nothing but the state changed |
| `ShutdownGuarantee.ReturnsWithTaskAlive` | src/ESPressio_Thread.hpp:478-491 | a run in which Shutdown returns between creation and publication, with the new task alive |
| `ShutdownGuarantee.ReturnsBeforeRecord` | src/ESPressio_Thread.hpp:552-557 | a run in which OnInitialization throws and Shutdown returns with the task deleted and its record still to be queued |
| `ShutdownDelivery.ShutdownDeliversIff` | src/ESPressio_Thread.hpp:365-407 | over every run: as long as no further call of Initialize begins, a Shutdown that has returned leaves no task and no dispatch to come, whatever happens, if and only if its handle load fell neither into the window nor into the preparation of a task |
| `ShutdownDelivery.ShutdownDelivers` | src/ESPressio_Thread.hpp:365-407 | what a caller can see to: with no Initialize in progress at the load and none begun until the return, no task and no dispatch is left |
| `ShutdownDelivery.DeliveredOutsideWindow` | src/ESPressio_Thread.hpp:365-407 | the same for every load outside the window and outside preparation, also while Initialize is past its preparation |
| `ShutdownDelivery.ReturnsToNewTask` | src/ESPressio_Thread.hpp:436-479 | from every load made while Initialize prepares, with a live handle or an invalid one, some continuation ends the earlier task, creates another and returns to it alive |
| `ShutdownDelivery.ReturnsWithTaskCreatedSince` | src/ESPressio_Thread.hpp:436-479 | a run in which Shutdown returns with a task alive that Initialize created after the load |
| `ShutdownDelivery.Settle` | src/ESPressio_Thread.hpp:213-223 | an incarnation under way while Initialize looks on can be brought to the end of its dispatch: terminated, finalized, recorded, deleted, released |
| `ShutdownDelivery.StepKeepsResting` | src/ESPressio_Thread.hpp:449-456 | a Thread whose last exit is recorded is Uninitialized, Terminating or Terminated, and Terminated until Initialize resets it |
| `ShutdownProgress.WaitingCallerHasAsked` | src/ESPressio_Thread.hpp:399-407 | over every run: a caller waiting for the exit of the current task finds the Thread asked to stop |
| `ShutdownProgress.UninitializedIsTerminated` | src/ESPressio_Thread.hpp:585-599 | over every run: a caller that found the current Thread Uninitialized takes it all the way to Terminated before it waits |
| `ShutdownProgress.ShutdownCompletes` | src/ESPressio_Thread.hpp:365-407 | from every reachable state with no Initialize at work, live handle or not, some continuation of steps of the caller, the worker and the dispatcher alone ends the call: Terminated, no task left, every exit dispatched |
| `ShutdownProgress.LiveShutdownCompletes` | src/ESPressio_Thread.hpp:399-407 | the same on a live handle, with nobody else asking for the stop |
| `ShutdownProgress.IdleShutdownCompletes` | src/ESPressio_Thread.hpp:380-397 | the same on an invalid handle, while a dispatch may still be under way |
| `ShutdownProgress.ShutdownEndsTerminated` | src/ESPressio_Thread.hpp:365-407 | over every run in which no call of Initialize is at work or begins: whatever happens, a Shutdown that has returned left the Thread Terminated with no task and no dispatch to come |
| `ShutdownProgress.SignalReleasesOne` | src/ESPressio_Thread.hpp:403-406 | over every run: no more waits have ended than exit signals were given, one still standing apart |
| `ShutdownProgress.StepKeepsAsked` | src/ESPressio_Thread.hpp:365-407 | every step of every party keeps every waiting caller in the state its request calls for |
| `TaskExit.AbortedInitializationIsClean` | src/ESPressio_Thread.hpp:515-558 | TerminatedDuringInitialization and InitializationException leave the state Terminated, the handle invalid, the gated task deleted, one record queued for it, and OnLoop never begun in that incarnation |
| `TaskExit.SuccessPublishesAndOpens` | src/ESPressio_Thread.hpp:560-566 | Success is returned by opening the gate of a published, still gated task |
| `TaskExit.PublicationNeverLoses` | src/ESPressio_Thread.hpp:481-491 | while Initialize calls do not overlap, the publishing compare-exchange always succeeds |
| `InitializeOutcome.UndisturbedInitialize` | src/ESPressio_Thread.hpp:429-566 | from every state: a call nothing disturbs returns the status that state, the platform and the start-on-initialize setting call for; Success leaves a new published task with the gate open, Running or Initialized as set, and any other status leaves handle, tasks and pending flag alone |
| `InitializeOutcome.StartedThreadRuns` | src/ESPressio_Thread.hpp:250-267 | a Thread started that way runs: its worker consumes the gate and begins OnLoop |
| `InitializeOutcome.StoppedCallAborts` | src/ESPressio_Thread.hpp:505-558 | over every run: a call stopped by anyone before its last look at the state returns one of the two aborting statuses, with the state Terminated, no task left and OnLoop never begun |
| `InitializeOutcome.StopIsSeenAtNextLook` | src/ESPressio_Thread.hpp:505-528 | either look at the state sees Terminating and Terminated, and gives the task up without initializing further |
| `InitializeOutcome.ThrowingCallAborts` | src/ESPressio_Thread.hpp:530-558 | over every run: once OnInitialization or a stored transition throws, the call returns InitializationException, whatever happens meanwhile |
| `TaskExit.OnLoopNeedsRunning` | src/ESPressio_Thread.hpp:250-267 | over every run and for every step of every party: a worker enters OnLoop from the state loop with the Thread Running, and in no other way |
| `TaskExit.LoopFollowsState` | src/ESPressio_Thread.hpp:250-267 | Running begins OnLoop, a stopped state ends the loop, any other state changes nothing |
| `TaskExit.OnLoopReturns` | src/ESPressio_Thread.hpp:410-427 | an OnLoop that returns leaves the state untouched; one that throws leaves the Thread asked to stop |
| `TaskExit.LifecycleMoves` | src/ESPressio_Thread.hpp:315-334 | a lifecycle call stores exactly what the literal transition table accepts |
| `TaskExit.ReportsAfterDeletion` | src/ESPressio_Thread.cpp:105-135 | OnTerminated and OnThreadTaskExited run after the worker of that incarnation is deleted, in state Terminated, with the pending flag still up |
| `TaskExit.StepKeepsInv` | src/ESPressio_Thread.hpp:365-566 | every atomic step of Initialize, the worker, the dispatcher, Shutdown and the lifecycle calls keeps the ownership invariant: initializer, worker and dispatcher own the exit of an incarnation one after the other |
| `TaskExit.Prepare` | src/ESPressio_Thread.hpp:436-491 | the checks and resets of Initialize touch nothing but the stage and state until the resets begin, and create a task only at the last step |
| `TaskExit.Start` | src/ESPressio_Thread.hpp:481-566 | the gated phase creates no task and queues no record, whatever user code does |
| `TaskExit.Stop` | src/ESPressio_Thread.hpp:526-528 | giving a task up queues exactly its record, and only when the queue has room |
| `TaskExit.WorkerStep` | src/ESPressio_Thread.hpp:410-427 | a worker step changes neither handle nor ledger, except that its one send queues its own record |
| `TaskExit.DispatcherStep` | src/ESPressio_Thread.cpp:105-135 | a dispatch keeps its incarnation through delete, report, give and clear, and is counted done at the clear alone |
| `ThreadTasks.ThreadTask.DeleteTask` | src/ESPressio_Thread.hpp:176-184 | the handle is taken and the task it named deleted |
| `ThreadTasks.ThreadTask.BeginTaskExitFinalization` | src/ESPressio_Thread.hpp:192-200 | true for the first caller only |
| `ThreadTasks.ThreadTask.QueueTaskExitFinalization` | src/ESPressio_Thread.hpp:202-207 | pending flag up and the record queued at the end; flag up and the send waiting while the queue is full; flag down again when the send is refused |
| `ThreadTasks.ThreadTask.StopTask` | src/ESPressio_Thread.hpp:526-526 | exactly the two steps by which the step system has Initialize delete the gated task; no task is left and the ownership invariant holds |
| `ThreadTasks.ThreadTask.FinalizeStoppedTaskExit` | src/ESPressio_Thread.hpp:209-211 | the claim always succeeds here; exactly the three steps of Initialize, standing at the send while the queue is full, with the ownership invariant kept; a refused send leaves the flag down and no record |
| `ThreadTasks.ThreadTask.FinalizeCurrentTaskExit` | src/ESPressio_Thread.hpp:213-223 | the same for the four steps of a worker, which ends suspended or waiting at the send |
| `ThreadTasks.ThreadTask.DispatchTermination` | src/ESPressio_Thread.cpp:105-135 | exactly the five steps of a dispatch, with the ownership invariant kept: no task is left, handle and flag are down, and the callbacks are always called, in state Terminated |
| `ThreadTasks.StopTakesTwoSteps` | src/ESPressio_Thread.hpp:176-184 | taking the handle and deleting the task, step by step |
| `ThreadTasks.StoppedExitTakesThreeSteps` | src/ESPressio_Thread.hpp:202-211 | claim, flag, and the record or the wait for room, step by step |
| `ThreadTasks.CurrentExitTakesFourSteps` | src/ESPressio_Thread.hpp:213-218 | claim, Terminated if Terminating, flag, and the record or the wait for room, step by step |
| `ThreadTasks.DispatchTakesFiveSteps` | src/ESPressio_Thread.cpp:105-135 | handle, deletion, report, exit signal, pending flag, step by step |
| `ThreadTasks.WorkerStepsKeepInv` | src/ESPressio_Thread.hpp:213-223 | any number of uninterrupted worker steps keeps the ownership invariant |
| `ThreadTasks.DispatcherStepsKeepInv` | src/ESPressio_Thread.cpp:105-135 | the same for the dispatcher |
| `ThreadTasks.StopStepsKeepInv` | src/ESPressio_Thread.hpp:526-528 | the same for Initialize giving a task up |
| `TerminationDispatcher.HandledInOrder` | src/ESPressio_ThreadTerminationDispatcher.cpp:66-86 | records queued are those handled, the one in progress and those waiting, in that order; at most the queue bound wait |
| `TerminationDispatcher.TaskNeedsPublishedQueue` | src/ESPressio_ThreadTerminationDispatcher.cpp:24-58 | at most one dispatcher task is ever created, never without a published queue, whatever fails and whoever calls |
| `TerminationDispatcher.SendFindsQueue` | src/ESPressio_ThreadTerminationDispatcher.cpp:115-138 | a call that reached the send finds the queue; its record is appended as soon as there is room and never dropped |
| `TerminationDispatcher.DispatchQueues` | src/ESPressio_ThreadTerminationDispatcher.cpp:115-138 | over every run: a call begun with the mutex free and room in the queue, and left alone, queues exactly its record and leaves the one dispatcher task and a free mutex |
| `TerminationDispatcher.FailedCreationRollsBack` | src/ESPressio_ThreadTerminationDispatcher.cpp:24-58 | over every run: a creation that fails leaves nothing published and the mutex free, for a later call to try again |
| `TerminationDispatcher.TurnHandlesOldest` | src/ESPressio_ThreadTerminationDispatcher.cpp:66-86 | an idle task takes the oldest waiting record, and a busy one completes the record it works on |
| `TerminationDispatcher.DispatcherDrains` | src/ESPressio_ThreadTerminationDispatcher.cpp:66-86 | left alone, the task handles everything queued in order, in two turns a record |
| `TerminationDispatcher.StepKeepsInv` | src/ESPressio_ThreadTerminationDispatcher.cpp:24-138 | queue-then-task-then-handle publication, mutual exclusion and conservation of records hold after every step |
| `TerminationDispatcher.Dispatcher.Initialize` | src/ESPressio_ThreadTerminationDispatcher.cpp:24-58 | an existing dispatcher is left alone, a failed attempt rolled back completely, a successful one leaves an empty queue and one task |
| `TerminationDispatcher.Dispatcher.Dispatch` | src/ESPressio_ThreadTerminationDispatcher.cpp:115-138 | queues the record last whenever the dispatcher is available, waiting for room if need be, and drops nothing |
| `TerminationDispatcher.Dispatcher.TakeTurn` | src/ESPressio_ThreadTerminationDispatcher.cpp:66-86 | one turn of the dispatcher task, as in the step system |
| `ThreadStates.TransitionTable` | src/ESPressio_Thread.hpp:153-174 | accepted transitions are exactly the pairs of a literal table, and destruction of what is not destroyed |
| `ThreadStates.RankGrows` | src/ESPressio_Thread.hpp:153-174 | between two resets accepted transitions only move on |
| `ThreadStates.EnteredOncePerLifetime` | src/ESPressio_Thread.hpp:153-174 | entering Initialized, Terminating or Terminated again takes a Terminated to Uninitialized reset in between |
| `ThreadStates.WalksAreOncePerLifetime` | src/ESPressio_Thread.hpp:153-174 | the same for whole histories |
| `ThreadStates.NothingAfterDestroyed` | src/ESPressio_Thread.hpp:155-171 | Destroyed is final |
| `ReentrantLifecycle.AfterOperation` | src/ESPressio_Thread.hpp:315-334 | for every tree of nested calls the stored states stay a walk, each specific callback started when the state it announces was the one stored last, nothing recorded is lost, and an exception surfaces only on the initializing task after a stored transition |
| `ReentrantLifecycle.AfterDispatch` | src/ESPressio_Thread.hpp:269-303 | the same for the callbacks of one transition |
| `ReentrantLifecycle.AfterObservers` | src/ESPressio_Thread.hpp:52-70 | the same for the observers, whose exceptions are contained |
| `ReentrantLifecycle.AfterScript` | src/ESPressio_Thread.hpp:287-293 | the same for one callback that makes any lifecycle calls, catching or not |
| `ReentrantLifecycle.ReentrantWalk` | src/ESPressio_Thread.hpp:315-334 | calls taking turns, each with its own tree of nested calls, enter each phase once per lifetime |
| `ReentrantLifecycle.DestroyedIsFinal` | src/ESPressio_Thread.hpp:153-174 | no call tree stores a state or starts a callback on a destroyed Thread |
| `ReentrantLifecycle.OvertakenStateIsNotAnnounced` | src/ESPressio_Thread.hpp:287-296 | a state-change callback that moves on silences the event callback it overtook |
| `ReentrantLifecycle.AcceptedIsStored` | src/ESPressio_Thread.hpp:315-334 | for every tree of callbacks: a call stores its state first of all if and only if the literal table accepts the pair, and for TrySetThreadState the expected state matches; otherwise it does nothing |
| `ReentrantLifecycle.CurrentStateIsAnnounced` | src/ESPressio_Thread.hpp:287-296 | the callback of Initialized, Running, Paused or Terminated starts right after the state-change callback if that leaves the state current; a state without one starts none |
| `ReentrantLifecycle.ObserverIsTold` | src/ESPressio_Thread.hpp:52-70 | the same for each observer after it has been told of the change |
| `ReentrantLifecycle.FailureSurfaces` | src/ESPressio_Thread.hpp:269-303 | a call throws if and only if it is the initializing task's and one of its own two callbacks threw |
| `ReentrantLifecycle.UncaughtEndsCallback` | src/ESPressio_Thread.hpp:287-293 | an exception a callback does not catch ends it; after one that it catches it goes on |
| `ReentrantLifecycle.QuietCall` | src/ESPressio_Thread.hpp:315-321 | with callbacks that do nothing an accepted call leaves its state, with its callback the only one started |
| `ReentrantLifecycle.TerminateStores` | src/ESPressio_Thread.hpp:585-599 | for every tree of callbacks: Terminate stores Terminating on Uninitialized, Initialized, Running and Paused, goes on to Terminated from Uninitialized, and does nothing on the rest |
| `ReentrantLifecycle.Lifecycle.SetThreadState` | src/ESPressio_Thread.hpp:315-321 | the stored state, history, callbacks started and exception are those of the pure reading |
| `ReentrantLifecycle.Lifecycle.TrySetThreadState` | src/ESPressio_Thread.hpp:324-334 | the same when the expected state must match; true means a transition was stored and no exception surfaced |
| `ReentrantLifecycle.Lifecycle.Start` | src/ESPressio_Thread.hpp:601-623 | Running is stored on Initialized and Paused and nothing otherwise; the answer for every state, but for going on to Initialize |
| `ReentrantLifecycle.Lifecycle.Pause` | src/ESPressio_Thread.hpp:625-627 | Paused is stored on Running and nothing otherwise |
| `ReentrantLifecycle.Lifecycle.Terminate` | src/ESPressio_Thread.hpp:585-599 | the state, history, callbacks and exception are those of the pure reading of Terminate |
| `ReentrantLifecycle.Lifecycle.Dispatch` | src/ESPressio_Thread.hpp:269-303 | state change, then event if still current, then observers; failure surfaces only on the initializing task |
| `ReentrantLifecycle.Lifecycle.NotifyObservers` | src/ESPressio_Thread.hpp:52-70 | each observer is told of the change, and of the state if it is still current |
| `ReentrantLifecycle.Lifecycle.Contend` | src/ESPressio_Thread.hpp:315-334 | any sequence of turns, one after the other, leaves a sound history with each phase entered once per lifetime |
| `TransitionLock.ContendedWalk` | src/ESPressio_Thread.hpp:315-334 | at every moment of every interleaving of any number of tasks, with loads, stores and callbacks as single steps, the stored states are a walk that enters each phase once per lifetime, and each specific callback started while its state was the one stored |
| `TransitionLock.InterleavingsAreTurns` | src/ESPressio_Thread.hpp:315-334 | every interleaving is a sequence of turns: states and callbacks are those of the outermost calls one after the other in the order they took the mutex, once its owner has finished |
| `TransitionLock.OnlyOwnerChangesLog` | src/ESPressio_Thread.hpp:316-320 | only the owner of the recursive mutex stores a state or starts a callback, although no step asks who owns it |
| `TransitionLock.OwnerNeverWaits` | src/ESPressio_Thread.hpp:315-316 | a call made by a callback never waits for the mutex its own task owns |
| `TransitionLock.FreeMutexIsTaken` | src/ESPressio_Thread.hpp:315-316 | over every run: a call that begins waits for the mutex, and a free one is taken by whoever comes to it |
| `TransitionLock.OwnerFinishes` | src/ESPressio_Thread.hpp:315-334 | left to itself the owner finishes whatever tree of calls it is in and gives the mutex up, with the log its turns in order come to |
| `TransitionLock.CompletedStays` | src/ESPressio_Thread.hpp:269-334 | a step of a task leaves what its stack of calls will come to unchanged |
| `TransitionLock.StepKeepsInv` | src/ESPressio_Thread.hpp:315-334 | mutual exclusion with the right depth, the truth of what the owner has loaded, and serializability hold after every step |
| `CleanupOwnership.AutomaticIsWonOnceAndKept` | src/ESPressio_Thread.hpp:629-638 | over every interleaving at most one automatic claim is won, and Automatic is never left |
| `CleanupOwnership.ManualExcludesAutomatic` | src/ESPressio_Thread.hpp:680-699 | after a manual claim an automatic one is won only if SetFreeOnTerminate(true) returned the claim first |
| `CleanupOwnership.ShutdownSettlesOwnership` | src/ESPressio_Thread.hpp:365-374 | while nobody turns automatic release back on, the first compare-exchange of Shutdown fixes the owner for good |
| `CleanupOwnership.NoReleaseLasts` | src/ESPressio_Thread.hpp:680-699 | while nobody turns automatic release back on, a claim that is taken stays as it is |
| `CleanupOwnership.StepKeepsOwnership` | src/ESPressio_Thread.hpp:365-374 | the successful compare-exchanges form an ownership history ending in the current claim |
| `CleanupOwnership.LoneSetFreeOnTerminate` | src/ESPressio_Thread.hpp:680-699 | from every state: a call left alone stores the flag, then returns a manual claim or takes an available one, and leaves everything else |
| `CleanupOwnership.LoneShutdownClaim` | src/ESPressio_Thread.hpp:365-374 | from every state: left alone it takes the claim if it is available and turns automatic release off |
| `CleanupOwnership.LoneTryClaim` | src/ESPressio_Thread.hpp:629-638 | from every state: left alone it wins exactly an available claim on a terminated Thread that may be released |
| `CleanupOwnership.TerminationAllowsClaim` | src/ESPressio_Thread.hpp:629-638 | an available Thread that may be released is claimed once terminated, and not while it runs |
| `CleanupOwnership.CleanupControl.CompareExchange` | src/ESPressio_Thread.hpp:366-372 | the exchange of the step system; true exactly when the claim was the expected one |
| `CleanupOwnership.CleanupControl.SetFreeOnTerminate` | src/ESPressio_Thread.hpp:680-699 | an uninterrupted call: flag stored, then Manual returned or Available taken; Automatic stays |
| `CleanupOwnership.CleanupControl.TakeManualOwnership` | src/ESPressio_Thread.hpp:365-374 | an uninterrupted call: afterwards the claim is Manual unless it was Automatic, and automatic release is off |
| `CleanupOwnership.CleanupControl.TryClaimAutomaticCleanup` | src/ESPressio_Thread.hpp:629-638 | an uninterrupted call: won exactly for a terminated, automatically released Thread whose claim is available |
| `TaskConfiguration.PublishedTaskMatchesConfiguration` | src/ESPressio_Thread.hpp:658-678 | while a handle is published, the stored core, stack size and priority are those its task was created with |
| `TaskConfiguration.ConcurrentInitializationIsNeverLost` | src/ESPressio_Thread.hpp:458-493 | however many initializers compete under the configuration mutex, no publication fails |
| `TaskConfiguration.AdvanceKeepsConsistent` | src/ESPressio_Thread.hpp:458-493 | what the holder of the configuration mutex has loaded still holds when it acts on it, although deletion takes the handle without the mutex |
| `TaskConfiguration.LoneSetter` | src/ESPressio_Thread.hpp:658-678 | from every state with the mutex free: a setter left alone changes its setting while no handle is published, and nothing otherwise |
| `TaskConfiguration.DeletionReopensSettings` | src/ESPressio_Thread.hpp:176-184 | deleting the task opens the settings again |
| `TaskConfiguration.LoneInitialize` | src/ESPressio_Thread.hpp:458-493 | left alone it creates one task with exactly what is stored and publishes it |
| `TaskConfiguration.TaskSettings.SetCoreId` | src/ESPressio_Thread.hpp:658-663 | stored only while no task handle is published |
| `TaskConfiguration.TaskSettings.SetStackSize` | src/ESPressio_Thread.hpp:665-671 | stored only while no task handle is published, and never as zero |
| `TaskConfiguration.TaskSettings.SetPriority` | src/ESPressio_Thread.hpp:673-678 | stored only while no task handle is published |
| `TaskConfiguration.TaskSettings.CreateTask` | src/ESPressio_Thread.hpp:458-493 | creates and publishes a task with the stored configuration, or changes nothing |
| `TaskConfiguration.TaskSettings.DeleteTask` | src/ESPressio_Thread.hpp:176-184 | the handle is taken, once |
| `ThreadManagers.ThreadManager.constructor` | src/ESPressio_ThreadManager.hpp:189-189 | an empty registry, core rotation at zero |
| `ThreadManagers.ThreadManager.FindThread` | src/ESPressio_ThreadManager.hpp:204-210 | finds the record of a pointer exactly when there is one |
| `ThreadManagers.ThreadManager.IsIdInUse` | src/ESPressio_ThreadManager.hpp:237-240 | true exactly when some record carries the identifier |
| `ThreadManagers.ThreadManager.FindFreeId` | src/ESPressio_ThreadManager.hpp:232-250 | the least free identifier from 1 to 255, else 0 if free, else none |
| `ThreadManagers.ThreadManager.AddThread` | src/ESPressio_ThreadManager.hpp:199-281 | answer, registry and core rotation satisfy the registration relation; distinct records stay distinct |
| `ThreadManagers.ThreadManager.InsertThread` | src/ESPressio_ThreadManager.hpp:221-265 | the same for the section under the write lock alone, which looks again |
| `ThreadManagers.ThreadManager.RemoveThread` | src/ESPressio_ThreadManager.hpp:284-302 | erases the record of a pointer, keeps the order of the rest and the core rotation |
| `ThreadManagers.ThreadManager.RemoveThreadById` | src/ESPressio_ThreadManager.hpp:305-323 | erases the record of an identifier, keeps the order of the rest and the core rotation |
| `ThreadManagers.ThreadManager.BeginIteration` | src/ESPressio_ThreadManager.hpp:153-156 | one more active iteration |
| `ThreadManagers.ThreadManager.EndIteration` | src/ESPressio_ThreadManager.hpp:158-169 | one less; the last one out takes a pending cleanup with it |
| `ThreadManagers.ThreadManager.ClaimTerminated` | src/ESPressio_ThreadManager.hpp:394-405 | claims exactly the snapshot records whose claim succeeds, in snapshot order |
| `ThreadManagers.ThreadManager.RemoveClaimed` | src/ESPressio_ThreadManager.hpp:409-423 | erases exactly the registered records that match a claim in identifier and pointer, keeps the order of the rest, and says which claims matched |
| `ThreadManagers.ThreadManager.EraseKey` | src/ESPressio_ThreadManager.hpp:411-418 | erases the one record with that identifier and pointer, if any |
| `ThreadManagers.ThreadManager.DeleteRemoved` | src/ESPressio_ThreadManager.hpp:426-434 | deletes what the pass itself took out of the registry, once each and in claim order |
| `ThreadManagers.ThreadManager.CleanUp` | src/ESPressio_ThreadManager.hpp:364-448 | a pass that nothing interrupts: defers and changes nothing while an iteration is active; otherwise registry, deletions and all counters are exactly those of the claimable records |
| `ThreadManagers.Perform` | src/ESPressio_ThreadManager.hpp:199-323 | each operation on the object, a cleanup pass taking out what it claimed included, is the registry operation of the same name |
| `ThreadManagers.Replay` | src/ESPressio_ThreadManager.hpp:199-423 | any operations on a new manager are a run of the registry, so what is proved of runs holds of the object |
| `ThreadManagers.UninterruptedPass` | src/ESPressio_ThreadManager.hpp:409-434 | with the registry unchanged since the snapshot every claim is found again, and nothing else is touched |
| `ThreadRegistry.AutomaticIdIsUnique` | src/ESPressio_ThreadManager.hpp:232-250 | there is only one identifier the search may answer |
| `ThreadRegistry.RegistersIsDeterministic` | src/ESPressio_ThreadManager.hpp:199-281 | over distinct records the registration relation fixes the answer and the new registry |
| `ThreadRegistry.FullIffAllIdsInUse` | src/ESPressio_ThreadManager.hpp:243-250 | at most 256 records, and none is free exactly when there are 256 |
| `ThreadRegistry.OperationKeepsDistinct` | src/ESPressio_ThreadManager.hpp:199-423 | registration, refusal, removal and the removals of a cleanup pass keep identifiers and pointers distinct |
| `ThreadRegistry.RegistryInvariant` | src/ESPressio_ThreadManager.hpp:199-423 | over every run, removals by cleanup passes included, identifiers and pointers stay distinct and the core counter is the number of insertions modulo the core count |
| `ThreadRegistry.InsertionsRotateCores` | src/ESPressio_ThreadManager.hpp:259-262 | the k-th thread ever inserted gets core k modulo the core count, whatever was removed in between |
| `ThreadRegistry.LimitErrorExactly` | src/ESPressio_ThreadManager.hpp:243-250 | the limit error is answered if and only if an unregistered thread asks for an automatic identifier among 256 records |
| `ThreadRegistry.RemovalIsExact` | src/ESPressio_ThreadManager.hpp:305-323 | removal by identifier takes out the one record that carries it and nothing else |
| `ThreadRegistry.ErasesOne` | src/ESPressio_ThreadManager.hpp:418-418 | erasing one record of a distinct registry leaves exactly the others |
| `ThreadRegistry.EraseIsKept` | src/ESPressio_ThreadManager.hpp:411-418 | erasing the only match of a claim is filtering it out of the registry |
| `ThreadRegistry.ErasedIsGone` | src/ESPressio_ThreadManager.hpp:284-323 | after a removal neither the pointer nor the identifier is found |
| `IterationPinning.DeletionIsSafe` | src/ESPressio_ThreadManager.hpp:425-434 | a thread a pass is about to delete, without the mutex, is alive, unregistered, in no live snapshot of any iteration or other pass, and claimed by no other pass |
| `IterationPinning.VisitedThreadsAreAlive` | src/ESPressio_ThreadManager.hpp:326-350 | everything registered, visited by an iteration or examined by a pass is alive |
| `IterationPinning.DeletedAtMostOnce` | src/ESPressio_ThreadManager.hpp:426-434 | over a whole run each thread is deleted at most once |
| `IterationPinning.ManualOwnershipExcludesCleanup` | src/ESPressio_Thread.hpp:365-374 | a thread the application claims before any pass does is never deleted or taken out of the registry by one while the claim is not returned |
| `IterationPinning.ActiveCountsGuards` | src/ESPressio_ThreadManager.hpp:153-180 | the active count is the number of live guards, and a pending cleanup implies one |
| `IterationPinning.DeferredCleanupRuns` | src/ESPressio_ThreadManager.hpp:158-169 | once no iteration is live and no ended one owes its call, every deferred request has been followed by a pass |
| `IterationPinning.StepKeepsUnseen` | src/ESPressio_ThreadManager.hpp:364-448 | nothing awaiting deletion is ever registered, visited or listed |
| `IterationPinning.StepKeepsLive` | src/ESPressio_ThreadManager.hpp:364-448 | nothing deleted is ever registered, visited, listed or claimed |
| `IterationPinning.StepKeepsExclusive` | src/ESPressio_ThreadManager.hpp:395-405 | every commitment rests on a claim won, and no two passes share one |
| `IterationPinning.StepKeepsMutexHeld` | src/ESPressio_ThreadManager.hpp:364-380 | a pass holds the mutex only while no iteration is live |
| `CleanupPasses.OnlyEligibleIsDeleted` | src/ESPressio_ThreadManager.hpp:394-434 | over every run: whatever a pass can delete was, at an earlier step of that pass, listed, eligible and claimed neither automatically nor by the application, and the pass won it there |
| `CleanupPasses.EligibleIsDeleted` | src/ESPressio_ThreadManager.hpp:394-434 | whatever others do in between: an eligible, unclaimed thread the pass examines, and finds registered as it saw it, is taken out of the registry and can be deleted after the unlock |
| `CleanupPasses.CleanUpDeletes` | src/ESPressio_ThreadManager.hpp:364-448 | a whole pass over a registered, unclaimed thread can delete it, and takes it out of the registry, if and only if it is eligible |
| `CleanupPasses.RemovalIsExact` | src/ESPressio_ThreadManager.hpp:409-423 | the removal takes exactly the claimed threads that are registered under the identifier the pass saw |
| `CleanupPasses.PassListsRegistered` | src/ESPressio_ThreadManager.hpp:364-392 | a pass with no iteration live takes the mutex and lists exactly what is registered |
| `CleanupPasses.IterationVisitsRegistered` | src/ESPressio_ThreadManager.hpp:326-350 | over every run: ForEachThread visits every registered thread and no other, WithThread the one that carries the identifier, or nobody |
| `CleanupPasses.SnapshotLasts` | src/ESPressio_ThreadManager.hpp:326-350 | a snapshot lasts until the iteration ends, whatever is registered, removed or deleted meanwhile |
| `CleanupPasses.ReachableDistinctIds` | src/ESPressio_ThreadManager.hpp:199-281 | over every run no two registered threads share an identifier |
| `PrecisionTiming.AddSaturated` | src/ESPressio_PrecisionThread.hpp:92-95 | the unbounded sum, clamped at the largest word |
| `PrecisionTiming.Advance` | src/ESPressio_PrecisionThread.hpp:228-235 | the unbounded product, clamped, with no intermediate that wraps |
| `PrecisionTiming.AdvanceDeadline` | src/ESPressio_PrecisionThread.hpp:224-238 | the word-sized update is the stepping reference clamped at the largest word, strictly after now unless now is the largest word |
| `PrecisionTiming.GridClosedForm` | src/ESPressio_PrecisionThread.hpp:225-238 | one division and one multiplication land where stepping along the grid does |
| `PrecisionTiming.NeverEarlyNeverOverslept` | src/ESPressio_PrecisionThread.hpp:209-212 | a pass iterates exactly when the deadline has come, and never asks to sleep past it |
| `PrecisionTiming.BlockingWaitsAreCeiling` | src/ESPressio_PrecisionThread.hpp:161-167 | with an exact timer, r nanoseconds take ceil(floor(r/10^6)/(2^32-2)) blocking waits before the yielding tail |
| `PrecisionTiming.AverageIsBetween` | src/ESPressio_PrecisionThread.hpp:151-158 | the average frequency lies between the smallest and the largest per-sample frequency |
| `PrecisionTiming.AvailableTime` | src/ESPressio_PrecisionThread.hpp:451-481 | the saturated deadline minus now, clamped into a signed word; zero when unset |
| `PrecisionRuns.DeadlineStaysOnGrid` | src/ESPressio_PrecisionThread.hpp:224-238 | throughout an epoch the deadline is first + slots * period, clamped at the largest word |
| `PrecisionRuns.SlotsAreConserved` | src/ESPressio_PrecisionThread.hpp:187-243 | iterations plus reported skips number the grid points from the first deadline to the latest start, if and only if the deadline run against had not been clamped |
| `PrecisionRuns.IterationStartsInItsSlot` | src/ESPressio_PrecisionThread.hpp:187-243 | an iteration starts inside the slot it stands for, so no drift accumulates |
| `PrecisionRuns.UnscheduledPassOpensEpoch` | src/ESPressio_PrecisionThread.hpp:204-207 | a pass over an unscheduled thread iterates at once and opens an epoch at its own start |
| `PrecisionRuns.ChangedScheduleIsDue` | src/ESPressio_PrecisionThread.hpp:324-381 | after a reset, a bump or a new period the next pass is due at once, with exactly the skips a bump leaves behind |
| `PrecisionRuns.OvertakenIterationIsForgotten` | src/ESPressio_PrecisionThread.hpp:260-267 | an iteration overtaken by a reset just before its second section leaves no baseline; the general case is PreviousIsLatestCurrent |
| `PrecisionRuns.FinishAcceptedIff` | src/ESPressio_PrecisionThread.hpp:262-266 | the second section accepts its iteration if and only if the resets since its start number a multiple of 2^64 |
| `PrecisionRuns.InProgressIsRunning` | src/ESPressio_PrecisionThread.hpp:240-241 | the generation word is the captured one advanced by the resets since |
| `PrecisionRuns.LatestCurrentIsLatest` | src/ESPressio_PrecisionThread.hpp:121-140 | the reference reading finds the latest iteration with both sections after the last reset, or that there is none |
| `PrecisionRuns.PreviousIsLatestCurrent` | src/ESPressio_PrecisionThread.hpp:260-267 | the remembered start and end are those of that iteration |
| `PrecisionRuns.DeltaMeasuresLatestCurrent` | src/ESPressio_PrecisionThread.hpp:213-218 | the delta handed to Iterate is zero without such an iteration, else now minus its start or its end as the mode last set says, clipped at zero |
| `PrecisionRuns.WindowIsLatestSpans` | src/ESPressio_PrecisionThread.hpp:142-150 | the deque is always the last nonzero start-to-start spans since the last clear, as many as the count last set |
| `PrecisionRuns.SpansChain` | src/ESPressio_PrecisionThread.hpp:213-222 | under a monotone clock each span begins where the one before ended |
| `PrecisionRuns.WindowTelescopes` | src/ESPressio_PrecisionThread.hpp:142-159 | under a monotone clock the window adds up to the latest start minus the start preceding the window |
| `PrecisionRuns.DesiredNeverBelowPeriod` | src/ESPressio_PrecisionThread.hpp:366-414 | no order of setters leaves a desired period shorter than the period |
| `PrecisionRuns.SettingsAreLastSet` | src/ESPressio_PrecisionThread.hpp:353-439 | over every run: period, mode and sample count are the arguments of their last setters, the desired period the last one asked for lifted to every period since; no pass, reset or other setter changes them |
| `PrecisionRuns.NewPeriodIsKept` | src/ESPressio_PrecisionThread.hpp:366-381 | after a new period p the first pass iterates, and a pass d later waits, for p - d, if and only if p > 0 and d < p |
| `PrecisionRuns.BumpIsKept` | src/ESPressio_PrecisionThread.hpp:324-332 | after a bump a pass iterates if and only if it comes at or after the bump, or there is no period |
| `PrecisionRuns.ActiveStartIsLatestPass` | src/ESPressio_PrecisionThread.hpp:240-240 | over every run: the active start is that of the latest iterating pass since the last reset of measurements |
| `PrecisionRuns.AvailableTimeIsLeft` | src/ESPressio_PrecisionThread.hpp:451-481 | over every run: the time available is what is left of the desired period, counted from that start, saturated and clamped |
| `PrecisionThreads.PrecisionThread.constructor` | src/ESPressio_PrecisionThread.hpp:76-90 | a fresh schedule |
| `PrecisionThreads.PrecisionThread.RecordSample` | src/ESPressio_PrecisionThread.hpp:142-159 | the window slides by one sample and the cached frequencies stay those of the window |
| `PrecisionThreads.PrecisionThread.SlideSamples` | src/ESPressio_PrecisionThread.hpp:147-150 | push and pop-while-too-long keep the newest samples in order |
| `PrecisionThreads.PrecisionThread.AverageSamples` | src/ESPressio_PrecisionThread.hpp:151-158 | the accumulating loop computes the average of the window |
| `PrecisionThreads.PrecisionThread.BeginPass` | src/ESPressio_PrecisionThread.hpp:201-243 | stored state and decision are those of the pure first section |
| `PrecisionThreads.PrecisionThread.StartIteration` | src/ESPressio_PrecisionThread.hpp:212-242 | delta, skips, captured generation and new state of an iterating pass |
| `PrecisionThreads.PrecisionThread.MeasureDelta` | src/ESPressio_PrecisionThread.hpp:213-222 | delta from the configured baseline, sample from the previous start |
| `PrecisionThreads.PrecisionThread.MoveDeadline` | src/ESPressio_PrecisionThread.hpp:224-238 | skips and deadline are those of stepping along the grid, in words |
| `PrecisionThreads.PrecisionThread.FinishPass` | src/ESPressio_PrecisionThread.hpp:260-267 | start and end are stored only in the generation they were measured in |
| `PrecisionThreads.PrecisionThread.OnLoop` | src/ESPressio_PrecisionThread.hpp:187-271 | a call with nothing between its sections: a work wake consumes the request and leaves the schedule alone; otherwise waits or iterates as the two sections decide |
| `PrecisionThreads.PrecisionThread.WakeForWork` | src/ESPressio_PrecisionThread.hpp:174-177 | sets the request and nothing else |
| `PrecisionThreads.PrecisionThread.ResetMeasurements` | src/ESPressio_PrecisionThread.hpp:121-130 | a new generation, no baseline, no samples |
| `PrecisionThreads.PrecisionThread.Reset` | src/ESPressio_PrecisionThread.hpp:132-140 | unscheduled, with measurements cleared |
| `PrecisionThreads.PrecisionThread.BumpTo` | src/ESPressio_PrecisionThread.hpp:324-332 | the deadline becomes now |
| `PrecisionThreads.PrecisionThread.SetIterationDeltaMode` | src/ESPressio_PrecisionThread.hpp:353-359 | a change of mode clears the measurements, the same mode again does nothing |
| `PrecisionThreads.PrecisionThread.SetIterationPeriod` | src/ESPressio_PrecisionThread.hpp:366-381 | period stored, desired period lifted to it, schedule reopened |
| `PrecisionThreads.PrecisionThread.SetDesiredIterationPeriod` | src/ESPressio_PrecisionThread.hpp:403-414 | desired period stored, lifted to the period |
| `PrecisionThreads.PrecisionThread.SetIterationSampleCount` | src/ESPressio_PrecisionThread.hpp:433-439 | window emptied, bound stored |
| `PrecisionThreads.Replay` | src/ESPressio_PrecisionThread.hpp:187-439 | performing any operations on the stored fields leads where the pure run leads, so what is proved of runs holds of the object |
| `PrecisionThreads.Perform` | src/ESPressio_PrecisionThread.hpp:187-439 | the same for one operation |
| `ScheduleWake.NoLostWake` | src/ESPressio_PrecisionThread.hpp:245-253 | a worker blocked on an empty signal while no caller owes a give has no work request, no stop request and an up-to-date deadline |
| `ScheduleWake.OwedGiveReleasesWorker` | src/ESPressio_PrecisionThread.hpp:117-119 | a blocked worker with something unseen has the signal or an owed give, and that give sends it back to the state loop |
| `ScheduleWake.StepKeepsInv` | src/ESPressio_PrecisionThread.hpp:174-191 | every publication, give, worker step and time-out keeps it so |
| `ScheduleWake.RequestIsOnlyServed` | src/ESPressio_PrecisionThread.hpp:187-191 | in every state and for every step: a request goes away only by the worker taking it and beginning OnWorkWake |
| `ScheduleWake.OnlyRequestsAreServed` | src/ESPressio_PrecisionThread.hpp:187-191 | OnWorkWake begins for a request, which it consumes, and for nothing else |
| `ScheduleWake.RequestStandsOrIsServed` | src/ESPressio_PrecisionThread.hpp:174-191 | over every continuation: a published request stands until OnWorkWake has begun after it |
| `ScheduleWake.WakesWereRequested` | src/ESPressio_PrecisionThread.hpp:174-191 | over every run: OnWorkWake has begun at most as often as work was requested |
| `ScheduleWake.RequestIsServedSoon` | src/ESPressio_PrecisionThread.hpp:187-191 | from wherever it stands, a worker nobody stops begins OnWorkWake within five of its own steps once the gives are made |
| `ScheduleWake.BlockedWorkerIsWoken` | src/ESPressio_PrecisionThread.hpp:174-191 | over every run: from the blocked wait three of its own steps serve the request |
| `ScheduleWake.BlockedWorkerStops` | src/ESPressio_PrecisionThread.hpp:117-119 | over every run: from the blocked wait a stop request takes it out of the loop in two |
| `ScheduleWake.BlockedWorkerRecomputes` | src/ESPressio_PrecisionThread.hpp:132-140 | over every run: from the blocked wait a new deadline is looked at within three |
| `ScheduleWake.PublicationShows` | src/ESPressio_PrecisionThread.hpp:174-177 | what a caller publishes is there at once, and nothing else is |

## Left out

- `_initialize`, `_taskEntry`, the state loop and `Shutdown` as methods: they block and run user code in between, so
  they are step systems on values in `TaskExit`, which do not capture update in place or aliasing.
- ThreadTasks.ThreadTask.FinalizeStoppedTaskExit: with a refused send it says what is left behind, but the step system
  has no such step, so no invariant is claimed for what follows; the same goes for FinalizeCurrentTaskExit.
- CleanupOwnership.CleanupControl.SetFreeOnTerminate: as a method it is one uninterrupted call, as are
  TakeManualOwnership and TryClaimAutomaticCleanup; their interleavings are the step system's in the same module.
- ThreadManagers.ThreadManager.CleanUp: as a method it is one uninterrupted pass; interleaved passes are those of
  IterationPinning, and the removals of an interrupted pass are operations of ThreadManagers.Replay.
- PrecisionThreads.PrecisionThread.OnLoop: as a method it has nothing between its two sections; interleaved sections
  are the Loop and Finish operations of PrecisionThreads.Replay.
- ReentrantLifecycle.Lifecycle.Contend: its turns follow one another; TransitionLock shows that interleaved calls come
  to such turns. Whether the initializing task makes a call is fixed per outermost call.
- ReentrantLifecycle.Lifecycle.Start: answers that it goes on to Initialize instead of calling it; what that call
  does is in TaskExit and InitializeOutcome.
- Observer registration, callback storage and what observers are told; a callback is any tree of lifecycle calls
  that may throw, and in `TaskExit` any steps of the other parties.
- Failed signals, failed sends inside the step systems, so the branch at src/ESPressio_Thread.hpp:560-564, and the
  null-signal and registration checks at src/ESPressio_Thread.hpp:430-435.
- Whether a second concurrent Shutdown caller or a full queue ever makes progress: a send waits while it holds the
  dispatcher's mutex, and an exit signal releases one caller. What is proved of these is what holds on return.
- Whether every queued record points to a live object: automatic cleanup ignores the pending flag, so this rests on
  the order of cleanup passes across Threads, which the model does not join up.
- Destruction of an object whose loop still runs, and the unpinned pointer GetThread returns; the repository
  declares both unsupported.
- InitializeWithResults and the other bulk operations, which are iterations with a fixed callback.
- Two AddThread calls for one pointer overlapping between read lock and write lock: `InsertThread` covers the second
  look, and a run lists registrations in the order of the section that answered them.
- Weak memory ordering, floating-point rounding, and the width of the sample count, which is only compared.
- ESPressio's System, Task, Timing, Units and Observable libraries, the lock wrappers of
  src/ESPressio_ThreadSafe.hpp, stack telemetry, serialization traits and memory placement.
- GetIterationFrequency and the other getters, which return a field.
