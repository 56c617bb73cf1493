/**
 * One Thread across any number of incarnations: the initializing task, the gated worker, the termination
 * dispatcher, any number of Shutdown callers and any other task's lifecycle calls, one atomic step at a time.
 *
 * Initialize calls on the Thread do not overlap, signals and the queue do not fail, and the object is not
 * destroyed during the run. A stored transition is one step; whatever its callbacks do are further steps.
 */
module TaskExit {
  import opened Foundations
  import opened ThreadStates

  datatype Status =
    | Success
    | AlreadyInitialized
    | InvalidState
    | TerminationDispatcherUnavailable
    | TerminationDispatchPending
    | TaskCreationFailed
    | ConcurrentInitializationLost
    | TerminatedDuringInitialization
    | InitializationException

  /** Initialize before it has created a task. */
  datatype Preparation =
    | CheckHandle | CheckPending | CheckDispatcher | CheckState | ResetState | RecheckHandle
    | ResetExit | ResetGate | ResetFinalization | CreateTask

  /** Initialize while the new task is gated. */
  datatype Startup =
    | Publish | UserInitialization | ReadAfterUser | SetInitialized | ReadAfterInitialized | SetRunning
    | OpenGate | ForceTerminated | CatchRead | CatchTerminate | CatchTerminated

  /** Initialize giving the gated task up. */
  datatype Teardown = TakeHandle | DeleteTask(taken: Option<nat>) | ClaimExit | MarkPending | SendRecord

  datatype Stage =
    | Outside(last: Status)
    | Preparing(preparation: Preparation)
    | Starting(startup: Startup)
    | Stopping(teardown: Teardown, status: Status)

  datatype Worker = Gated | Looping | InLoop | Claiming | Finishing | Announcing | Sending | Suspended

  /** A dispatch record of this Thread, tagged with its incarnation, or of another one. */
  datatype Record = Own(incarnation: nat) | Other

  datatype Dispatcher =
    | Receiving
    | Elsewhere                              // handling another Thread's record
    | Exchanging(incarnation: nat)           // from here on, the record being dispatched
    | Deleting(incarnation: nat, taken: Option<nat>)
    | Reporting(incarnation: nat)            // the state test and the OnTerminated callbacks
    | Giving(incarnation: nat)
    | Clearing(incarnation: nat)

  /**
   * A Shutdown caller that is none of the tasks above; target counts the tasks created when it loaded the handle,
   * exposed says that it loaded an invalid one inside the window.
   */
  datatype Waiter =
    | LiveTerminate(target: nat)
    | LiveTerminated(target: nat)            // Terminate found the Thread Uninitialized
    | LiveWait(target: nat)
    | LivePending(target: nat)
    | IdleRead(target: nat, exposed: bool)
    | IdleTerminate(target: nat, exposed: bool)
    | IdleTerminated(target: nat, exposed: bool)
    | IdlePending(target: nat, exposed: bool)
    | Back(target: nat, exposed: bool)         // Shutdown has returned

  datatype System = System(
    state: ThreadState,
    handle: Option<nat>,         // _taskHandle; a task is named by its incarnation
    pending: bool,               // _terminationDispatchPending
    finalizing: bool,            // _taskExitFinalizationStarted
    exit: Option<nat>,           // _taskExited; when given, tagged with the incarnation that gave it
    gate: bool,                  // _taskStartGate
    stage: Stage,
    workers: map<nat, Worker>,   // the tasks that exist
    queue: seq<Record>,
    dispatcher: Dispatcher,
    waiters: map<nat, Waiter>,
    created: nat,                // ghost: tasks created so far
    sent: seq<nat>,              // ghost: incarnations of the records queued so far
    done: seq<nat>,              // ghost: incarnations whose dispatch has made its last access
    looped: set<nat>)            // ghost: incarnations that have begun OnLoop

  datatype Action =
    | Initializer(ok: bool, throws: bool)   // next step of Initialize, starting a call when outside
    | Work(incarnation: nat, throws: bool)
    | Dispatch
    | OtherThreadSends
    | Shutdown(caller: nat)
    | Lifecycle(to: ThreadState)            // Terminate, Pause, Start or Shutdown, by anyone, callbacks included

  function Initial(): System {
    System(Uninitialized, None, false, false, None, false, Outside(InvalidState), map[], [], Receiving, map[],
           0, [], [], {})
  }

  /** SetThreadState. */
  function Move(state: ThreadState, to: ThreadState): ThreadState {
    if ValidTransition(state, to) then to else state
  }

  predicate Stopped(state: ThreadState) {
    state == Terminating || state == Terminated || state == Destroyed
  }

  /** The steps of Initialize leave the dispatcher, the other callers and all but the current record alone. */
  predicate SameElsewhere(s: System, n: System) {
    && n.dispatcher == s.dispatcher && n.waiters == s.waiters
    && n.done == s.done && n.looped == s.looped
  }

  // ---------------------------------------------------------------- Initialize

  /** The steps between the last check and the new task. */
  predicate Clears(at: Preparation) {
    at.ResetExit? || at.ResetGate? || at.ResetFinalization? || at.CreateTask?
  }

  function Return(s: System, status: Status): System {
    s.(stage := Outside(status))
  }

  function PrepareTo(s: System, next: Preparation): System {
    s.(stage := Preparing(next))
  }

  function Prepare(s: System, at: Preparation, ok: bool): (n: System)
    ensures SameElsewhere(s, n) && n.sent == s.sent && n.queue == s.queue
    ensures n.created == s.created + if at.CreateTask? && ok then 1 else 0
    ensures !Clears(at) ==> n == s.(stage := n.stage, state := n.state)
  {
    match at
    case CheckHandle => if s.handle.Some? then Return(s, AlreadyInitialized) else PrepareTo(s, CheckPending)
    case CheckPending =>
      if s.pending then Return(s, TerminationDispatchPending) else PrepareTo(s, CheckDispatcher)
    case CheckDispatcher =>
      if ok then PrepareTo(s, CheckState) else Return(s, TerminationDispatcherUnavailable)
    case CheckState =>
      if s.state == Terminated then PrepareTo(s, ResetState)
      else if s.state == Uninitialized then PrepareTo(s, RecheckHandle)
      else Return(s, InvalidState)
    case ResetState =>
      if s.state == Terminated then PrepareTo(s.(state := Uninitialized), RecheckHandle)
      else Return(s, InvalidState)
    case RecheckHandle => if s.handle.Some? then Return(s, AlreadyInitialized) else PrepareTo(s, ResetExit)
    case ResetExit => PrepareTo(s.(exit := None), ResetGate)
    case ResetGate => PrepareTo(s.(gate := false), ResetFinalization)
    case ResetFinalization => PrepareTo(s.(finalizing := false), CreateTask)
    case CreateTask =>
      if !ok then Return(s, TaskCreationFailed)
      else s.(created := s.created + 1, workers := s.workers[s.created + 1 := Gated], stage := Starting(Publish))
  }

  function StartTo(s: System, next: Startup): System {
    s.(stage := Starting(next))
  }

  function StopTo(s: System, next: Teardown, status: Status): System {
    s.(stage := Stopping(next, status))
  }

  /** A stored transition whose callbacks may fail; on the initializing task that failure is an exception. */
  function Store(s: System, to: ThreadState, throws: bool, next: Stage): System {
    s.(state := Move(s.state, to), stage := if throws then Starting(CatchRead) else next)
  }

  function Start(s: System, at: Startup, ok: bool, throws: bool): (n: System)
    ensures SameElsewhere(s, n) && n.sent == s.sent && n.queue == s.queue && n.created == s.created
    ensures !n.stage.Preparing?
  {
    match at
    case Publish =>
      if s.handle.None? then StartTo(s.(handle := Some(s.created)), UserInitialization)
      else Return(s.(workers := s.workers - {s.created}), ConcurrentInitializationLost)
    case UserInitialization => StartTo(s, if throws then CatchRead else ReadAfterUser)
    case ReadAfterUser =>
      if s.state == Terminating then StartTo(s, ForceTerminated)
      else if s.state == Terminated then StopTo(s, TakeHandle, TerminatedDuringInitialization)
      else StartTo(s, SetInitialized)
    case SetInitialized => Store(s, Initialized, throws, Starting(ReadAfterInitialized))
    case ReadAfterInitialized =>
      if s.state == Terminating then StartTo(s, ForceTerminated)
      else if s.state == Terminated then StopTo(s, TakeHandle, TerminatedDuringInitialization)
      else StartTo(s, if s.state == Initialized && ok then SetRunning else OpenGate)
    case SetRunning => Store(s, Running, throws, Starting(OpenGate))
    case OpenGate => Return(s.(gate := true), Success)
    case ForceTerminated =>
      Store(s, Terminated, throws, Stopping(TakeHandle, TerminatedDuringInitialization))
    case CatchRead => StartTo(s, if Stopped(s.state) then CatchTerminated else CatchTerminate)
    case CatchTerminate => StartTo(s.(state := Move(s.state, Terminating)), CatchTerminated)
    case CatchTerminated => StopTo(s.(state := Move(s.state, Terminated)), TakeHandle, InitializationException)
  }

  function Stop(s: System, at: Teardown, status: Status): (n: System)
    ensures SameElsewhere(s, n) && n.created == s.created && n.state == s.state
    ensures n.stage == s.stage || n.stage.Stopping? || n.stage.Outside?
    ensures if at.SendRecord? && |s.queue| < QUEUE_LENGTH
            then n.sent == s.sent + [s.created] && n.queue == s.queue + [Own(s.created)]
            else n.sent == s.sent && n.queue == s.queue
  {
    match at
    case TakeHandle => StopTo(s.(handle := None), DeleteTask(s.handle), status)
    case DeleteTask(taken) =>
      StopTo(if taken.Some? then s.(workers := s.workers - {taken.value}) else s, ClaimExit, status)
    case ClaimExit =>
      if s.finalizing then Return(s, status) else StopTo(s.(finalizing := true), MarkPending, status)
    case MarkPending => StopTo(s.(pending := true), SendRecord, status)
    case SendRecord =>
      if |s.queue| >= QUEUE_LENGTH then s
      else Return(s.(queue := s.queue + [Own(s.created)], sent := s.sent + [s.created]), status)
  }

  function Initialize(s: System, ok: bool, throws: bool): System {
    match s.stage
    case Outside(_) => PrepareTo(s, CheckHandle)
    case Preparing(at) => Prepare(s, at, ok)
    case Starting(at) => Start(s, at, ok, throws)
    case Stopping(at, status) => Stop(s, at, status)
  }

  // ---------------------------------------------------------------- the worker

  function WorkTo(s: System, k: nat, next: Worker): System {
    s.(workers := s.workers[k := next])
  }

  function WorkerStep(s: System, k: nat, throws: bool): (n: System)
    requires k in s.workers
    ensures n.stage == s.stage && n.created == s.created && n.handle == s.handle
    ensures n.dispatcher == s.dispatcher && n.waiters == s.waiters && n.done == s.done
    ensures if s.workers[k].Sending? && |s.queue| < QUEUE_LENGTH
            then n.sent == s.sent + [k] && n.queue == s.queue + [Own(k)]
            else n.sent == s.sent && n.queue == s.queue
  {
    match s.workers[k]
    case Gated => if s.gate then WorkTo(s.(gate := false), k, Looping) else s
    case Looping =>
      if s.state == Running then WorkTo(s.(looped := s.looped + {k}), k, InLoop)
      else if Stopped(s.state) then WorkTo(s, k, Claiming)
      else s
    case InLoop =>
      if throws then WorkTo(s.(state := Move(s.state, Terminating)), k, Claiming) else WorkTo(s, k, Looping)
    case Claiming =>
      if s.finalizing then WorkTo(s, k, Suspended) else WorkTo(s.(finalizing := true), k, Finishing)
    case Finishing =>
      WorkTo(if s.state == Terminating then s.(state := Terminated) else s, k, Announcing)
    case Announcing => WorkTo(s.(pending := true), k, Sending)
    case Sending =>
      if |s.queue| >= QUEUE_LENGTH then s
      else WorkTo(s.(queue := s.queue + [Own(k)], sent := s.sent + [k]), k, Suspended)
    case Suspended => s
  }

  // ---------------------------------------------------------------- the dispatcher

  predicate Dispatching(d: Dispatcher) {
    !d.Receiving? && !d.Elsewhere?
  }

  function DispatcherStep(s: System): (n: System)
    ensures n.created == s.created && n.sent == s.sent && n.waiters == s.waiters
    ensures n.stage == s.stage && n.state == s.state
    ensures n.done == if s.dispatcher.Clearing? then s.done + [s.dispatcher.incarnation] else s.done
    ensures !s.dispatcher.Receiving? ==> n.queue == s.queue
    ensures if s.dispatcher.Clearing? then n.dispatcher == Receiving
            else !s.dispatcher.Receiving? ==>
              && (Dispatching(n.dispatcher) <==> Dispatching(s.dispatcher))
              && (Dispatching(s.dispatcher) ==> n.dispatcher.incarnation == s.dispatcher.incarnation)
  {
    match s.dispatcher
    case Receiving =>
      if s.queue == [] then s
      else s.(queue := s.queue[1..],
      dispatcher := if s.queue[0].Own? then Exchanging(s.queue[0].incarnation) else Elsewhere)
    case Elsewhere => s.(dispatcher := Receiving)
    case Exchanging(k) => s.(handle := None, dispatcher := Deleting(k, s.handle))
    case Deleting(k, taken) =>
      s.(workers := if taken.Some? then s.workers - {taken.value} else s.workers, dispatcher := Reporting(k))
    case Reporting(k) => s.(dispatcher := Giving(k))
    case Giving(k) => s.(exit := Some(k), dispatcher := Clearing(k))
    case Clearing(k) => s.(pending := false, done := s.done + [k], dispatcher := Receiving)
  }

  // ---------------------------------------------------------------- Shutdown from another task

  function WaiterStep(s: System, w: Waiter): (System, Waiter) {
    match w
    case LiveTerminate(t) =>
      (s.(state := Move(s.state, Terminating)), if s.state == Uninitialized then LiveTerminated(t) else LiveWait(t))
    case LiveTerminated(t) => (s.(state := Move(s.state, Terminated)), LiveWait(t))
    case LiveWait(t) => if s.exit.Some? then (s.(exit := None), LivePending(t)) else (s, w)
    case LivePending(t) => if s.pending then (s, w) else (s, Back(t, false))
    case IdleRead(t, exposed) =>
      (s, if s.state == Terminated || s.state == Destroyed then IdlePending(t, exposed) else IdleTerminate(t, exposed))
    case IdleTerminate(t, exposed) => (s.(state := Move(s.state, Terminating)), IdleTerminated(t, exposed))
    case IdleTerminated(t, exposed) => (s.(state := Move(s.state, Terminated)), IdlePending(t, exposed))
    case IdlePending(t, exposed) => if s.pending then (s, w) else (s, Back(t, exposed))
    case Back(_, _) => (s, w)
  }

  /** The current incarnation's exit has not been recorded yet. */
  predicate Owned(s: System) { |s.sent| < s.created }

  /**
   * A task has been created whose exit is still to be recorded, and neither the handle nor the pending flag shows
   * it: a Shutdown that loads the handle now finds nothing to wait for.
   */
  predicate Window(s: System) {
    s.handle.None? && Owned(s) && !s.pending
  }

  function ShutdownStep(s: System, caller: nat): System {
    if caller !in s.waiters then
      s.(waiters := s.waiters[caller := if s.handle.Some? then LiveTerminate(s.created)
                                        else IdleRead(s.created, Window(s))])
    else
      var (next, w) := WaiterStep(s, s.waiters[caller]);
      next.(waiters := s.waiters[caller := w])
  }

  // ---------------------------------------------------------------- runs

  /** One step; a step that is not possible changes nothing. */
  function Step(s: System, action: Action): System {
    match action
    case Initializer(ok, throws) => Initialize(s, ok, throws)
    case Work(k, throws) => if k in s.workers then WorkerStep(s, k, throws) else s
    case Dispatch => DispatcherStep(s)
    case OtherThreadSends => if |s.queue| < QUEUE_LENGTH then s.(queue := s.queue + [Other]) else s
    case Shutdown(caller) => ShutdownStep(s, caller)
    case Lifecycle(to) =>
      if to == Running || to == Paused || to == Terminating || to == Terminated
      then s.(state := Move(s.state, to)) else s
  }

  function RunFrom(s: System, actions: seq<Action>): System {
    if actions == [] then s else Step(RunFrom(s, actions[..|actions| - 1]), actions[|actions| - 1])
  }

  function Run(actions: seq<Action>): System {
    RunFrom(Initial(), actions)
  }

  // ---------------------------------------------------------------- the invariant

  /** The current incarnation's record is queued or being dispatched. */
  predicate InFlight(s: System) { |s.done| < |s.sent| }

  /** Each incarnation's record is queued once and dispatched once, in order, before the next task exists. */
  predicate Ledger(s: System) {
    && s.created <= |s.done| + 1
    && |s.done| <= |s.sent| <= s.created
    && (Dispatching(s.dispatcher) ==> InFlight(s) && s.dispatcher.incarnation == s.created)
  }

  ghost predicate InOrder(s: System) {
    && (forall i :: 0 <= i < |s.sent| ==> s.sent[i] == i + 1)
    && (forall i :: 0 <= i < |s.done| ==> s.done[i] == i + 1)
  }

  predicate Settled(s: System) { |s.done| == s.created }

  function OwnRecords(queue: seq<Record>): nat {
    if queue == [] then 0 else (if queue[0].Own? then 1 else 0) + OwnRecords(queue[1..])
  }

  ghost predicate Queue(s: System) {
    && |s.queue| <= QUEUE_LENGTH
    && OwnRecords(s.queue) + (if Dispatching(s.dispatcher) then 1 else 0) == |s.sent| - |s.done|
    && forall i :: 0 <= i < |s.queue| && s.queue[i].Own? ==> s.queue[i].incarnation == s.created
  }

  predicate OwnedByInitializer(stage: Stage) {
    stage.Starting? || stage.Stopping?
  }

  ghost predicate NoTask(workers: map<nat, Worker>) {
    forall k :: k !in workers
  }

  ghost predicate OnlyTask(workers: map<nat, Worker>, k: nat, at: Worker) {
    k in workers && workers[k] == at && forall j :: j in workers ==> j == k
  }

  /** What holds of the atomics while Initialize owns the gated task. */
  ghost predicate InitializerOwns(s: System) {
    && !s.gate && s.exit.None?
    && (match s.stage
        case Outside(_) => false
        case Preparing(_) => false
        case Starting(at) =>
          && OnlyTask(s.workers, s.created, Gated) && !s.finalizing && !s.pending
          && s.handle == (if at.Publish? then None else Some(s.created))
          && (at.ForceTerminated? || at.CatchTerminated? ==> Stopped(s.state))
        case Stopping(at, status) =>
          && s.state == Terminated
          && (status == TerminatedDuringInitialization || status == InitializationException)
          && (if at.TakeHandle? || at.DeleteTask? then OnlyTask(s.workers, s.created, Gated) else NoTask(s.workers))
          && s.handle == (if at.TakeHandle? then Some(s.created) else None)
          && (at.DeleteTask? ==> at.taken == Some(s.created))
          && s.finalizing == (at.MarkPending? || at.SendRecord?)
          && s.pending == at.SendRecord?)
  }

  /** What holds of the atomics once the gate has been opened and until the worker's record is queued. */
  ghost predicate WorkerOwns(s: System) {
    && s.created in s.workers && OnlyTask(s.workers, s.created, s.workers[s.created])
    && s.handle == Some(s.created) && s.exit.None?
    && (var w := s.workers[s.created];
        && w != Suspended
        && s.gate == w.Gated?
        && s.finalizing == (w.Finishing? || w.Announcing? || w.Sending?)
        && s.pending == w.Sending?
        && (w.Claiming? || w.Finishing? ==> Stopped(s.state))
        && (w.Announcing? || w.Sending? ==> s.state == Terminated))
  }

  /** What holds of the atomics between the queueing of the record and the end of its dispatch. */
  ghost predicate DispatcherOwns(s: System) {
    && s.pending && s.state == Terminated
    && (s.exit.Some? ==> s.dispatcher.Clearing?)
    && (match s.dispatcher
        case Deleting(_, taken) =>
          && s.handle.None?
          && (if taken.None? then NoTask(s.workers)
              else taken.value == s.created && OnlyTask(s.workers, s.created, Suspended))
        case Reporting(_) => s.handle.None? && NoTask(s.workers)
        case Giving(_) => s.handle.None? && NoTask(s.workers)
        case Clearing(_) => s.handle.None? && NoTask(s.workers)
        case _ =>
          if s.handle.None? then NoTask(s.workers)
          else s.handle.value == s.created && OnlyTask(s.workers, s.created, Suspended))
  }

  ghost predicate Ownership(s: System) {
    && s.state != Destroyed
    && (s.exit.Some? ==> s.exit.value == s.created)
    && (if Owned(s) then if OwnedByInitializer(s.stage) then InitializerOwns(s) else WorkerOwns(s)
        else if InFlight(s) then DispatcherOwns(s)
        else NoTask(s.workers) && s.handle.None? && !s.pending)
    && (OwnedByInitializer(s.stage) ==> Owned(s))
  }

  /** How far Initialize has looked tells what it can rely on. */
  ghost predicate Prepared(s: System) {
    s.stage.Preparing? ==>
      var at := s.stage.preparation;
      && (!at.CheckHandle? ==> !Owned(s) && s.handle.None?)
      && (!at.CheckHandle? && !at.CheckPending? ==> Settled(s))
      && (at.ResetGate? || at.ResetFinalization? || at.CreateTask? ==> s.exit.None?)
      && (at.ResetFinalization? || at.CreateTask? ==> !s.gate)
      && (at.CreateTask? ==> !s.finalizing)
  }

  predicate Aborted(status: Status) {
    status == TerminatedDuringInitialization || status == InitializationException
  }

  /** OnLoop never begins in an incarnation whose initialization was given up. */
  ghost predicate Loops(s: System) {
    && (forall k :: k in s.looped ==> k <= s.created)
    && (OwnedByInitializer(s.stage) ==> s.created !in s.looped)
    && (s.stage.Outside? && Aborted(s.stage.last) ==>
          && s.created !in s.looped && s.created > 0 && s.state == Terminated
          && !Owned(s) && NoTask(s.workers))
  }

  /** A record is queued for every task up to the target, or the flag that announces the last one is up. */
  predicate Announced(s: System, target: nat) {
    target <= |s.sent| || (Owned(s) && s.pending)
  }

  ghost predicate Waits(s: System, w: Waiter) {
    && w.target <= s.created
    && (match w
        case LiveTerminate(_) => true
        case LiveTerminated(_) => true
        case LiveWait(_) => true
        case LivePending(t) => t <= |s.done| || s.dispatcher.Clearing?
        case IdleRead(t, exposed) => exposed || Announced(s, t)
        case IdleTerminate(t, exposed) => exposed || Announced(s, t)
        case IdleTerminated(t, exposed) => exposed || Announced(s, t)
        case IdlePending(t, exposed) => exposed || Announced(s, t)
        case Back(t, exposed) => exposed || t <= |s.done|)
  }

  ghost predicate Waiting(s: System) {
    forall c :: c in s.waiters ==> Waits(s, s.waiters[c])
  }

  ghost predicate Inv(s: System) {
    Ledger(s) && InOrder(s) && Queue(s) && Ownership(s) && Prepared(s) && Loops(s) && Waiting(s)
  }

  lemma {:induction false} OwnRecordsAppend(queue: seq<Record>, r: Record)
    ensures OwnRecords(queue + [r]) == OwnRecords(queue) + if r.Own? then 1 else 0
  {
    if queue == [] {
      assert queue + [r] == [r];
    } else {
      OwnRecordsAppend(queue[1..], r);
      assert (queue + [r])[1..] == queue[1..] + [r];
    }
  }

  // The ledger and the queue. Only three steps touch them: creating a task, queueing its record, and the
  // dispatcher's own steps.

  predicate Creates(s: System, ok: bool) {
    s.stage == Preparing(CreateTask) && ok
  }

  predicate Sends(s: System) {
    s.stage.Stopping? && s.stage.teardown.SendRecord? && |s.queue| < QUEUE_LENGTH
  }

  lemma InitializeFrame(s: System, ok: bool, throws: bool, n: System)
    requires n == Initialize(s, ok, throws)
    ensures n.waiters == s.waiters && n.looped == s.looped && n.done == s.done && n.dispatcher == s.dispatcher
    ensures n.created == if Creates(s, ok) then s.created + 1 else s.created
    ensures if Sends(s) then n.sent == s.sent + [s.created] && n.queue == s.queue + [Own(s.created)]
            else n.sent == s.sent && n.queue == s.queue
  {
  }

  /** Without own records there is none to carry an incarnation. */
  lemma {:induction false} NoOwnRecords(queue: seq<Record>)
    ensures OwnRecords(queue) == 0 ==> forall i :: 0 <= i < |queue| ==> queue[i].Other?
  {
    if queue != [] {
      NoOwnRecords(queue[1..]);
    }
  }

  lemma CreatingKeepsRecords(s: System, n: System)
    requires Ledger(s) && InOrder(s) && Queue(s) && Settled(s)
    requires n.created == s.created + 1
    requires n.sent == s.sent && n.done == s.done && n.queue == s.queue && n.dispatcher == s.dispatcher
    ensures Ledger(n) && InOrder(n) && Queue(n)
  {
    NoOwnRecords(s.queue);
  }

  lemma SendingKeepsRecords(s: System, n: System)
    requires Ledger(s) && InOrder(s) && Queue(s) && Owned(s) && |s.queue| < QUEUE_LENGTH
    requires n.sent == s.sent + [s.created] && n.queue == s.queue + [Own(s.created)]
    requires n.created == s.created && n.done == s.done && n.dispatcher == s.dispatcher
    ensures Ledger(n) && InOrder(n) && Queue(n)
  {
    OwnRecordsAppend(s.queue, Own(s.created));
  }

  lemma QuietKeepsRecords(s: System, n: System)
    requires Ledger(s) && InOrder(s) && Queue(s)
    requires n.created == s.created && n.sent == s.sent && n.done == s.done
    requires n.queue == s.queue && n.dispatcher == s.dispatcher
    ensures Ledger(n) && InOrder(n) && Queue(n)
  {
  }

  lemma InitializeKeepsRecords(s: System, ok: bool, throws: bool, n: System)
    requires Ledger(s) && InOrder(s) && Queue(s) && Ownership(s) && Prepared(s)
    requires n == Initialize(s, ok, throws)
    ensures Ledger(n) && InOrder(n) && Queue(n)
  {
    InitializeFrame(s, ok, throws, n);
    if Creates(s, ok) {
      CreatingKeepsRecords(s, n);
    } else if Sends(s) {
      SendingKeepsRecords(s, n);
    } else {
      QuietKeepsRecords(s, n);
    }
  }

  lemma WorkerKeepsRecords(s: System, k: nat, throws: bool, n: System)
    requires Ledger(s) && InOrder(s) && Queue(s) && Ownership(s) && k in s.workers
    requires n == WorkerStep(s, k, throws)
    ensures Ledger(n) && InOrder(n) && Queue(n)
  {
    if s.workers[k].Sending? && |s.queue| < QUEUE_LENGTH {
      SendingKeepsRecords(s, n);
    } else {
      QuietKeepsRecords(s, n);
    }
  }

  lemma ReceivingKeepsRecords(s: System)
    requires Ledger(s) && InOrder(s) && Queue(s) && s.dispatcher.Receiving?
    ensures var n := DispatcherStep(s); Ledger(n) && InOrder(n) && Queue(n)
  {
    if s.queue != [] {
      assert forall i :: 0 <= i < |s.queue| - 1 ==> s.queue[1..][i] == s.queue[i + 1];
    }
  }

  lemma ClearingKeepsRecords(s: System, n: System)
    requires Ledger(s) && InOrder(s) && Queue(s) && s.dispatcher.Clearing?
    requires n.created == s.created && n.sent == s.sent && n.queue == s.queue
    requires n.done == s.done + [s.dispatcher.incarnation] && n.dispatcher == Receiving
    ensures Ledger(n) && InOrder(n) && Queue(n) && Settled(n)
  {
  }

  lemma DispatchingKeepsRecords(s: System, n: System)
    requires Ledger(s) && InOrder(s) && Queue(s)
    requires Dispatching(s.dispatcher) <==> Dispatching(n.dispatcher)
    requires Dispatching(s.dispatcher) ==> n.dispatcher.incarnation == s.dispatcher.incarnation
    requires n.created == s.created && n.sent == s.sent && n.done == s.done && n.queue == s.queue
    ensures Ledger(n) && InOrder(n) && Queue(n)
  {
  }

  lemma DispatcherKeepsRecords(s: System, n: System)
    requires Ledger(s) && InOrder(s) && Queue(s) && n == DispatcherStep(s)
    ensures Ledger(n) && InOrder(n) && Queue(n)
  {
    if s.dispatcher.Receiving? {
      ReceivingKeepsRecords(s);
    } else if s.dispatcher.Clearing? {
      ClearingKeepsRecords(s, n);
    } else {
      DispatchingKeepsRecords(s, n);
    }
  }

  // Who owns the exit, and what the atomics show meanwhile.

  lemma CreateTaskKeepsOwnership(s: System)
    requires Ledger(s) && Ownership(s) && Prepared(s) && s.stage == Preparing(CreateTask)
    ensures var n := Prepare(s, CreateTask, true); Ownership(n) && Prepared(n)
  {
  }

  /** The checks only move the stage on; the reset alone stores a state. What passes a check is what was seen. */
  ghost predicate ChecksTo(s: System, at: Preparation, n: System) {
    && n == s.(stage := n.stage, state := n.state)
    && (n.state == s.state || (at.ResetState? && n.state == Uninitialized))
    && (n.stage.Preparing? ==>
          var next := n.stage.preparation;
          && !next.CheckHandle? && (!Clears(next) || next.ResetExit?)
          && (at.CheckHandle? ==> next.CheckPending? && s.handle.None?)
          && (at.CheckPending? ==> !s.pending)
          && (!at.CheckHandle? ==> !next.CheckPending?))
    && (!n.stage.Preparing? ==> n.stage.Outside?)
  }

  lemma ChecksFrame(s: System, at: Preparation, ok: bool)
    requires !Clears(at)
    ensures ChecksTo(s, at, Prepare(s, at, ok))
  {
  }

  lemma BeginKeepsOwnership(s: System)
    requires Ownership(s) && s.stage.Outside?
    ensures var n := PrepareTo(s, CheckHandle); Ownership(n) && Prepared(n)
  {
  }

  lemma ChecksKeepOwnership(s: System, at: Preparation, n: System)
    requires Ledger(s) && Ownership(s) && Prepared(s)
    requires s.stage == Preparing(at) && !Clears(at) && ChecksTo(s, at, n)
    ensures Ownership(n) && Prepared(n)
  {
  }

  lemma ClearsKeepOwnership(s: System, ok: bool)
    requires Ledger(s) && Ownership(s) && Prepared(s)
    requires s.stage.Preparing? && Clears(s.stage.preparation) && !Creates(s, ok)
    ensures var n := Prepare(s, s.stage.preparation, ok); Ownership(n) && Prepared(n)
  {
  }

  predicate Stores(at: Startup) {
    at.SetInitialized? || at.SetRunning? || at.ForceTerminated? || at.CatchTerminate? || at.CatchTerminated?
  }

  lemma StoresKeepOwnership(s: System, ok: bool, throws: bool)
    requires Ledger(s) && Ownership(s) && s.stage.Starting? && Stores(s.stage.startup)
    ensures var n := Start(s, s.stage.startup, ok, throws); Ownership(n) && Prepared(n)
  {
  }

  lemma StartKeepsOwnership(s: System, ok: bool, throws: bool)
    requires Ledger(s) && Ownership(s) && s.stage.Starting? && !Stores(s.stage.startup)
    ensures var n := Start(s, s.stage.startup, ok, throws); Ownership(n) && Prepared(n)
  {
  }

  lemma StopKeepsOwnership(s: System)
    requires Ledger(s) && Ownership(s) && s.stage.Stopping?
    ensures var n := Stop(s, s.stage.teardown, s.stage.status); Ownership(n) && Prepared(n)
  {
  }

  lemma WorkerKeepsOwnership(s: System, k: nat, throws: bool)
    requires Ledger(s) && Ownership(s) && Prepared(s) && k in s.workers
    ensures var n := WorkerStep(s, k, throws); Ownership(n) && Prepared(n)
  {
  }

  lemma ReceivingKeepsOwnership(s: System)
    requires Ledger(s) && Ownership(s) && Prepared(s) && !Dispatching(s.dispatcher)
    requires s.queue != [] && s.queue[0].Own? ==> InFlight(s) && s.queue[0].incarnation == s.created
    ensures var n := DispatcherStep(s); Ownership(n) && Prepared(n)
  {
  }

  lemma DeletingKeepsOwnership(s: System)
    requires Ledger(s) && Ownership(s) && Prepared(s)
    requires s.dispatcher.Exchanging? || s.dispatcher.Deleting?
    ensures var n := DispatcherStep(s); Ownership(n) && Prepared(n)
  {
  }

  lemma ReportingKeepsOwnership(s: System)
    requires Ledger(s) && Ownership(s) && Prepared(s)
    requires s.dispatcher.Reporting? || s.dispatcher.Giving? || s.dispatcher.Clearing?
    ensures var n := DispatcherStep(s); Ownership(n) && Prepared(n)
  {
  }

  lemma WaiterKeepsOwnership(s: System, w: Waiter)
    requires Ownership(s) && Prepared(s)
    ensures var n := WaiterStep(s, w).0; Ownership(n) && Prepared(n)
  {
  }

  lemma LifecycleKeepsOwnership(s: System, to: ThreadState)
    requires Ownership(s) && Prepared(s) && to != Destroyed && to != Uninitialized
    ensures var n := s.(state := Move(s.state, to)); Ownership(n) && Prepared(n)
  {
  }

  // OnLoop and initialization that was given up.

  lemma PreparingKeepsLoops(s: System, at: Preparation, ok: bool)
    requires Loops(s) && s.stage == Preparing(at)
    ensures Loops(Prepare(s, at, ok))
  {
  }

  lemma StartingKeepsLoops(s: System, at: Startup, ok: bool, throws: bool)
    requires Loops(s) && s.stage == Starting(at)
    ensures Loops(Start(s, at, ok, throws))
  {
  }

  lemma StoppingKeepsLoops(s: System)
    requires Ledger(s) && Ownership(s) && Loops(s) && s.stage.Stopping?
    ensures Loops(Stop(s, s.stage.teardown, s.stage.status))
  {
  }

  lemma WorkerKeepsLoops(s: System, k: nat, throws: bool)
    requires Ledger(s) && Ownership(s) && Loops(s) && k in s.workers
    ensures Loops(WorkerStep(s, k, throws))
  {
  }

  lemma DispatcherKeepsLoops(s: System)
    requires Loops(s)
    ensures Loops(DispatcherStep(s))
  {
  }

  lemma StateKeepsLoops(s: System, n: System)
    requires Loops(s) && n.stage == s.stage && n.looped == s.looped && n.created == s.created
    requires n.sent == s.sent && n.workers == s.workers
    requires s.state == Terminated ==> n.state == Terminated
    ensures Loops(n)
  {
  }

  // Shutdown callers.

  /** Whatever other tasks do, a caller's target stays behind the ledger. */
  lemma OthersKeepWaiting(s: System, n: System)
    requires Waiting(s) && n.waiters == s.waiters
    requires s.created <= n.created && |s.sent| <= |n.sent| && |s.done| <= |n.done|
    requires s.dispatcher.Clearing? ==> n.dispatcher.Clearing? || |n.done| >= s.created
    requires Owned(s) && s.pending ==> Announced(n, s.created)
    ensures Waiting(n)
  {
    forall c | c in n.waiters
      ensures Waits(n, n.waiters[c])
    {
      assert Waits(s, s.waiters[c]);
    }
  }

  lemma WaiterFrame(s: System, w: Waiter)
    ensures var n := WaiterStep(s, w).0;
            && n == s.(state := n.state, exit := n.exit)
            && (s.state == Terminated ==> n.state == Terminated)
  {
  }

  lemma WaiterKeepsWaits(s: System, w: Waiter)
    requires Ledger(s) && Ownership(s) && Waits(s, w)
    ensures Waits(s, WaiterStep(s, w).1)
  {
  }

  lemma WaitersOnly(s: System, n: System)
    requires Ownership(s) && Prepared(s) && n == s.(waiters := n.waiters)
    ensures Ownership(n) && Prepared(n)
  {
  }

  lemma ShutdownKeepsInv(s: System, caller: nat, n: System)
    requires Inv(s) && n == ShutdownStep(s, caller)
    ensures Inv(n)
  {
    if caller in s.waiters {
      var w := s.waiters[caller];
      var stepped := WaiterStep(s, w).0;
      WaiterFrame(s, w);
      WaiterKeepsOwnership(s, w);
      WaiterKeepsWaits(s, w);
      QuietKeepsRecords(s, n);
      StateKeepsLoops(s, n);
      WaitersOnly(stepped, n);
    } else {
      QuietKeepsRecords(s, n);
      StateKeepsLoops(s, n);
      WaitersOnly(s, n);
      assert Waits(n, n.waiters[caller]);
    }
    forall c | c in n.waiters && c != caller
      ensures Waits(n, n.waiters[c])
    {
      assert Waits(s, s.waiters[c]);
    }
  }

  // Every step keeps everything.

  lemma InitializeKeepsOwnership(s: System, ok: bool, throws: bool)
    requires Ledger(s) && Ownership(s) && Prepared(s)
    ensures var n := Initialize(s, ok, throws); Ownership(n) && Prepared(n)
  {
    match s.stage
    case Outside(_) => BeginKeepsOwnership(s);
    case Preparing(at) =>
      if Creates(s, ok) {
        CreateTaskKeepsOwnership(s);
      } else if Clears(at) {
        ClearsKeepOwnership(s, ok);
      } else {
        ChecksFrame(s, at, ok);
        ChecksKeepOwnership(s, at, Prepare(s, at, ok));
      }
    case Starting(at) =>
      if Stores(at) {
        StoresKeepOwnership(s, ok, throws);
      } else {
        StartKeepsOwnership(s, ok, throws);
      }
    case Stopping(_, _) => StopKeepsOwnership(s);
  }

  lemma InitializeKeepsLoops(s: System, ok: bool, throws: bool)
    requires Ledger(s) && Ownership(s) && Loops(s)
    ensures Loops(Initialize(s, ok, throws))
  {
    match s.stage
    case Outside(_) =>
    case Preparing(at) => PreparingKeepsLoops(s, at, ok);
    case Starting(at) => StartingKeepsLoops(s, at, ok, throws);
    case Stopping(_, _) => StoppingKeepsLoops(s);
  }

  lemma InitializeKeepsInv(s: System, ok: bool, throws: bool, n: System)
    requires Inv(s) && n == Initialize(s, ok, throws)
    ensures Inv(n)
  {
    InitializeFrame(s, ok, throws, n);
    InitializeKeepsRecords(s, ok, throws, n);
    InitializeKeepsOwnership(s, ok, throws);
    InitializeKeepsLoops(s, ok, throws);
    OthersKeepWaiting(s, n);
  }

  lemma WorkerKeepsInv(s: System, k: nat, throws: bool, n: System)
    requires Inv(s) && k in s.workers && n == WorkerStep(s, k, throws)
    ensures Inv(n)
  {
    WorkerKeepsRecords(s, k, throws, n);
    WorkerKeepsOwnership(s, k, throws);
    WorkerKeepsLoops(s, k, throws);
    OthersKeepWaiting(s, n);
  }

  lemma DispatcherKeepsOwnership(s: System, n: System)
    requires Ledger(s) && Queue(s) && Ownership(s) && Prepared(s) && n == DispatcherStep(s)
    ensures Ownership(n) && Prepared(n)
  {
    if !Dispatching(s.dispatcher) {
      ReceivingKeepsOwnership(s);
    } else if s.dispatcher.Exchanging? || s.dispatcher.Deleting? {
      DeletingKeepsOwnership(s);
    } else {
      ReportingKeepsOwnership(s);
    }
  }

  lemma DispatcherKeepsInv(s: System, n: System)
    requires Inv(s) && n == DispatcherStep(s)
    ensures Inv(n)
  {
    DispatcherKeepsRecords(s, n);
    DispatcherKeepsOwnership(s, n);
    DispatcherKeepsLoops(s);
    OthersKeepWaiting(s, n);
  }

  lemma LifecycleKeepsInv(s: System, to: ThreadState, n: System)
    requires Inv(s) && to != Destroyed && to != Uninitialized && n == s.(state := Move(s.state, to))
    ensures Inv(n)
  {
    QuietKeepsRecords(s, n);
    LifecycleKeepsOwnership(s, to);
    StateKeepsLoops(s, n);
    OthersKeepWaiting(s, n);
  }

  lemma OtherThreadKeepsInv(s: System, n: System)
    requires Inv(s) && |s.queue| < QUEUE_LENGTH && n == s.(queue := s.queue + [Other])
    ensures Inv(n)
  {
    OwnRecordsAppend(s.queue, Other);
    StateKeepsLoops(s, n);
    OthersKeepWaiting(s, n);
  }

  lemma StepKeepsInv(s: System, action: Action, n: System)
    requires Inv(s) && n == Step(s, action)
    ensures Inv(n)
  {
    match action
    case Initializer(ok, throws) => InitializeKeepsInv(s, ok, throws, n);
    case Work(k, throws) => if k in s.workers { WorkerKeepsInv(s, k, throws, n); }
    case Dispatch => DispatcherKeepsInv(s, n);
    case OtherThreadSends => if |s.queue| < QUEUE_LENGTH { OtherThreadKeepsInv(s, n); }
    case Shutdown(caller) => ShutdownKeepsInv(s, caller, n);
    case Lifecycle(to) =>
      if to == Running || to == Paused || to == Terminating || to == Terminated {
        LifecycleKeepsInv(s, to, n);
      }
  }

  lemma {:induction false} RunKeepsInv(s: System, actions: seq<Action>, after: System)
    requires Inv(s) && after == RunFrom(s, actions)
    ensures Inv(after)
  {
    if actions != [] {
      var before := RunFrom(s, actions[..|actions| - 1]);
      RunKeepsInv(s, actions[..|actions| - 1], before);
      StepKeepsInv(before, actions[|actions| - 1], after);
    }
  }

  lemma ReachableInv(actions: seq<Action>, s: System)
    requires s == Run(actions)
    ensures Inv(s)
  {
    RunKeepsInv(Initial(), actions, s);
  }

  // ---------------------------------------------------------------- what the protocol guarantees

  /**
   * Across all incarnations at most one task of the Thread exists, and a new one is created only when every
   * earlier one is gone, its dispatch is over and the exit signal it gave has been taken down.
   */
  lemma OneTaskAtATime(actions: seq<Action>, s: System)
    requires s == Run(actions)
    ensures forall j, k :: j in s.workers && k in s.workers ==> j == k == s.created
    ensures s.stage == Preparing(CreateTask) ==>
              && NoTask(s.workers) && s.handle.None? && s.exit.None? && !s.gate && !s.finalizing && !s.pending
              && !Dispatching(s.dispatcher) && OwnRecords(s.queue) == 0
              && |s.done| == s.created
  {
    ReachableInv(actions, s);
  }

  /** Incarnations are recorded once each and dispatched once each, in the order they were created. */
  lemma OneRecordPerTask(actions: seq<Action>, s: System)
    requires s == Run(actions)
    ensures s.created <= |s.done| + 1 && |s.done| <= |s.sent| <= s.created
    ensures forall i :: 0 <= i < |s.sent| ==> s.sent[i] == i + 1
    ensures forall i :: 0 <= i < |s.done| ==> s.done[i] == i + 1
    ensures forall k :: k in s.workers && s.workers[k].Claiming? ==> !s.finalizing
    ensures forall k :: k in s.workers && s.workers[k].Suspended? ==> k == |s.sent|
  {
    ReachableInv(actions, s);
  }

  /** An exit signal on show was given by the latest incarnation, and only after its task was deleted. */
  lemma ExitSignalIsCurrent(actions: seq<Action>, s: System)
    requires s == Run(actions) && s.exit.Some?
    ensures s.exit.value == s.created && NoTask(s.workers)
  {
    ReachableInv(actions, s);
  }

  /** An initialization that was given up leaves a terminated Thread, no task, one record and no OnLoop. */
  lemma AbortedInitializationIsClean(actions: seq<Action>, s: System)
    requires s == Run(actions)
    ensures s.stage.Outside? && Aborted(s.stage.last) ==>
              && s.state == Terminated && NoTask(s.workers) && s.handle.None?
              && s.created !in s.looped
              && |s.sent| == s.created > 0 && s.sent[s.created - 1] == s.created
  {
    ReachableInv(actions, s);
  }

  /** Opening the gate finds the handle published and the task still gated, and returns Success. */
  lemma SuccessPublishesAndOpens(actions: seq<Action>, s: System, ok: bool, throws: bool)
    requires s == Run(actions) && s.stage == Starting(OpenGate)
    ensures s.handle == Some(s.created) && OnlyTask(s.workers, s.created, Gated) && !s.gate
    ensures Initialize(s, ok, throws) == s.(gate := true, stage := Outside(Success))
  {
    ReachableInv(actions, s);
  }

  /** With non-overlapping Initialize calls a task once created is always published. */
  lemma PublicationNeverLoses(actions: seq<Action>, s: System, ok: bool, throws: bool)
    requires s == Run(actions) && s.stage == Starting(Publish)
    ensures Initialize(s, ok, throws).stage == Starting(UserInitialization)
    ensures Initialize(s, ok, throws).handle == Some(s.created)
  {
    ReachableInv(actions, s);
  }

  /** OnTerminated and OnThreadTaskExited run only once the task is deleted, and then never find another state. */
  lemma ReportsAfterDeletion(actions: seq<Action>, s: System)
    requires s == Run(actions) && s.dispatcher.Reporting?
    ensures NoTask(s.workers) && s.handle.None? && s.pending
    ensures s.state == Terminated && s.dispatcher.incarnation == s.created == |s.sent| == |s.done| + 1
  {
    ReachableInv(actions, s);
  }

  /** The state loop: OnLoop begins while Running and only then, and a stopped state ends the loop. */
  lemma LoopFollowsState(s: System, k: nat, throws: bool, n: System)
    requires k in s.workers && s.workers[k].Looping? && n == WorkerStep(s, k, throws)
    ensures k in n.workers
    ensures s.state in {Running} ==> n.workers[k].InLoop? && k in n.looped
    ensures s.state in {Uninitialized, Initialized, Paused} ==> n == s
    ensures s.state in {Terminating, Terminated, Destroyed} ==> n.workers[k].Claiming? && n.looped == s.looped
  {
    if s.state == Uninitialized || s.state == Initialized || s.state == Paused {
      assert n == s;
    }
  }

  lemma PrepareEntersNoLoop(s: System, at: Preparation, ok: bool, n: System, k: nat)
    requires n == Prepare(s, at, ok) && k in s.workers && k in n.workers
    ensures n.workers[k].InLoop? ==> s.workers[k].InLoop?
  {
  }

  lemma StartEntersNoLoop(s: System, at: Startup, ok: bool, throws: bool, n: System, k: nat)
    requires n == Start(s, at, ok, throws) && k in s.workers && k in n.workers
    ensures n.workers[k].InLoop? ==> s.workers[k].InLoop?
  {
  }

  lemma StopEntersNoLoop(s: System, at: Teardown, status: Status, n: System, k: nat)
    requires n == Stop(s, at, status) && k in s.workers && k in n.workers
    ensures n.workers[k].InLoop? ==> s.workers[k].InLoop?
  {
  }

  lemma InitializeEntersNoLoop(s: System, ok: bool, throws: bool, n: System, k: nat)
    requires n == Initialize(s, ok, throws) && k in s.workers && k in n.workers
    ensures n.workers[k].InLoop? ==> s.workers[k].InLoop?
  {
    match s.stage
    case Outside(_) =>
    case Preparing(at) => PrepareEntersNoLoop(s, at, ok, n, k);
    case Starting(at) => StartEntersNoLoop(s, at, ok, throws, n, k);
    case Stopping(at, status) => StopEntersNoLoop(s, at, status, n, k);
  }

  lemma DispatcherEntersNoLoop(s: System, n: System, k: nat)
    requires n == DispatcherStep(s) && k in s.workers && k in n.workers
    ensures n.workers[k] == s.workers[k]
  {
  }

  lemma CallersKeepWorkers(s: System, action: Action, n: System)
    requires action.OtherThreadSends? || action.Shutdown? || action.Lifecycle?
    requires n == Step(s, action)
    ensures n.workers == s.workers
  {
    if action.Shutdown? && action.caller in s.waiters {
      WaiterFrame(s, s.waiters[action.caller]);
    }
  }

  lemma WorkerEntersLoopRunning(s: System, k: nat, throws: bool, n: System)
    requires k in s.workers && n == WorkerStep(s, k, throws) && k in n.workers
    requires n.workers[k].InLoop? && !s.workers[k].InLoop?
    ensures s.workers[k].Looping? && s.state == Running
  {
  }

  /** In every run, whatever step is taken, a worker enters OnLoop only from the state loop with the Thread Running. */
  lemma OnLoopNeedsRunning(actions: seq<Action>, s: System, action: Action, n: System, k: nat)
    requires s == Run(actions) && n == Step(s, action) && k in s.workers && k in n.workers
    requires n.workers[k].InLoop? && !s.workers[k].InLoop?
    ensures action.Work? && action.incarnation == k && s.workers[k].Looping? && s.state == Running
  {
    match action
    case Initializer(ok, throws) => InitializeEntersNoLoop(s, ok, throws, n, k);
    case Work(j, throws) =>
      if j in s.workers {
        OneTaskAtATime(actions, s);
        WorkerEntersLoopRunning(s, k, throws, n);
      }
    case Dispatch => DispatcherEntersNoLoop(s, n, k);
    case _ => CallersKeepWorkers(s, action, n);
  }

  /** An OnLoop that returns goes back to the loop with the state untouched; one that throws asks for the stop. */
  lemma OnLoopReturns(s: System, k: nat, throws: bool, n: System)
    requires k in s.workers && s.workers[k].InLoop? && s.state != Destroyed && n == WorkerStep(s, k, throws)
    ensures k in n.workers
    ensures throws ==> n.workers[k].Claiming? && Stopped(n.state)
    ensures !throws ==> n.workers[k].Looping? && n.state == s.state
  {
  }

  /** A lifecycle call moves the state along an accepted transition, and does nothing else. */
  lemma LifecycleMoves(s: System, to: ThreadState)
    requires to in {Running, Paused, Terminating, Terminated}
    ensures Step(s, Lifecycle(to)) == s.(state := if (s.state, to) in ACCEPTED then to else s.state)
  {
    TransitionTable(s.state, to);
  }
}
