/**
 * What a returned Shutdown leaves behind: no task at all and no dispatch to come, if no call of Initialize begins
 * after the handle load. Of the calls begun before it, those still preparing their task break this, and so does the
 * window of ShutdownGuarantee; nothing else does.
 */
module ShutdownDelivery {
  import opened Foundations
  import opened ThreadStates
  import opened TaskExit
  import opened ShutdownGuarantee

  /** No step of a run begins a call of Initialize. */
  ghost predicate NoCallBegins(s: System, later: seq<Action>) {
    later != [] ==>
      && NoCallBegins(s, later[..|later| - 1])
      && (later[|later| - 1].Initializer? ==> !RunFrom(s, later[..|later| - 1]).stage.Outside?)
  }

  /** If the caller's Shutdown has returned, no task exists and every dispatch is over. */
  ghost predicate Delivered(s: System, caller: nat) {
    caller in s.waiters && s.waiters[caller].Back? ==> NoTask(s.workers) && |s.done| == s.created
  }

  /** However the run goes on without such a step, the caller comes back to a Thread with nothing left. */
  ghost predicate AlwaysDelivered(s: System, caller: nat) {
    forall later: seq<Action> :: NoCallBegins(s, later) ==> Delivered(RunFrom(s, later), caller)
  }

  // ---------------------------------------------------------------- runs in which no call begins

  ghost predicate Leads(s: System, later: seq<Action>, after: System) {
    after == RunFrom(s, later) && NoCallBegins(s, later)
  }

  lemma {:induction false} NoCallBeginsJoin(s: System, a: seq<Action>, b: seq<Action>)
    requires NoCallBegins(s, a) && NoCallBegins(RunFrom(s, a), b)
    ensures NoCallBegins(s, a + b)
  {
    if b == [] {
      assert a + b == a;
    } else {
      NoCallBeginsJoin(s, a, b[..|b| - 1]);
      RunsJoin(s, a, b[..|b| - 1]);
      assert (a + b)[..|a + b| - 1] == a + b[..|b| - 1];
    }
  }

  lemma LeadsOn(s: System, a: seq<Action>, mid: System, b: seq<Action>, after: System)
    requires Leads(s, a, mid) && Leads(mid, b, after)
    ensures Leads(s, a + b, after)
  {
    RunsJoin(s, a, b);
    NoCallBeginsJoin(s, a, b);
  }

  lemma LeadsOneStep(s: System, action: Action, n: System)
    requires n == Step(s, action) && (action.Initializer? ==> !s.stage.Outside?)
    ensures Leads(s, [action], n)
  {
    OneStep(s, action);
    assert [action][..0] == [];
  }

  lemma {:induction false} ShutdownsBeginNoCall(s: System, later: seq<Action>)
    requires forall i :: 0 <= i < |later| ==> later[i].Shutdown?
    ensures NoCallBegins(s, later)
  {
    if later != [] {
      ShutdownsBeginNoCall(s, later[..|later| - 1]);
    }
  }

  // ---------------------------------------------------------------- past its preparation no call creates a task

  lemma OtherStepsKeepStage(s: System, action: Action, n: System)
    requires !action.Initializer? && n == Step(s, action)
    ensures n.stage == s.stage && n.created == s.created
  {
    match action
    case Work(_, _) =>
    case Dispatch =>
    case OtherThreadSends =>
    case Shutdown(caller) => if caller in s.waiters { WaiterFrame(s, s.waiters[caller]); }
    case Lifecycle(_) =>
  }

  lemma StepStaysPrepared(s: System, action: Action, n: System)
    requires !s.stage.Preparing? && n == Step(s, action) && (action.Initializer? ==> !s.stage.Outside?)
    ensures !n.stage.Preparing? && n.created == s.created
  {
    if !action.Initializer? {
      OtherStepsKeepStage(s, action, n);
    }
  }

  lemma {:induction false} RunStaysPrepared(s: System, later: seq<Action>, after: System)
    requires !s.stage.Preparing? && Leads(s, later, after)
    ensures !after.stage.Preparing? && after.created == s.created
  {
    if later != [] {
      var before := RunFrom(s, later[..|later| - 1]);
      RunStaysPrepared(s, later[..|later| - 1], before);
      StepStaysPrepared(before, later[|later| - 1], after);
    }
  }

  lemma AllDoneLeavesNoTask(s: System)
    requires Inv(s) && |s.done| >= s.created
    ensures NoTask(s.workers) && |s.done| == s.created
  {
  }

  lemma DeliveredOutsideWindow(s: System, caller: nat, later: seq<Action>, after: System)
    requires Inv(s) && caller !in s.waiters && !Window(s) && !s.stage.Preparing?
    requires Leads(Step(s, Shutdown(caller)), later, after)
    ensures Delivered(after, caller)
  {
    var loaded := Step(s, Shutdown(caller));
    LoadSeesWindow(s, caller);
    RunStaysPrepared(loaded, later, after);
    StepKeepsInv(s, Shutdown(caller), loaded);
    RunKeepsInv(loaded, later, after);
    RunKeepsCaller(loaded, later, after, caller);
    assert Waits(after, after.waiters[caller]);
    if after.waiters[caller].Back? {
      AllDoneLeavesNoTask(after);
    }
  }

  // ---------------------------------------------------------------- where a Thread at rest can stand

  /** Between incarnations, and in particular when Initialize is about to reset it. */
  ghost predicate Resting(s: System) {
    && (!Owned(s) ==> s.state == Uninitialized || s.state == Terminating || s.state == Terminated)
    && (s.stage == Preparing(ResetState) ==> s.state == Terminated)
  }

  lemma PreparingKeepsResting(s: System, at: Preparation, ok: bool, n: System)
    requires Inv(s) && Resting(s) && s.stage == Preparing(at) && n == Prepare(s, at, ok)
    ensures Resting(n)
  {
  }

  /** A task's exit is recorded with the state Terminated. */
  lemma OwningKeepsResting(s: System, n: System)
    requires Inv(s) && OwnedByInitializer(s.stage) && n.created == s.created && !n.stage.Preparing?
    requires n.sent == s.sent || (s.stage.Stopping? && n.state == s.state)
    ensures Resting(n)
  {
  }

  lemma InitializeKeepsResting(s: System, ok: bool, throws: bool, n: System)
    requires Inv(s) && Resting(s) && n == Initialize(s, ok, throws)
    ensures Resting(n)
  {
    match s.stage
    case Outside(_) =>
    case Preparing(at) => PreparingKeepsResting(s, at, ok, n);
    case Starting(_) => OwningKeepsResting(s, n);
    case Stopping(_, _) => OwningKeepsResting(s, n);
  }

  lemma WorkerKeepsResting(s: System, k: nat, throws: bool, n: System)
    requires Inv(s) && Resting(s) && k in s.workers && n == WorkerStep(s, k, throws)
    ensures Resting(n)
  {
  }

  /** The transitions other callers make keep a Thread at rest. */
  lemma StateKeepsResting(s: System, n: System, to: ThreadState)
    requires Resting(s) && n.created == s.created && n.sent == s.sent && n.stage == s.stage
    requires to == Running || to == Paused || to == Terminating || to == Terminated
    requires n.state == s.state || n.state == Move(s.state, to)
    ensures Resting(n)
  {
  }

  lemma WaiterMoves(s: System, w: Waiter) returns (to: ThreadState)
    ensures to == Terminating || to == Terminated
    ensures WaiterStep(s, w).0.state == s.state || WaiterStep(s, w).0.state == Move(s.state, to)
  {
    to := if w.IdleTerminated? || w.LiveTerminated? then Terminated else Terminating;
  }

  lemma ShutdownKeepsResting(s: System, caller: nat, n: System)
    requires Resting(s) && n == ShutdownStep(s, caller)
    ensures Resting(n)
  {
    var to := Terminating;
    if caller in s.waiters {
      WaiterFrame(s, s.waiters[caller]);
      to := WaiterMoves(s, s.waiters[caller]);
    }
    StateKeepsResting(s, n, to);
  }

  lemma StepKeepsResting(s: System, action: Action, n: System)
    requires Inv(s) && Resting(s) && n == Step(s, action)
    ensures Resting(n)
  {
    match action
    case Initializer(ok, throws) => InitializeKeepsResting(s, ok, throws, n);
    case Work(k, throws) => if k in s.workers { WorkerKeepsResting(s, k, throws, n); }
    case Dispatch => StateKeepsResting(s, n, Terminating);
    case OtherThreadSends => StateKeepsResting(s, n, Terminating);
    case Shutdown(caller) => ShutdownKeepsResting(s, caller, n);
    case Lifecycle(to) =>
      if to == Running || to == Paused || to == Terminating || to == Terminated {
        StateKeepsResting(s, n, to);
      }
  }

  lemma {:induction false} ReachableResting(actions: seq<Action>, s: System)
    requires s == Run(actions)
    ensures Resting(s)
  {
    if actions != [] {
      var before := Run(actions[..|actions| - 1]);
      ReachableInv(actions[..|actions| - 1], before);
      ReachableResting(actions[..|actions| - 1], before);
      StepKeepsResting(before, actions[|actions| - 1], s);
    }
  }

  // ---------------------------------------------------------------- the earlier task can be brought to its end

  /** How far the current task still is from having its exit recorded. */
  function Ahead(s: System): nat {
    if !Owned(s) || s.created !in s.workers then 0
    else
      match s.workers[s.created]
      case Gated => 8
      case InLoop => 7
      case Looping => if Stopped(s.state) then 5 else 6
      case Claiming => 4
      case Finishing => 3
      case Announcing => 2
      case Sending => 1
      case Suspended => 0
  }

  /** How much the dispatcher still has to do. */
  function Backlog(s: System): nat {
    8 * |s.queue| +
    match s.dispatcher
    case Exchanging(_) => 7
    case Deleting(_, _) => 6
    case Reporting(_) => 5
    case Giving(_) => 4
    case Clearing(_) => 3
    case Elsewhere => 2
    case Receiving => 1
  }

  /** The exit signal of the current task is still to be given, or on show. */
  predicate Coming(s: System) {
    Owned(s) || (InFlight(s) && !s.dispatcher.Clearing?) || s.exit.Some?
  }

  /** A step that brings the current task nearer to its end and leaves Initialize and the callers where they are. */
  ghost predicate Nearer(s: System, n: System) {
    && n.stage == s.stage && n.waiters == s.waiters && n.created == s.created
    && (Coming(s) ==> Coming(n))
    && (Ahead(n) < Ahead(s) || (Ahead(n) == Ahead(s) && Backlog(n) < Backlog(s)))
  }

  lemma WorkerComesNearer(s: System, n: System)
    requires Inv(s) && !OwnedByInitializer(s.stage) && Owned(s) && s.created in s.workers
    requires s.workers[s.created].Looping? ==> Stopped(s.state)
    requires s.workers[s.created].Sending? ==> |s.queue| < QUEUE_LENGTH
    requires n == WorkerStep(s, s.created, false)
    ensures Nearer(s, n)
  {
  }

  lemma TerminateComesNearer(s: System, n: System)
    requires Inv(s) && !OwnedByInitializer(s.stage) && Owned(s) && s.created in s.workers
    requires s.workers[s.created].Looping? && !Stopped(s.state)
    requires n == s.(state := Move(s.state, Terminating))
    ensures Nearer(s, n)
  {
  }

  /** A queue that is full, or holds the current record, is not empty. */
  lemma DispatchComesNearer(s: System, n: System)
    requires Inv(s) && n == DispatcherStep(s)
    requires InFlight(s) || (Owned(s) && |s.queue| >= QUEUE_LENGTH)
    ensures Nearer(s, n)
  {
    NoOwnRecords(s.queue);
  }

  /** A step of the worker, with nothing thrown, or of the dispatcher. */
  predicate Quiet(action: Action) {
    action.Dispatch? || (action.Work? && !action.throws)
  }

  lemma OneStepNearer(s: System) returns (action: Action, n: System)
    requires Inv(s) && !OwnedByInitializer(s.stage) && !Settled(s)
    ensures n == Step(s, action) && Nearer(s, n) && (Quiet(action) || action == Lifecycle(Terminating))
    ensures Stopped(s.state) ==> Quiet(action) && Stopped(n.state)
  {
    if !Owned(s) || (s.workers[s.created].Sending? && |s.queue| >= QUEUE_LENGTH) {
      action, n := Dispatch, DispatcherStep(s);
      DispatchComesNearer(s, n);
    } else if s.workers[s.created].Looping? && !Stopped(s.state) {
      action, n := Lifecycle(Terminating), s.(state := Move(s.state, Terminating));
      TerminateComesNearer(s, n);
    } else {
      action, n := Work(s.created, false), WorkerStep(s, s.created, false);
      WorkerComesNearer(s, n);
    }
  }

  lemma Settle(s: System) returns (later: seq<Action>, after: System)
    requires Inv(s) && Resting(s) && !OwnedByInitializer(s.stage)
    ensures Leads(s, later, after) && Inv(after) && Resting(after) && Settled(after)
    ensures after.stage == s.stage && after.waiters == s.waiters && after.created == s.created
    ensures Coming(s) ==> Coming(after)
    ensures Stopped(s.state) ==> Stopped(after.state) && forall i :: 0 <= i < |later| ==> Quiet(later[i])
    decreases Ahead(s), Backlog(s)
  {
    if Settled(s) {
      later, after := [], s;
    } else {
      var action, n := OneStepNearer(s);
      StepKeepsInv(s, action, n);
      StepKeepsResting(s, action, n);
      LeadsOneStep(s, action, n);
      later, after := Settle(n);
      LeadsOn(s, [action], n, later, after);
      later := [action] + later;
    }
  }

  // ---------------------------------------------------------------- an Initialize at its checks can go on to a task

  function ChecksLeft(s: System): nat
    requires s.stage.Preparing?
  {
    match s.stage.preparation
    case CheckHandle => 10
    case CheckPending => 9
    case CheckDispatcher => 8
    case CheckState => if s.state == Terminating then 7 else 6
    case ResetState => 5
    case RecheckHandle => 4
    case ResetExit => 3
    case ResetGate => 2
    case ResetFinalization => 1
    case CreateTask => 0
  }

  /** A step that brings Initialize nearer to its task. */
  ghost predicate CheckPassed(s: System, n: System)
    requires s.stage.Preparing?
  {
    && n.stage.Preparing? && ChecksLeft(n) < ChecksLeft(s)
    && n.waiters == s.waiters && n.created == s.created && Settled(n)
  }

  lemma PassesCheck(s: System, n: System)
    requires Inv(s) && Resting(s) && Settled(s) && s.stage.Preparing?
    requires !s.stage.preparation.CreateTask? && !(s.stage.preparation.CheckState? && s.state == Terminating)
    requires n == Prepare(s, s.stage.preparation, true)
    ensures CheckPassed(s, n)
  {
  }

  lemma OneCheckOn(s: System) returns (action: Action, n: System)
    requires Inv(s) && Resting(s) && Settled(s) && s.stage.Preparing? && !s.stage.preparation.CreateTask?
    ensures n == Step(s, action) && CheckPassed(s, n)
  {
    if s.stage.preparation.CheckState? && s.state == Terminating {
      action, n := Lifecycle(Terminated), s.(state := Terminated);
    } else {
      action, n := Initializer(true, false), Prepare(s, s.stage.preparation, true);
      PassesCheck(s, n);
    }
  }

  lemma CreatesTask(s: System, n: System)
    requires s.stage == Preparing(CreateTask) && n == Prepare(s, CreateTask, true)
    ensures n.stage == Starting(Publish) && n.created == s.created + 1 && n.created in n.workers
    ensures n.waiters == s.waiters
  {
  }

  lemma ReachTask(s: System) returns (later: seq<Action>, after: System)
    requires Inv(s) && Resting(s) && Settled(s) && s.stage.Preparing?
    ensures Leads(s, later, after) && Inv(after)
    ensures after.stage == Starting(Publish) && after.created == s.created + 1 && after.created in after.workers
    ensures after.waiters == s.waiters
    decreases ChecksLeft(s)
  {
    if s.stage.preparation.CreateTask? {
      var go := Initializer(true, false);
      after := Prepare(s, CreateTask, true);
      later := [go];
      CreatesTask(s, after);
      StepKeepsInv(s, go, after);
      LeadsOneStep(s, go, after);
    } else {
      var action, n := OneCheckOn(s);
      StepKeepsInv(s, action, n);
      StepKeepsResting(s, action, n);
      LeadsOneStep(s, action, n);
      later, after := ReachTask(n);
      LeadsOn(s, [action], n, later, after);
      later := [action] + later;
    }
  }

  // ---------------------------------------------------------------- and the caller can come back to it

  /** Steps of a caller that has found a handle, up to its wait for the pending flag. */
  function LiveStepsLeft(w: Waiter): nat {
    match w
    case LiveTerminate(_) => 3
    case LiveTerminated(_) => 2
    case LiveWait(_) => 1
    case _ => 0
  }

  lemma LiveStep(s: System, caller: nat, n: System)
    requires caller in s.waiters && LiveStepsLeft(s.waiters[caller]) > 0 && n == ShutdownStep(s, caller)
    requires s.waiters[caller].LiveWait? ==> s.exit.Some?
    ensures n == s.(state := n.state, exit := n.exit, waiters := n.waiters) && caller in n.waiters
    ensures LiveStepsLeft(n.waiters[caller]) < LiveStepsLeft(s.waiters[caller])
    ensures LiveStepsLeft(n.waiters[caller]) > 0 ==> n.exit == s.exit
    ensures LiveStepsLeft(n.waiters[caller]) == 0 ==> n.waiters[caller].LivePending?
    ensures Stopped(s.state) ==> Stopped(n.state)
  {
  }

  lemma TakesSignal(s: System, caller: nat) returns (later: seq<Action>, after: System)
    requires Inv(s) && Resting(s) && Settled(s) && s.exit.Some?
    requires caller in s.waiters && LiveStepsLeft(s.waiters[caller]) > 0
    ensures Leads(s, later, after) && Inv(after) && Resting(after) && Settled(after)
    ensures forall i :: 0 <= i < |later| ==> later[i] == Shutdown(caller)
    ensures after.stage == s.stage && after.created == s.created
    ensures caller in after.waiters && after.waiters[caller].LivePending?
    decreases LiveStepsLeft(s.waiters[caller])
  {
    var n := ShutdownStep(s, caller);
    LiveStep(s, caller, n);
    StepKeepsInv(s, Shutdown(caller), n);
    StepKeepsResting(s, Shutdown(caller), n);
    LeadsOneStep(s, Shutdown(caller), n);
    if LiveStepsLeft(n.waiters[caller]) == 0 {
      later, after := [Shutdown(caller)], n;
    } else {
      later, after := TakesSignal(n, caller);
      LeadsOn(s, [Shutdown(caller)], n, later, after);
      later := [Shutdown(caller)] + later;
    }
  }

  lemma PendingStep(s: System, caller: nat, n: System)
    requires caller in s.waiters && s.waiters[caller].LivePending? && !s.pending && n == ShutdownStep(s, caller)
    ensures caller in n.waiters && n.waiters[caller].Back? && n == s.(waiters := n.waiters)
  {
  }

  lemma ComesBack(s: System, caller: nat) returns (later: seq<Action>, after: System)
    requires caller in s.waiters && !s.pending
    requires s.waiters[caller].LivePending? || StepsLeft(s.waiters[caller]) > 0
    ensures Leads(s, later, after) && caller in after.waiters && after.waiters[caller].Back?
    ensures forall i :: 0 <= i < |later| ==> later[i] == Shutdown(caller)
    ensures after.workers == s.workers && after.created == s.created && after.done == s.done
  {
    if s.waiters[caller].LivePending? {
      later, after := [Shutdown(caller)], ShutdownStep(s, caller);
      PendingStep(s, caller, after);
      LeadsOneStep(s, Shutdown(caller), after);
    } else {
      later, after := LoneCallerReturns(s, caller);
      ShutdownsBeginNoCall(s, later);
    }
  }

  lemma LoadFindsHandleOrNot(s: System, caller: nat, n: System)
    requires Inv(s) && caller !in s.waiters && n == Step(s, Shutdown(caller))
    ensures n == s.(waiters := n.waiters) && caller in n.waiters
    ensures if s.handle.Some? then n.waiters[caller].LiveTerminate? && Coming(n)
            else n.waiters[caller].IdleRead?
  {
  }

  /** The caller takes what signal it needs while the earlier task ends. */
  lemma ReadyToReturn(s: System, caller: nat) returns (later: seq<Action>, after: System)
    requires Inv(s) && Resting(s) && s.stage.Preparing? && caller in s.waiters
    requires if s.waiters[caller].LiveTerminate? then Coming(s) else s.waiters[caller].IdleRead?
    ensures Leads(s, later, after) && Inv(after) && Resting(after) && Settled(after)
    ensures after.stage == s.stage && after.created == s.created && caller in after.waiters
    ensures after.waiters[caller].LivePending? || StepsLeft(after.waiters[caller]) > 0
  {
    later, after := Settle(s);
    if s.waiters[caller].LiveTerminate? {
      var mid, more := after, [];
      more, after := TakesSignal(mid, caller);
      LeadsOn(s, later, mid, more, after);
      later := later + more;
    }
  }

  /** From a load made while Initialize prepares, the caller can come back to the task created since. */
  lemma ReturnsToNewTask(s: System, caller: nat) returns (later: seq<Action>, after: System)
    requires Inv(s) && Resting(s) && s.stage.Preparing? && caller !in s.waiters
    ensures Leads(Step(s, Shutdown(caller)), later, after)
    ensures caller in after.waiters && after.waiters[caller].Back?
    ensures after.created == s.created + 1 && after.created in after.workers
    ensures !Delivered(after, caller)
  {
    var loaded := Step(s, Shutdown(caller));
    LoadFindsHandleOrNot(s, caller, loaded);
    StepKeepsInv(s, Shutdown(caller), loaded);
    StepKeepsResting(s, Shutdown(caller), loaded);
    var first, settled := ReadyToReturn(loaded, caller);
    var second, created := ReachTask(settled);
    LeadsOn(loaded, first, settled, second, created);
    var third: seq<Action>;
    third, after := ComesBack(created, caller);
    LeadsOn(loaded, first + second, created, third, after);
    later := first + second + third;
  }

  // ---------------------------------------------------------------- the exact condition

  lemma NotAlwaysDelivered(s: System, caller: nat, later: seq<Action>, after: System)
    requires Leads(s, later, after) && !Delivered(after, caller)
    ensures !AlwaysDelivered(s, caller)
  {
    assert !Delivered(RunFrom(s, later), caller);
  }

  lemma WindowIsNotDelivered(s: System, caller: nat)
    requires Inv(s) && caller !in s.waiters && Window(s)
    ensures !AlwaysDelivered(Step(s, Shutdown(caller)), caller)
  {
    var later, after := EarlyReturnInsideWindow(s, caller);
    ShutdownsBeginNoCall(Step(s, Shutdown(caller)), later);
    NotAlwaysDelivered(Step(s, Shutdown(caller)), caller, later, after);
  }

  /**
   * Over every run: as long as no further call of Initialize begins, a Shutdown that has returned leaves no task and
   * no dispatch to come if and only if its handle load fell neither into the window nor into the preparation of a task.
   */
  lemma ShutdownDeliversIff(earlier: seq<Action>, s: System, caller: nat, loaded: System)
    requires s == Run(earlier) && caller !in s.waiters && loaded == Step(s, Shutdown(caller))
    ensures AlwaysDelivered(loaded, caller) <==> !Window(s) && !s.stage.Preparing?
  {
    ReachableInv(earlier, s);
    if s.stage.Preparing? {
      ReachableResting(earlier, s);
      var later, after := ReturnsToNewTask(s, caller);
      NotAlwaysDelivered(loaded, caller, later, after);
    } else if Window(s) {
      WindowIsNotDelivered(s, caller);
    } else {
      forall later: seq<Action> | NoCallBegins(loaded, later)
        ensures Delivered(RunFrom(loaded, later), caller)
      {
        DeliveredOutsideWindow(s, caller, later, RunFrom(loaded, later));
      }
    }
  }

  /** What a caller can see to: no call of Initialize in progress at the load, and none begun until the return. */
  lemma ShutdownDelivers(earlier: seq<Action>, s: System, caller: nat, later: seq<Action>, after: System)
    requires s == Run(earlier) && caller !in s.waiters && s.stage.Outside?
    requires Leads(Step(s, Shutdown(caller)), later, after)
    ensures Delivered(after, caller)
  {
    ReachableInv(earlier, s);
    WindowStages(earlier, s);
    DeliveredOutsideWindow(s, caller, later, after);
  }

  /** A run in which Shutdown loads the handle while a first Initialize prepares, and returns with its task alive. */
  lemma ReturnsWithTaskCreatedSince() returns (actions: seq<Action>)
    ensures var s := Run(actions);
            0 in s.waiters && s.waiters[0].Back? && s.created == 1 && 1 in s.workers
  {
    var start := Initializer(true, false);
    var s := PrepareTo(Initial(), CheckHandle);
    Extend([], Initial(), start);
    assert [] + [start] == [start];
    ReachableInv([start], s);
    ReachableResting([start], s);
    var later, after := ReturnsToNewTask(s, 0);
    actions := Joined(s, [start], Shutdown(0), later);
  }
}
