/**
 * When the promise of Shutdown holds: that once it has returned to another task, every task of the Thread has been
 * deleted and the dispatcher has made its last access. It does exactly when the handle load missed one window.
 */
module ShutdownGuarantee {
  import opened Foundations
  import opened ThreadStates
  import opened TaskExit

  /** Incarnation k has been deleted and the dispatcher has made its last access for it. */
  predicate Over(s: System, k: nat) {
    k !in s.workers && 1 <= k <= |s.done| && s.done[k - 1] == k
  }

  /** If the caller's Shutdown has returned, the tasks up to the target are deleted and their dispatches over. */
  ghost predicate Promise(s: System, caller: nat, target: nat) {
    caller in s.waiters && s.waiters[caller].Back? ==>
      forall k :: 1 <= k <= target ==> Over(s, k)
  }

  predicate Exposed(w: Waiter) {
    (w.IdleRead? || w.IdleTerminate? || w.IdleTerminated? || w.IdlePending? || w.Back?) && w.exposed
  }

  // ---------------------------------------------------------------- runs, one after the other

  lemma {:induction false} RunsJoin(s: System, a: seq<Action>, b: seq<Action>)
    ensures RunFrom(RunFrom(s, a), b) == RunFrom(s, a + b)
  {
    if b == [] {
      assert a + b == a;
    } else {
      RunsJoin(s, a, b[..|b| - 1]);
      assert (a + b)[..|a + b| - 1] == a + b[..|b| - 1];
    }
  }

  lemma OneStep(s: System, action: Action)
    ensures RunFrom(s, [action]) == Step(s, action)
  {
    assert [action][..0] == [];
  }

  // ---------------------------------------------------------------- a caller keeps what it saw at the load

  lemma LoadSeesWindow(s: System, caller: nat)
    requires caller !in s.waiters
    ensures var n := Step(s, Shutdown(caller));
            && caller in n.waiters && n.waiters[caller].target == s.created
            && Exposed(n.waiters[caller]) == Window(s)
            && n == s.(waiters := n.waiters)
  {
  }

  lemma StepKeepsCaller(s: System, action: Action, n: System, caller: nat)
    requires n == Step(s, action) && caller in s.waiters
    ensures caller in n.waiters
    ensures n.waiters[caller].target == s.waiters[caller].target
    ensures Exposed(n.waiters[caller]) == Exposed(s.waiters[caller])
  {
    if action.Initializer? {
      InitializeFrame(s, action.ok, action.throws, n);
    }
  }

  lemma {:induction false} RunKeepsCaller(s: System, later: seq<Action>, after: System, caller: nat)
    requires after == RunFrom(s, later) && caller in s.waiters
    ensures caller in after.waiters
    ensures after.waiters[caller].target == s.waiters[caller].target
    ensures Exposed(after.waiters[caller]) == Exposed(s.waiters[caller])
  {
    if later != [] {
      var before := RunFrom(s, later[..|later| - 1]);
      RunKeepsCaller(s, later[..|later| - 1], before, caller);
      StepKeepsCaller(before, later[|later| - 1], after, caller);
    }
  }

  // ---------------------------------------------------------------- outside the window the promise holds

  lemma DispatchedTasksAreGone(s: System, target: nat)
    requires Inv(s) && target <= |s.done|
    ensures forall k :: 1 <= k <= target ==> Over(s, k)
  {
  }

  lemma BackIsBehind(s: System, caller: nat, target: nat)
    requires Inv(s) && caller in s.waiters && s.waiters[caller].target == target && !Exposed(s.waiters[caller])
    ensures Promise(s, caller, target)
  {
    assert Waits(s, s.waiters[caller]);
    if s.waiters[caller].Back? {
      DispatchedTasksAreGone(s, target);
    }
  }

  lemma SafeOutsideWindow(s: System, caller: nat, later: seq<Action>, after: System)
    requires Inv(s) && caller !in s.waiters && !Window(s)
    requires after == RunFrom(Step(s, Shutdown(caller)), later)
    ensures Promise(after, caller, s.created)
  {
    var loaded := Step(s, Shutdown(caller));
    StepKeepsInv(s, Shutdown(caller), loaded);
    LoadSeesWindow(s, caller);
    RunKeepsInv(loaded, later, after);
    RunKeepsCaller(loaded, later, after, caller);
    BackIsBehind(after, caller, s.created);
  }

  // ---------------------------------------------------------------- inside it a caller can return too early

  function StepsLeft(w: Waiter): nat {
    match w
    case IdleRead(_, _) => 4
    case IdleTerminate(_, _) => 3
    case IdleTerminated(_, _) => 2
    case IdlePending(_, _) => 1
    case _ => 0
  }

  /** One step of a caller that found no handle, while the flag is down: on towards its return. */
  lemma IdleStep(s: System, caller: nat)
    requires caller in s.waiters && StepsLeft(s.waiters[caller]) > 0 && !s.pending
    ensures var n, w := Step(s, Shutdown(caller)), s.waiters[caller];
            && n == s.(state := n.state, waiters := n.waiters)
            && caller in n.waiters && n.waiters[caller].target == w.target
            && (StepsLeft(n.waiters[caller]) > 0 || n.waiters[caller] == Back(w.target, w.exposed))
            && StepsLeft(n.waiters[caller]) < StepsLeft(w)
            && Exposed(n.waiters[caller]) == Exposed(w)
  {
  }

  /** With nobody else taking a step, the caller comes back and has changed no more than the state. */
  lemma LoneCallerReturns(s: System, caller: nat) returns (later: seq<Action>, after: System)
    requires caller in s.waiters && StepsLeft(s.waiters[caller]) > 0 && !s.pending
    ensures after == RunFrom(s, later) && forall i :: 0 <= i < |later| ==> later[i] == Shutdown(caller)
    ensures caller in after.waiters
    ensures after.waiters[caller] == Back(s.waiters[caller].target, Exposed(s.waiters[caller]))
    ensures after == s.(state := after.state, waiters := after.waiters)
    decreases StepsLeft(s.waiters[caller])
  {
    var n := Step(s, Shutdown(caller));
    IdleStep(s, caller);
    OneStep(s, Shutdown(caller));
    if StepsLeft(n.waiters[caller]) > 0 {
      later, after := LoneCallerReturns(n, caller);
      RunsJoin(s, [Shutdown(caller)], later);
      later := [Shutdown(caller)] + later;
    } else {
      later, after := [Shutdown(caller)], n;
    }
  }

  lemma EarlyReturnInsideWindow(s: System, caller: nat) returns (later: seq<Action>, after: System)
    requires Inv(s) && caller !in s.waiters && Window(s)
    ensures after == RunFrom(Step(s, Shutdown(caller)), later)
    ensures forall i :: 0 <= i < |later| ==> later[i] == Shutdown(caller)
    ensures caller in after.waiters && after.waiters[caller] == Back(s.created, true)
    ensures after == s.(state := after.state, waiters := after.waiters)
    ensures !Promise(after, caller, s.created)
  {
    LoadSeesWindow(s, caller);
    later, after := LoneCallerReturns(Step(s, Shutdown(caller)), caller);
    assert !Over(after, s.created);
  }

  // ---------------------------------------------------------------- the exact condition

  /** Over every run: the promise survives whatever happens later if and only if the load fell outside the window. */
  lemma ShutdownKeepsPromiseIff(earlier: seq<Action>, s: System, caller: nat)
    requires s == Run(earlier) && caller !in s.waiters
    ensures (forall later: seq<Action> :: Promise(RunFrom(Step(s, Shutdown(caller)), later), caller, s.created))
       <==> !Window(s)
  {
    ReachableInv(earlier, s);
    if Window(s) {
      var later, after := EarlyReturnInsideWindow(s, caller);
    } else {
      forall later: seq<Action>
        ensures Promise(RunFrom(Step(s, Shutdown(caller)), later), caller, s.created)
      {
        SafeOutsideWindow(s, caller, later, RunFrom(Step(s, Shutdown(caller)), later));
      }
    }
  }

  /**
   * The window is open between the creation of a task and its publication, while the task lives, and from the
   * taking of a handle that is given up until the pending flag is raised, for the later part with the task deleted.
   */
  lemma WindowStages(earlier: seq<Action>, s: System)
    requires s == Run(earlier)
    ensures Window(s) <==>
            || s.stage == Starting(Publish)
            || (s.stage.Stopping? && !s.stage.teardown.TakeHandle? && !s.stage.teardown.SendRecord?)
    ensures Window(s) ==>
              (s.created in s.workers <==> s.stage.Starting? || s.stage.teardown.DeleteTask?)
  {
    ReachableInv(earlier, s);
  }

  /**
   * For the tasks created before the load the promise holds when no Initialize was past its checks, a handle was
   * found or the pending flag was up. An Initialize still at its checks may create another task meanwhile.
   */
  lemma ShutdownReturnsAfterLastAccess(earlier: seq<Action>, s: System, caller: nat, later: seq<Action>,
                                       after: System)
    requires s == Run(earlier) && caller !in s.waiters
    requires s.stage.Outside? || s.stage.Preparing? || s.handle.Some? || s.pending
    requires after == RunFrom(Step(s, Shutdown(caller)), later)
    ensures Promise(after, caller, s.created)
  {
    ReachableInv(earlier, s);
    WindowStages(earlier, s);
    SafeOutsideWindow(s, caller, later, after);
  }

  // ---------------------------------------------------------------- two runs that reach the window

  /** Initialize has created the first task and not yet published it. */
  function Unpublished(): System {
    Initial().(stage := Starting(Publish), workers := map[1 := Gated], created := 1)
  }

  lemma Extend(actions: seq<Action>, s: System, action: Action)
    requires s == Run(actions)
    ensures Run(actions + [action]) == Step(s, action)
  {
    assert (actions + [action])[..|actions|] == actions;
  }

  /** A first Initialize passes its checks one after the other. */
  function Following(at: Preparation): Preparation {
    match at
    case CheckHandle => CheckPending
    case CheckPending => CheckDispatcher
    case CheckDispatcher => CheckState
    case CheckState => RecheckHandle
    case ResetState => RecheckHandle
    case RecheckHandle => ResetExit
    case ResetExit => ResetGate
    case ResetGate => ResetFinalization
    case ResetFinalization => CreateTask
    case CreateTask => CreateTask
  }

  lemma FirstInitializeGoesOn(at: Preparation)
    requires !at.ResetState? && !at.CreateTask?
    ensures Step(PrepareTo(Initial(), at), Initializer(true, false)) == PrepareTo(Initial(), Following(at))
  {
  }

  /** Runs a first Initialize from one check to the creation of the task. */
  lemma ReachesUnpublished(actions: seq<Action>, at: Preparation, steps: nat) returns (all: seq<Action>)
    requires Run(actions) == PrepareTo(Initial(), at) && !at.ResetState?
    requires steps == (match at case CheckHandle => 8 case CheckPending => 7 case CheckDispatcher => 6
                                case CheckState => 5 case ResetState => 5 case RecheckHandle => 4
                                case ResetExit => 3 case ResetGate => 2 case ResetFinalization => 1
                                case CreateTask => 0)
    ensures Run(all) == Unpublished()
    decreases steps
  {
    var go := Initializer(true, false);
    Extend(actions, PrepareTo(Initial(), at), go);
    all := actions + [go];
    if !at.CreateTask? {
      FirstInitializeGoesOn(at);
      all := ReachesUnpublished(all, Following(at), steps - 1);
    }
  }

  lemma FirstInitializeCreates() returns (actions: seq<Action>)
    ensures Run(actions) == Unpublished()
  {
    Extend([], Initial(), Initializer(true, false));
    actions := ReachesUnpublished([] + [Initializer(true, false)], CheckHandle, 8);
  }

  /** The initialization that runs into an exception in OnInitialization, up to the deletion of its task. */
  function AfterFailure(steps: nat): System {
    var s := Unpublished();
    match steps
    case 0 => s
    case 1 => StartTo(s.(handle := Some(1)), UserInitialization)
    case 2 => StartTo(s.(handle := Some(1)), CatchRead)
    case 3 => StartTo(s.(handle := Some(1)), CatchTerminate)
    case 4 => StartTo(s.(handle := Some(1), state := Terminating), CatchTerminated)
    case 5 => StopTo(s.(handle := Some(1), state := Terminated), TakeHandle, InitializationException)
    case 6 => StopTo(s.(state := Terminated), DeleteTask(Some(1)), InitializationException)
    case _ => StopTo(s.(state := Terminated, workers := map[]), ClaimExit, InitializationException)
  }

  lemma FailureStarts(steps: nat)
    requires steps < 5
    ensures var s := AfterFailure(steps);
            s.stage.Starting? && Start(s, s.stage.startup, true, true) == AfterFailure(steps + 1)
  {
  }

  lemma FailureStops(steps: nat)
    requires 5 <= steps < 7
    ensures var s := AfterFailure(steps);
            s.stage.Stopping? && Stop(s, s.stage.teardown, s.stage.status) == AfterFailure(steps + 1)
  {
    assert map[1 := Gated] - {1} == map[];
  }

  lemma FailureGoesOn(steps: nat, s: System, n: System)
    requires steps < 7 && s == AfterFailure(steps) && n == AfterFailure(steps + 1)
    ensures Initialize(s, true, true) == n
  {
    if steps < 5 {
      FailureStarts(steps);
    } else {
      FailureStops(steps);
    }
  }

  lemma {:induction false} FailureDeletesTask(steps: nat) returns (actions: seq<Action>)
    requires steps <= 7
    ensures Run(actions) == AfterFailure(steps)
  {
    if steps == 0 {
      actions := FirstInitializeCreates();
    } else {
      actions := FailureDeletesTask(steps - 1);
      FailureGoesOn(steps - 1, AfterFailure(steps - 1), AfterFailure(steps));
      Extend(actions, AfterFailure(steps - 1), Initializer(true, true));
      actions := actions + [Initializer(true, true)];
    }
  }

  lemma Joined(s: System, earlier: seq<Action>, action: Action, later: seq<Action>) returns (actions: seq<Action>)
    requires s == Run(earlier)
    ensures Run(actions) == RunFrom(Step(s, action), later)
  {
    Extend(earlier, s, action);
    RunsJoin(Initial(), earlier + [action], later);
    actions := earlier + [action] + later;
  }

  /** A Shutdown that loads the handle between creation and publication can return with the new task alive. */
  lemma ReturnsWithTaskAlive() returns (actions: seq<Action>)
    ensures var s := Run(actions);
            0 in s.waiters && s.waiters[0] == Back(1, true) && 1 in s.workers && s.sent == []
  {
    var earlier := FirstInitializeCreates();
    ReachableInv(earlier, Unpublished());
    var later, after := EarlyReturnInsideWindow(Unpublished(), 0);
    actions := Joined(Unpublished(), earlier, Shutdown(0), later);
  }

  /** One that loads it once a failed task is deleted can return with the record still to be queued. */
  lemma ReturnsBeforeRecord() returns (actions: seq<Action>)
    ensures var s := Run(actions);
            && 0 in s.waiters && s.waiters[0] == Back(1, true) && 1 !in s.workers && s.sent == s.done == []
            && s.stage == Stopping(ClaimExit, InitializationException)
  {
    var earlier := FailureDeletesTask(7);
    ReachableInv(earlier, AfterFailure(7));
    var later, after := EarlyReturnInsideWindow(AfterFailure(7), 0);
    actions := Joined(AfterFailure(7), earlier, Shutdown(0), later);
  }
}
