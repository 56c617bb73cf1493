/**
 * What a call of Initialize answers and leaves behind: the status of an undisturbed call for every state it can start
 * in, and that a call overtaken by a stop or an exception never succeeds.
 */
module InitializeOutcome {
  import opened Foundations
  import opened ThreadStates
  import opened TaskExit
  import opened ShutdownGuarantee
  import opened ShutdownDelivery
  import opened ShutdownProgress

  // ---------------------------------------------------------------- an undisturbed call

  /** What decides a call that nothing disturbs: the platform, and the start-on-initialize setting. */
  datatype Setting = Setting(dispatcherAvailable: bool, taskCreated: bool, startOnInitialize: bool)

  /** The status of a call from its state at the beginning. */
  function Verdict(s: System, given: Setting): Status {
    if s.handle.Some? then AlreadyInitialized
    else if s.pending then TerminationDispatchPending
    else if !given.dispatcherAvailable then TerminationDispatcherUnavailable
    else if s.state != Uninitialized && s.state != Terminated then InvalidState
    else if !given.taskCreated then TaskCreationFailed
    else Success
  }

  function Choice(s: System, given: Setting): Action {
    Initializer(if s.stage == Preparing(CheckDispatcher) then given.dispatcherAvailable
                else if s.stage == Preparing(CreateTask) then given.taskCreated
                else given.startOnInitialize, false)
  }

  /** Every step of a run is the call's own, and the run does not go on past the end of the call. */
  ghost predicate Chosen(s: System, given: Setting, later: seq<Action>) {
    later != [] ==>
      && Chosen(s, given, later[..|later| - 1])
      && later[|later| - 1] == Choice(RunFrom(s, later[..|later| - 1]), given)
      && (|later| > 1 ==> !RunFrom(s, later[..|later| - 1]).stage.Outside?)
  }

  ghost predicate Undisturbed(s: System, given: Setting, later: seq<Action>, after: System) {
    after == RunFrom(s, later) && Chosen(s, given, later)
  }

  lemma {:induction false} ChosenJoin(s: System, given: Setting, a: seq<Action>, b: seq<Action>)
    requires Chosen(s, given, a) && Chosen(RunFrom(s, a), given, b) && !RunFrom(s, a).stage.Outside?
    ensures Chosen(s, given, a + b)
  {
    if b == [] {
      assert a + b == a;
    } else {
      ChosenJoin(s, given, a, b[..|b| - 1]);
      RunsJoin(s, a, b[..|b| - 1]);
      assert (a + b)[..|a + b| - 1] == a + b[..|b| - 1];
    }
  }

  lemma UndisturbedJoin(s: System, given: Setting, a: seq<Action>, mid: System, b: seq<Action>, after: System)
    requires Undisturbed(s, given, a, mid) && Undisturbed(mid, given, b, after) && !mid.stage.Outside?
    ensures Undisturbed(s, given, a + b, after)
  {
    RunsJoin(s, a, b);
    ChosenJoin(s, given, a, b);
  }

  lemma UndisturbedOne(s: System, given: Setting, n: System)
    requires n == Step(s, Choice(s, given))
    ensures Undisturbed(s, given, [Choice(s, given)], n)
  {
    var c := Choice(s, given);
    OneStep(s, c);
    assert [c][..0] == [];
  }

  function PreparationLeft(at: Preparation): nat {
    match at
    case CheckHandle => 9
    case CheckPending => 8
    case CheckDispatcher => 7
    case CheckState => 6
    case ResetState => 5
    case RecheckHandle => 4
    case ResetExit => 3
    case ResetGate => 2
    case ResetFinalization => 1
    case CreateTask => 0
  }

  /** What is left to be checked decides what is left of the verdict. */
  function RestOfVerdict(s: System, at: Preparation, given: Setting): Status {
    if at.CheckHandle? then Verdict(s, given)
    else if at.CheckPending? && s.pending then TerminationDispatchPending
    else if (at.CheckPending? || at.CheckDispatcher?) && !given.dispatcherAvailable
    then TerminationDispatcherUnavailable
    else if (at.CheckPending? || at.CheckDispatcher? || at.CheckState?)
            && s.state != Uninitialized && s.state != Terminated then InvalidState
    else if !given.taskCreated then TaskCreationFailed
    else Success
  }

  /** Where an undisturbed preparation can stand. */
  predicate OnTheWay(s: System, at: Preparation) {
    && s.stage == Preparing(at)
    && (!at.CheckHandle? ==> s.handle.None?)
    && (at.ResetState? ==> s.state == Terminated)
    && (PreparationLeft(at) < 5 ==> s.state == Uninitialized)
  }

  /** Nothing but state and stage has been touched. */
  predicate Untouched(s: System, n: System) {
    n.handle == s.handle && n.pending == s.pending && n.workers == s.workers && n.created == s.created
  }

  /** What a step of an undisturbed preparation comes to. */
  ghost predicate GoesOn(s: System, at: Preparation, given: Setting, n: System) {
    match n.stage
    case Outside(status) =>
      status == RestOfVerdict(s, at, given) != Success && Untouched(s, n)
      && (status == TaskCreationFailed || n.state == s.state)
    case Preparing(next) =>
      && OnTheWay(n, next) && PreparationLeft(next) < PreparationLeft(at) && Untouched(s, n)
      && RestOfVerdict(n, next, given) == RestOfVerdict(s, at, given)
      && (n.state == s.state || at.ResetState?)
    case Starting(startup) =>
      && startup == Publish && RestOfVerdict(s, at, given) == Success && n.created == s.created + 1
      && n.state == Uninitialized && n.handle.None? && n.workers == s.workers[s.created + 1 := Gated]
    case Stopping(_, _) => false
  }

  lemma ChecksGoOn(s: System, at: Preparation, given: Setting, n: System)
    requires OnTheWay(s, at) && !Clears(at) && n == Prepare(s, at, Choice(s, given).ok)
    ensures GoesOn(s, at, given, n)
  {
  }

  lemma ClearsGoOn(s: System, at: Preparation, given: Setting, n: System)
    requires OnTheWay(s, at) && Clears(at) && n == Prepare(s, at, Choice(s, given).ok)
    ensures GoesOn(s, at, given, n)
  {
  }

  lemma PreparationIsStep(s: System, at: Preparation, given: Setting, n: System)
    requires s.stage == Preparing(at) && n == Prepare(s, at, Choice(s, given).ok)
    ensures Undisturbed(s, given, [Choice(s, given)], n)
  {
    UndisturbedOne(s, given, n);
  }

  lemma OnePreparationStep(s: System, at: Preparation, given: Setting) returns (n: System)
    requires OnTheWay(s, at)
    ensures Undisturbed(s, given, [Choice(s, given)], n) && GoesOn(s, at, given, n)
  {
    n := Prepare(s, at, Choice(s, given).ok);
    PreparationIsStep(s, at, given, n);
    if Clears(at) {
      ClearsGoOn(s, at, given, n);
    } else {
      ChecksGoOn(s, at, given, n);
    }
  }

  /** What an undisturbed preparation comes to in the end. */
  ghost predicate PreparationEnds(s: System, status: Status, after: System) {
    if status == Success then
      && after.stage == Starting(Publish) && after.created == s.created + 1 && after.state == Uninitialized
      && after.handle.None? && after.workers == s.workers[s.created + 1 := Gated]
    else
      && after.stage == Outside(status) && Untouched(s, after)
      && (status == TaskCreationFailed || after.state == s.state)
  }

  /** The reset of the state is passed only by calls that go on to create a task. */
  lemma EndsPassOn(s: System, at: Preparation, given: Setting, n: System, after: System)
    requires OnTheWay(s, at) && GoesOn(s, at, given, n) && n.stage.Preparing?
    requires PreparationEnds(n, RestOfVerdict(n, n.stage.preparation, given), after)
    ensures PreparationEnds(s, RestOfVerdict(s, at, given), after)
  {
  }

  lemma FinishPreparation(s: System, at: Preparation, given: Setting) returns (later: seq<Action>, after: System)
    requires OnTheWay(s, at)
    ensures Undisturbed(s, given, later, after) && PreparationEnds(s, RestOfVerdict(s, at, given), after)
    decreases PreparationLeft(at)
  {
    var n := OnePreparationStep(s, at, given);
    if n.stage.Preparing? {
      later, after := FinishPreparation(n, n.stage.preparation, given);
      EndsPassOn(s, at, given, n, after);
      UndisturbedJoin(s, given, [Choice(s, given)], n, later, after);
      later := [Choice(s, given)] + later;
    } else {
      later, after := [Choice(s, given)], n;
    }
  }

  function StartupLeft(at: Startup): nat {
    match at
    case Publish => 6
    case UserInitialization => 5
    case ReadAfterUser => 4
    case SetInitialized => 3
    case ReadAfterInitialized => 2
    case SetRunning => 1
    case _ => 0
  }

  /** The states an undisturbed start-up goes through. */
  predicate StartingUp(s: System, at: Startup, given: Setting) {
    && s.stage == Starting(at)
    && (match at
        case Publish => s.handle.None? && s.state == Uninitialized
        case UserInitialization => s.handle == Some(s.created) && s.state == Uninitialized
        case ReadAfterUser => s.handle == Some(s.created) && s.state == Uninitialized
        case SetInitialized => s.handle == Some(s.created) && s.state == Uninitialized
        case ReadAfterInitialized => s.handle == Some(s.created) && s.state == Initialized
        case SetRunning => s.handle == Some(s.created) && s.state == Initialized && given.startOnInitialize
        case OpenGate =>
          s.handle == Some(s.created) && s.state == if given.startOnInitialize then Running else Initialized
        case _ => false)
  }

  lemma StartupGoesOn(s: System, at: Startup, given: Setting, n: System)
    requires StartingUp(s, at, given) && n == Start(s, at, Choice(s, given).ok, false)
    ensures n.created == s.created && n.workers == s.workers
    ensures if at.OpenGate? then n == s.(gate := true, stage := Outside(Success))
            else n.stage.Starting? && StartingUp(n, n.stage.startup, given)
                 && StartupLeft(n.stage.startup) < StartupLeft(at)
  {
  }

  lemma FinishStartup(s: System, at: Startup, given: Setting) returns (later: seq<Action>, after: System)
    requires StartingUp(s, at, given)
    ensures Undisturbed(s, given, later, after)
    ensures after.stage == Outside(Success) && after.gate && after.handle == Some(after.created)
    ensures after.created == s.created && after.workers == s.workers
    ensures after.state == if given.startOnInitialize then Running else Initialized
    decreases StartupLeft(at)
  {
    var n := Start(s, at, Choice(s, given).ok, false);
    StartupGoesOn(s, at, given, n);
    UndisturbedOne(s, given, n);
    if at.OpenGate? {
      later, after := [Choice(s, given)], n;
    } else {
      later, after := FinishStartup(n, n.stage.startup, given);
      UndisturbedJoin(s, given, [Choice(s, given)], n, later, after);
      later := [Choice(s, given)] + later;
    }
  }

  lemma CallBegins(s: System, given: Setting, begun: System)
    requires s.stage.Outside? && begun == PrepareTo(s, CheckHandle)
    ensures Undisturbed(s, given, [Choice(s, given)], begun)
  {
    UndisturbedOne(s, given, begun);
  }

  lemma UndisturbedPreparation(s: System, given: Setting, begun: System)
    returns (later: seq<Action>, prepared: System)
    requires s.stage.Outside? && begun == PrepareTo(s, CheckHandle)
    ensures later != [] && Undisturbed(s, given, later, prepared)
    ensures PreparationEnds(begun, Verdict(begun, given), prepared) && Verdict(begun, given) == Verdict(s, given)
  {
    CallBegins(s, given, begun);
    later, prepared := FinishPreparation(begun, CheckHandle, given);
    UndisturbedJoin(s, given, [Choice(s, given)], begun, later, prepared);
    later := [Choice(s, given)] + later;
  }

  /**
   * A call nothing disturbs returns the status its first state calls for. Success leaves a new task, gated with the
   * gate open, its handle published, in state Running or Initialized as the start-on-initialize setting says; any
   * other status leaves handle, tasks and flag as they were.
   */
  lemma UndisturbedInitialize(s: System, given: Setting) returns (later: seq<Action>, after: System)
    requires s.stage.Outside?
    ensures later != [] && Undisturbed(s, given, later, after) && after.stage == Outside(Verdict(s, given))
    ensures Verdict(s, given) == Success ==>
              && after.created == s.created + 1 && after.handle == Some(after.created) && after.gate
              && after.workers == s.workers[after.created := Gated]
              && after.state == if given.startOnInitialize then Running else Initialized
    ensures Verdict(s, given) != Success ==> Untouched(s, after)
    ensures Verdict(s, given) != Success && Verdict(s, given) != TaskCreationFailed ==> after.state == s.state
  {
    var prepared: System;
    later, prepared := UndisturbedPreparation(s, given, PrepareTo(s, CheckHandle));
    after := prepared;
    if Verdict(s, given) == Success {
      var second: seq<Action>;
      second, after := FinishStartup(prepared, Publish, given);
      UndisturbedJoin(s, given, later, prepared, second, after);
      later := later + second;
    }
  }

  /** A Thread started that way runs: two steps of its worker begin OnLoop. */
  lemma StartedThreadRuns(s: System, k: nat, entered: System, running: System)
    requires k in s.workers && s.workers[k].Gated? && s.gate && s.state == Running
    requires entered == WorkerStep(s, k, false) && k in entered.workers && running == WorkerStep(entered, k, false)
    ensures k in running.workers && running.workers[k].InLoop? && k in running.looped && !running.gate
  {
  }

  // ---------------------------------------------------------------- a call that is overtaken

  /** The stop has been asked for before Initialize last looks, or it has seen it. */
  predicate Overtaken(s: System) {
    match s.stage
    case Outside(last) => Aborted(last)
    case Preparing(_) => false
    case Starting(at) =>
      || at.ForceTerminated? || at.CatchRead? || at.CatchTerminate? || at.CatchTerminated?
      || (!at.SetRunning? && !at.OpenGate? && Stopped(s.state))
    case Stopping(_, status) => Aborted(status)
  }

  lemma StartingStaysOvertaken(s: System, at: Startup, ok: bool, throws: bool, n: System)
    requires Inv(s) && s.stage == Starting(at) && Overtaken(s) && n == Start(s, at, ok, throws)
    ensures Overtaken(n)
  {
  }

  lemma StoppingStaysOvertaken(s: System, n: System)
    requires s.stage.Stopping? && Overtaken(s) && n == Stop(s, s.stage.teardown, s.stage.status)
    ensures Overtaken(n)
  {
  }

  lemma WaiterKeepsStop(s: System, w: Waiter, n: System)
    requires s.state != Destroyed && n == WaiterStep(s, w).0
    ensures Stopped(s.state) ==> Stopped(n.state)
  {
  }

  lemma WorkerKeepsOwner(s: System, k: nat, throws: bool, n: System)
    requires Inv(s) && s.stage.Starting? && k in s.workers && n == WorkerStep(s, k, throws)
    ensures n.created == s.created && Owned(n)
  {
  }

  lemma OthersKeepStop(s: System, action: Action, n: System)
    requires Inv(s) && s.stage.Starting? && !action.Initializer? && n == Step(s, action)
    ensures Stopped(s.state) ==> Stopped(n.state)
  {
    match action
    case Work(k, throws) =>
      if k in s.workers {
        WorkerStaysStopped(s, k, throws, n);
        WorkerKeepsOwner(s, k, throws, n);
      }
    case Dispatch =>
    case OtherThreadSends =>
    case Shutdown(caller) =>
      if caller in s.waiters {
        var (stepped, v) := WaiterStep(s, s.waiters[caller]);
        WaiterKeepsStop(s, s.waiters[caller], stepped);
      }
    case Lifecycle(_) =>
  }

  /** Nobody else's step undoes the stop while the task is Initialize's. */
  lemma OthersStayOvertaken(s: System, action: Action, n: System)
    requires Inv(s) && Overtaken(s) && !action.Initializer? && n == Step(s, action)
    ensures Overtaken(n)
  {
    OtherStepsKeepStage(s, action, n);
    if s.stage.Starting? {
      OthersKeepStop(s, action, n);
    }
  }

  lemma StepStaysOvertaken(s: System, action: Action, n: System)
    requires Inv(s) && Overtaken(s) && n == Step(s, action) && (action.Initializer? ==> !s.stage.Outside?)
    ensures Overtaken(n)
  {
    if !action.Initializer? {
      OthersStayOvertaken(s, action, n);
    } else if s.stage.Starting? {
      StartingStaysOvertaken(s, s.stage.startup, action.ok, action.throws, n);
    } else {
      StoppingStaysOvertaken(s, n);
    }
  }

  lemma {:induction false} RunStaysOvertaken(s: System, later: seq<Action>, after: System)
    requires Inv(s) && Overtaken(s) && Leads(s, later, after)
    ensures Inv(after) && Overtaken(after)
  {
    if later != [] {
      var before := RunFrom(s, later[..|later| - 1]);
      RunStaysOvertaken(s, later[..|later| - 1], before);
      StepStaysOvertaken(before, later[|later| - 1], after);
      StepKeepsInv(before, later[|later| - 1], after);
    }
  }

  /**
   * Over every run: a call that is stopped, by anyone, before it has looked at the state for the last time never
   * returns Success, nor anything but one of the two statuses that say why its task is gone.
   */
  lemma StoppedCallAborts(earlier: seq<Action>, s: System, later: seq<Action>, after: System)
    requires s == Run(earlier) && s.stage.Starting? && !s.stage.startup.SetRunning? && !s.stage.startup.OpenGate?
    requires Stopped(s.state) && Leads(s, later, after) && after.stage.Outside?
    ensures Aborted(after.stage.last) && after.state == Terminated && NoTask(after.workers)
    ensures after.created !in after.looped
  {
    ReachableInv(earlier, s);
    RunStaysOvertaken(s, later, after);
  }

  /** Either look at the state sees the stop: nothing more is initialized, and the task is given up next. */
  lemma StopIsSeenAtNextLook(s: System, ok: bool, throws: bool, n: System)
    requires s.stage == Starting(ReadAfterUser) || s.stage == Starting(ReadAfterInitialized)
    requires n == Start(s, s.stage.startup, ok, throws)
    ensures s.state == Terminating ==> n == s.(stage := Starting(ForceTerminated))
    ensures s.state == Terminated ==> n == s.(stage := Stopping(TakeHandle, TerminatedDuringInitialization))
  {
  }

  predicate Excepted(s: System) {
    match s.stage
    case Outside(last) => last == InitializationException
    case Preparing(_) => false
    case Starting(at) => at.CatchRead? || at.CatchTerminate? || at.CatchTerminated?
    case Stopping(_, status) => status == InitializationException
  }

  lemma CatchingStaysExcepted(s: System, at: Startup, ok: bool, throws: bool, n: System)
    requires s.stage == Starting(at) && Excepted(s) && n == Start(s, at, ok, throws)
    ensures Excepted(n)
  {
  }

  lemma StoppingStaysExcepted(s: System, n: System)
    requires s.stage.Stopping? && Excepted(s) && n == Stop(s, s.stage.teardown, s.stage.status)
    ensures Excepted(n)
  {
  }

  lemma StepStaysExcepted(s: System, action: Action, n: System)
    requires Excepted(s) && n == Step(s, action) && (action.Initializer? ==> !s.stage.Outside?)
    ensures Excepted(n)
  {
    if !action.Initializer? {
      OtherStepsKeepStage(s, action, n);
    } else if s.stage.Starting? {
      CatchingStaysExcepted(s, s.stage.startup, action.ok, action.throws, n);
    } else {
      StoppingStaysExcepted(s, n);
    }
  }

  lemma {:induction false} RunStaysExcepted(s: System, later: seq<Action>, after: System)
    requires Excepted(s) && Leads(s, later, after)
    ensures Excepted(after)
  {
    if later != [] {
      var before := RunFrom(s, later[..|later| - 1]);
      RunStaysExcepted(s, later[..|later| - 1], before);
      StepStaysExcepted(before, later[|later| - 1], after);
    }
  }

  /** A call whose OnInitialization or transition throws returns InitializationException, whatever happens then. */
  lemma ThrowingCallAborts(s: System, ok: bool, thrown: System, later: seq<Action>, after: System)
    requires s.stage.Starting? && s.stage.startup in {UserInitialization, SetInitialized, SetRunning, ForceTerminated}
    requires thrown == Step(s, Initializer(ok, true))
    requires Leads(thrown, later, after) && after.stage.Outside?
    ensures after.stage == Outside(InitializationException)
  {
    RunStaysExcepted(thrown, later, after);
  }
}
