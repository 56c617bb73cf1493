/**
 * What Shutdown does by itself: it asks a live task to stop, the task and the dispatcher need nothing else to bring
 * the caller back, and it leaves the Thread Terminated.
 */
module ShutdownProgress {
  import opened Foundations
  import opened ThreadStates
  import opened TaskExit
  import opened ShutdownGuarantee
  import opened ShutdownDelivery

  // ---------------------------------------------------------------- a waiting caller has asked for the stop

  /** A caller past Terminate waits for the current task only with the task asked to stop. */
  ghost predicate AskedFor(s: System, w: Waiter) {
    (w.LiveTerminated? || w.LiveWait? || w.LivePending?) && w.target == s.created && Owned(s) ==> Stopped(s.state)
  }

  ghost predicate Asked(s: System) {
    forall c :: c in s.waiters ==> AskedFor(s, s.waiters[c])
  }

  /** What other parties do to a task whose exit is still to be recorded leaves it stopped once it is. */
  ghost predicate StaysStopped(s: System, n: System) {
    && s.created <= n.created
    && (n.created == s.created && Owned(n) ==> Owned(s) && (Stopped(s.state) ==> Stopped(n.state)))
  }

  lemma OthersKeepAsked(s: System, n: System)
    requires Inv(s) && Asked(s) && n.waiters == s.waiters && StaysStopped(s, n)
    ensures Asked(n)
  {
    forall c | c in n.waiters
      ensures AskedFor(n, n.waiters[c])
    {
      assert AskedFor(s, s.waiters[c]) && Waits(s, s.waiters[c]);
    }
  }

  lemma PreparingStaysStopped(s: System, at: Preparation, ok: bool, n: System)
    requires Inv(s) && s.stage == Preparing(at) && n == Prepare(s, at, ok)
    ensures StaysStopped(s, n)
  {
  }

  lemma StartingStaysStopped(s: System, at: Startup, ok: bool, throws: bool, n: System)
    requires Inv(s) && s.stage == Starting(at) && n == Start(s, at, ok, throws)
    ensures StaysStopped(s, n)
  {
  }

  lemma StoppingStaysStopped(s: System, n: System)
    requires s.stage.Stopping? && n == Stop(s, s.stage.teardown, s.stage.status)
    ensures StaysStopped(s, n)
  {
  }

  lemma WorkerStaysStopped(s: System, k: nat, throws: bool, n: System)
    requires Inv(s) && k in s.workers && n == WorkerStep(s, k, throws)
    ensures StaysStopped(s, n)
  {
  }

  lemma InitializeStaysStopped(s: System, ok: bool, throws: bool, n: System)
    requires Inv(s) && n == Initialize(s, ok, throws)
    ensures StaysStopped(s, n)
  {
    match s.stage
    case Outside(_) =>
    case Preparing(at) => PreparingStaysStopped(s, at, ok, n);
    case Starting(at) => StartingStaysStopped(s, at, ok, throws, n);
    case Stopping(_, _) => StoppingStaysStopped(s, n);
  }

  /** The caller's own step: Terminate comes before the wait. */
  lemma WaiterAsks(s: System, w: Waiter, n: System, v: Waiter)
    requires s.state != Destroyed && AskedFor(s, w) && (n, v) == WaiterStep(s, w)
    ensures AskedFor(n, v)
    ensures n.created == s.created && n.sent == s.sent && (Stopped(s.state) ==> Stopped(n.state))
  {
  }

  lemma CallerAsks(s: System, caller: nat, n: System)
    requires Inv(s) && Asked(s) && n == ShutdownStep(s, caller)
    ensures caller in n.waiters && AskedFor(n, n.waiters[caller]) && StaysStopped(s, n)
  {
    if caller in s.waiters {
      var (stepped, v) := WaiterStep(s, s.waiters[caller]);
      assert AskedFor(s, s.waiters[caller]);
      WaiterAsks(s, s.waiters[caller], stepped, v);
      assert n == stepped.(waiters := n.waiters) && n.waiters[caller] == v;
    }
  }

  lemma OtherWaitersStay(s: System, caller: nat, n: System)
    requires n == ShutdownStep(s, caller)
    ensures forall c :: c != caller ==> (c in n.waiters <==> c in s.waiters)
    ensures forall c :: c != caller && c in s.waiters ==> n.waiters[c] == s.waiters[c]
    ensures n.created == s.created && n.sent == s.sent
  {
    if caller in s.waiters {
      WaiterFrame(s, s.waiters[caller]);
    }
  }

  lemma ShutdownKeepsAsked(s: System, caller: nat, n: System)
    requires Inv(s) && Asked(s) && n == ShutdownStep(s, caller)
    ensures Asked(n)
  {
    CallerAsks(s, caller, n);
    OtherWaitersStay(s, caller, n);
    forall c | c in n.waiters && c != caller
      ensures AskedFor(n, n.waiters[c])
    {
      assert AskedFor(s, s.waiters[c]);
    }
  }

  lemma StepKeepsAsked(s: System, action: Action, n: System)
    requires Inv(s) && Asked(s) && n == Step(s, action)
    ensures Asked(n)
  {
    match action
    case Initializer(ok, throws) =>
      InitializeFrame(s, ok, throws, n);
      InitializeStaysStopped(s, ok, throws, n);
      OthersKeepAsked(s, n);
    case Work(k, throws) =>
      if k in s.workers {
        WorkerStaysStopped(s, k, throws, n);
      }
      OthersKeepAsked(s, n);
    case Dispatch => OthersKeepAsked(s, n);
    case OtherThreadSends => OthersKeepAsked(s, n);
    case Shutdown(caller) => ShutdownKeepsAsked(s, caller, n);
    case Lifecycle(_) => OthersKeepAsked(s, n);
  }

  lemma {:induction false} ReachableAsked(actions: seq<Action>, s: System)
    requires s == Run(actions)
    ensures Asked(s)
  {
    if actions != [] {
      var before := Run(actions[..|actions| - 1]);
      ReachableInv(actions[..|actions| - 1], before);
      ReachableAsked(actions[..|actions| - 1], before);
      StepKeepsAsked(before, actions[|actions| - 1], s);
    }
  }

  /** Over every run: a caller that waits for the exit of the current task finds it asked to stop. */
  lemma WaitingCallerHasAsked(actions: seq<Action>, s: System, caller: nat)
    requires s == Run(actions) && caller in s.waiters && Owned(s)
    requires s.waiters[caller].LiveWait? || s.waiters[caller].LivePending?
    requires s.waiters[caller].target == s.created
    ensures Stopped(s.state)
  {
    ReachableAsked(actions, s);
    assert AskedFor(s, s.waiters[caller]);
  }

  /** A caller that found the current task's Thread Uninitialized takes it all the way to Terminated. */
  lemma UninitializedIsTerminated(actions: seq<Action>, s: System, caller: nat, n: System)
    requires s == Run(actions) && caller in s.waiters && s.waiters[caller].LiveTerminated?
    requires s.waiters[caller].target == s.created && Owned(s) && n == ShutdownStep(s, caller)
    ensures n.state == Terminated && caller in n.waiters && n.waiters[caller] == LiveWait(s.created)
  {
    ReachableInv(actions, s);
    ReachableAsked(actions, s);
    assert AskedFor(s, s.waiters[caller]);
  }

  // ---------------------------------------------------------------- a signal releases one caller

  function Counted(happens: bool): nat {
    if happens then 1 else 0
  }

  /** The exit signals the dispatcher has given so far. */
  function Given(s: System): nat {
    |s.done| + Counted(s.dispatcher.Clearing?)
  }

  /** The caller comes out of its wait for the exit signal. */
  predicate Releases(s: System, action: Action) {
    action.Shutdown? && action.caller in s.waiters && s.waiters[action.caller].LiveWait? && s.exit.Some?
  }

  function Released(actions: seq<Action>): nat {
    if actions == [] then 0 else
      Released(actions[..|actions| - 1]) +
      Counted(Releases(Run(actions[..|actions| - 1]), actions[|actions| - 1]))
  }

  predicate GivesNothing(s: System, n: System) {
    n.dispatcher == s.dispatcher && n.done == s.done && (n.exit.Some? ==> s.exit.Some?)
  }

  lemma PreparingGivesNothing(s: System, at: Preparation, ok: bool, n: System)
    requires n == Prepare(s, at, ok)
    ensures GivesNothing(s, n)
  {
  }

  lemma StartingGivesNothing(s: System, at: Startup, ok: bool, throws: bool, n: System)
    requires n == Start(s, at, ok, throws)
    ensures GivesNothing(s, n)
  {
  }

  lemma StoppingGivesNothing(s: System, at: Teardown, status: Status, n: System)
    requires n == Stop(s, at, status)
    ensures GivesNothing(s, n)
  {
  }

  lemma InitializerGivesNothing(s: System, ok: bool, throws: bool, n: System)
    requires n == Initialize(s, ok, throws)
    ensures GivesNothing(s, n)
  {
    match s.stage
    case Outside(_) =>
    case Preparing(at) => PreparingGivesNothing(s, at, ok, n);
    case Starting(at) => StartingGivesNothing(s, at, ok, throws, n);
    case Stopping(at, status) => StoppingGivesNothing(s, at, status, n);
  }

  lemma WorkerGivesNothing(s: System, k: nat, throws: bool, n: System)
    requires k in s.workers && n == WorkerStep(s, k, throws)
    ensures GivesNothing(s, n)
  {
  }

  lemma DispatcherGives(s: System, n: System)
    requires n == DispatcherStep(s)
    ensures Counted(n.exit.Some?) + Given(s) <= Given(n) + Counted(s.exit.Some?)
  {
  }

  /** A wait for the exit signal ends by taking it; nothing else a caller does touches it. */
  lemma WaiterTakesSignal(s: System, w: Waiter, n: System, v: Waiter)
    requires (n, v) == WaiterStep(s, w)
    ensures n.dispatcher == s.dispatcher && n.done == s.done
    ensures n.exit == if w.LiveWait? then None else s.exit
    ensures v.LivePending? && !w.LivePending? <==> w.LiveWait? && s.exit.Some?
  {
  }

  lemma CallerTakesSignal(s: System, caller: nat, n: System)
    requires n == ShutdownStep(s, caller)
    ensures n.dispatcher == s.dispatcher && n.done == s.done
    ensures Counted(n.exit.Some?) + Counted(Releases(s, Shutdown(caller))) == Counted(s.exit.Some?)
  {
    if caller in s.waiters {
      var w := s.waiters[caller];
      var (next, v) := WaiterStep(s, w);
      WaiterTakesSignal(s, w, next, v);
    }
  }

  lemma StepBalancesSignals(s: System, action: Action, n: System)
    requires n == Step(s, action)
    ensures Counted(n.exit.Some?) + Counted(Releases(s, action)) + Given(s) <= Given(n) + Counted(s.exit.Some?)
  {
    match action
    case Initializer(ok, throws) => InitializerGivesNothing(s, ok, throws, n);
    case Work(k, throws) =>
      if k in s.workers {
        WorkerGivesNothing(s, k, throws, n);
      }
    case Dispatch => DispatcherGives(s, n);
    case OtherThreadSends =>
    case Shutdown(caller) => CallerTakesSignal(s, caller, n);
    case Lifecycle(_) =>
  }

  /** Over every run: no more waits have ended than signals were given, one still standing apart. */
  lemma {:induction false} SignalReleasesOne(actions: seq<Action>, s: System)
    requires s == Run(actions)
    ensures Released(actions) + Counted(s.exit.Some?) <= Given(s)
  {
    if actions != [] {
      var before := Run(actions[..|actions| - 1]);
      SignalReleasesOne(actions[..|actions| - 1], before);
      StepBalancesSignals(before, actions[|actions| - 1], s);
    }
  }

  // ---------------------------------------------------------------- it leaves the Thread Terminated

  /** What a caller that began with Initialize not at work goes through, as long as no call of Initialize begins. */
  ghost predicate Ends(s: System, w: Waiter) {
    match w
    case IdleRead(_, _) => !Owned(s)
    case IdleTerminate(_, _) => !Owned(s)
    case IdleTerminated(_, _) => !Owned(s) && (s.state == Terminating || s.state == Terminated)
    case IdlePending(_, _) => !Owned(s) && s.state == Terminated
    case _ => !Owned(s) ==> s.state == Terminated
  }

  /** What the steps of others can do to a Thread while Initialize is not at work. */
  ghost predicate MovesOn(s: System, n: System) {
    && (!Owned(s) ==> !Owned(n))
    && (Owned(s) && !Owned(n) ==> n.state == Terminated)
    && (s.state == Terminated ==> n.state == Terminated)
    && (!Owned(s) && s.state == Terminating ==> n.state == Terminating || n.state == Terminated)
  }

  lemma WorkerMovesOn(s: System, k: nat, throws: bool, n: System)
    requires Inv(s) && s.stage.Outside? && k in s.workers && n == WorkerStep(s, k, throws)
    ensures MovesOn(s, n)
  {
  }

  lemma StateMovesOn(s: System, n: System, to: ThreadState)
    requires n.created == s.created && n.sent == s.sent
    requires to == Running || to == Paused || to == Terminating || to == Terminated
    requires n.state == s.state || n.state == Move(s.state, to)
    ensures MovesOn(s, n)
  {
  }

  /** Any step but the caller's own. */
  lemma OthersMoveOn(s: System, action: Action, n: System, caller: nat)
    requires Inv(s) && s.stage.Outside? && !action.Initializer? && action != Shutdown(caller) && n == Step(s, action)
    requires caller in s.waiters
    ensures MovesOn(s, n) && caller in n.waiters && n.waiters[caller] == s.waiters[caller]
  {
    match action
    case Work(k, throws) => if k in s.workers { WorkerMovesOn(s, k, throws, n); }
    case Dispatch => StateMovesOn(s, n, Terminating);
    case OtherThreadSends => StateMovesOn(s, n, Terminating);
    case Shutdown(other) =>
      OtherWaitersStay(s, other, n);
      var to := Terminating;
      if other in s.waiters {
        to := WaiterMoves(s, s.waiters[other]);
      }
      StateMovesOn(s, n, to);
    case Lifecycle(to) =>
      if to == Running || to == Paused || to == Terminating || to == Terminated {
        StateMovesOn(s, n, to);
      }
  }

  lemma WaiterKeepsEnds(s: System, w: Waiter, n: System, v: Waiter)
    requires Resting(s) && Ends(s, w) && (n, v) == WaiterStep(s, w)
    ensures Ends(n, v) && n.created == s.created && n.sent == s.sent
  {
  }

  lemma CallerKeepsEnds(s: System, caller: nat, n: System)
    requires Resting(s) && caller in s.waiters && Ends(s, s.waiters[caller]) && n == ShutdownStep(s, caller)
    ensures caller in n.waiters && Ends(n, n.waiters[caller])
  {
    var (stepped, v) := WaiterStep(s, s.waiters[caller]);
    WaiterKeepsEnds(s, s.waiters[caller], stepped, v);
    assert n == stepped.(waiters := n.waiters) && n.waiters[caller] == v;
  }

  lemma StepKeepsEnds(s: System, action: Action, n: System, caller: nat)
    requires Inv(s) && Resting(s) && s.stage.Outside? && !action.Initializer? && n == Step(s, action)
    requires caller in s.waiters && Ends(s, s.waiters[caller])
    ensures n.stage.Outside? && caller in n.waiters && Ends(n, n.waiters[caller])
  {
    OtherStepsKeepStage(s, action, n);
    if action == Shutdown(caller) {
      CallerKeepsEnds(s, caller, n);
    } else {
      OthersMoveOn(s, action, n, caller);
    }
  }

  lemma {:induction false} RunKeepsEnds(s: System, later: seq<Action>, after: System, caller: nat)
    requires Inv(s) && Resting(s) && s.stage.Outside? && Leads(s, later, after)
    requires caller in s.waiters && Ends(s, s.waiters[caller])
    ensures Inv(after) && Resting(after) && after.stage.Outside?
    ensures caller in after.waiters && Ends(after, after.waiters[caller])
  {
    if later != [] {
      var before, action := RunFrom(s, later[..|later| - 1]), later[|later| - 1];
      RunKeepsEnds(s, later[..|later| - 1], before, caller);
      StepKeepsEnds(before, action, after, caller);
      StepKeepsInv(before, action, after);
      StepKeepsResting(before, action, after);
    }
  }

  lemma LoadedEnds(s: System, caller: nat, n: System)
    requires Inv(s) && s.stage.Outside? && caller !in s.waiters && n == Step(s, Shutdown(caller))
    ensures n.stage.Outside? && caller in n.waiters && Ends(n, n.waiters[caller])
  {
  }

  /**
   * Over every run: with no call of Initialize in progress at the load and none begun since, a Shutdown that has
   * returned finds the Thread Terminated, whether it found a handle or not.
   */
  lemma ShutdownEndsTerminated(earlier: seq<Action>, s: System, caller: nat, later: seq<Action>, after: System)
    requires s == Run(earlier) && caller !in s.waiters && s.stage.Outside?
    requires Leads(Step(s, Shutdown(caller)), later, after)
    requires caller in after.waiters && after.waiters[caller].Back?
    ensures after.state == Terminated && NoTask(after.workers) && |after.done| == after.created
  {
    var loaded := Step(s, Shutdown(caller));
    ReachableInv(earlier, s);
    ReachableResting(earlier, s);
    StepKeepsInv(s, Shutdown(caller), loaded);
    StepKeepsResting(s, Shutdown(caller), loaded);
    LoadedEnds(s, caller, loaded);
    RunKeepsEnds(loaded, later, after, caller);
    ShutdownDelivers(earlier, s, caller, later, after);
  }

  // ---------------------------------------------------------------- it needs no other help to come back

  /** The caller's own steps, and those of the worker and the dispatcher. */
  predicate OwnStep(action: Action, caller: nat) {
    action == Shutdown(caller) || Quiet(action)
  }

  ghost predicate OwnSteps(later: seq<Action>, caller: nat) {
    forall i :: 0 <= i < |later| ==> OwnStep(later[i], caller)
  }

  lemma OwnStepsJoin(a: seq<Action>, b: seq<Action>, caller: nat)
    requires OwnSteps(a, caller) && OwnSteps(b, caller)
    ensures OwnSteps(a + b, caller)
  {
  }

  /** Terminate: from wherever a live task stands it is asked to stop. */
  lemma AsksToStop(s: System, caller: nat, n: System)
    requires Inv(s) && caller in s.waiters && s.waiters[caller].LiveTerminate? && n == ShutdownStep(s, caller)
    ensures Stopped(n.state) && n == s.(state := n.state, waiters := n.waiters)
    ensures caller in n.waiters && LiveStepsLeft(n.waiters[caller]) > 0
  {
  }

  /** With the task asked to stop, worker and dispatcher bring it to its end, and the caller takes the signal. */
  lemma AskedTaskEnds(s: System, caller: nat) returns (later: seq<Action>, after: System)
    requires Inv(s) && Resting(s) && !OwnedByInitializer(s.stage) && Stopped(s.state) && Coming(s)
    requires caller in s.waiters && LiveStepsLeft(s.waiters[caller]) > 0
    ensures Leads(s, later, after) && OwnSteps(later, caller) && Inv(after)
    ensures Settled(after) && after.created == s.created && after.stage == s.stage
    ensures caller in after.waiters && after.waiters[caller].LivePending?
  {
    var ending, settled := Settle(s);
    var signalled: seq<Action>;
    signalled, after := TakesSignal(settled, caller);
    LeadsOn(s, ending, settled, signalled, after);
    OwnStepsJoin(ending, signalled, caller);
    later := ending + signalled;
  }

  /** From a published handle, with Initialize not at work, the caller's own steps suffice. */
  lemma LiveShutdownCompletes(s: System, caller: nat, loaded: System) returns (later: seq<Action>, after: System)
    requires Inv(s) && Resting(s) && s.stage.Outside? && s.handle.Some? && caller !in s.waiters
    requires loaded == Step(s, Shutdown(caller))
    ensures OwnSteps(later, caller)
    ensures caller in after.waiters && after.waiters[caller].Back?
    ensures Leads(loaded, later, after) && |after.done| == after.created == s.created
  {
    var stop := Shutdown(caller);
    LoadFindsHandleOrNot(s, caller, loaded);
    StepKeepsInv(s, stop, loaded);
    StepKeepsResting(s, stop, loaded);
    var asked := ShutdownStep(loaded, caller);
    AsksToStop(loaded, caller, asked);
    StepKeepsInv(loaded, stop, asked);
    StepKeepsResting(loaded, stop, asked);
    LeadsOneStep(loaded, stop, asked);
    var ending, released := AskedTaskEnds(asked, caller);
    LeadsOn(loaded, [stop], asked, ending, released);
    var back: seq<Action>;
    back, after := ComesBack(released, caller);
    LeadsOn(loaded, [stop] + ending, released, back, after);
    OwnStepsJoin([stop], ending, caller);
    OwnStepsJoin([stop] + ending, back, caller);
    later := [stop] + ending + back;
  }

  /** From an invalid handle they do as well: what is still being dispatched is dispatched first. */
  lemma IdleShutdownCompletes(s: System, caller: nat, loaded: System) returns (later: seq<Action>, after: System)
    requires Inv(s) && Resting(s) && s.stage.Outside? && s.handle.None? && caller !in s.waiters
    requires loaded == Step(s, Shutdown(caller))
    ensures OwnSteps(later, caller)
    ensures caller in after.waiters && after.waiters[caller].Back?
    ensures Leads(loaded, later, after) && |after.done| == after.created == s.created
  {
    LoadFindsHandleOrNot(s, caller, loaded);
    StepKeepsInv(s, Shutdown(caller), loaded);
    StepKeepsResting(s, Shutdown(caller), loaded);
    var ending, settled := [], loaded;
    if !Settled(loaded) {
      ending, settled := Settle(loaded);
    }
    var back: seq<Action>;
    back, after := ComesBack(settled, caller);
    LeadsOn(loaded, ending, settled, back, after);
    OwnStepsJoin(ending, back, caller);
    later := ending + back;
  }

  /**
   * From every reachable state with no call of Initialize in progress, steps of the caller, the worker and the
   * dispatcher alone, with no other task's help, bring Shutdown back to a Terminated Thread with no task and no
   * dispatch left.
   */
  lemma ShutdownCompletes(earlier: seq<Action>, s: System, caller: nat) returns (later: seq<Action>, after: System)
    requires s == Run(earlier) && caller !in s.waiters && s.stage.Outside?
    ensures after == RunFrom(Step(s, Shutdown(caller)), later) && OwnSteps(later, caller)
    ensures caller in after.waiters && after.waiters[caller].Back?
    ensures after.state == Terminated && NoTask(after.workers) && |after.done| == after.created == s.created
  {
    ReachableInv(earlier, s);
    ReachableResting(earlier, s);
    if s.handle.Some? {
      later, after := LiveShutdownCompletes(s, caller, Step(s, Shutdown(caller)));
    } else {
      later, after := IdleShutdownCompletes(s, caller, Step(s, Shutdown(caller)));
    }
    ShutdownEndsTerminated(earlier, s, caller, later, after);
  }
}
