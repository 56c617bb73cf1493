/**
 * SetThreadState and TrySetThreadState with callbacks that call back. The transition mutex is recursive and held
 * across the callbacks, so while one task is inside, only its own nested calls can store a state.
 */
module ReentrantLifecycle {
  import opened ThreadStates

  /** The two ways a state is stored; every lifecycle call is a sequence of these. */
  datatype Operation = Set(to: ThreadState) | TrySet(from: ThreadState, to: ThreadState)

  /** What one callback does: lifecycle calls in order, then a normal return or an exception. */
  datatype Script =
    | Return
    | Throw
    | Invoke(operation: Operation, reaction: Reaction, catches: bool, rest: Script)

  /** What the callbacks of one transition do. */
  datatype Reaction = Reaction(change: Script, event: Script, observers: Observers)

  datatype Observers = NoObserver | Notify(any: Script, specific: Script, others: Observers)

  /** One turn at the mutex; onInitializer: initialization is in progress on the calling task. */
  datatype Turn = Turn(operation: Operation, reaction: Reaction, onInitializer: bool)

  /** States with a callback of their own, besides the observers'. */
  predicate HasEvent(s: ThreadState) {
    s == Terminated || s == Paused || s == Running || s == Initialized
  }

  /** What Start returns, or that it returns what Initialize does. */
  datatype StartAnswer = GoesOnToInitialize | AlreadyInitialized | InvalidState

  /** A state-specific callback started: the state it announces and how many states had been stored by then. */
  datatype Started = Started(announced: ThreadState, at: nat)

  // ---------------------------------------------------------------- what a tree of calls leaves behind

  /** The state, every state stored so far with the newest last, and every specific callback started so far. */
  datatype Log = Log(current: ThreadState, history: seq<ThreadState>, started: seq<Started>)

  datatype Outcome = Outcome(log: Log, threw: bool)

  /** Each specific callback started when the state it announces was the one stored last. */
  ghost predicate StartedWhileCurrent(history: seq<ThreadState>, started: seq<Started>) {
    forall i :: 0 <= i < |started| ==>
      1 <= started[i].at <= |history| && history[started[i].at - 1] == started[i].announced
  }

  /** The stored states are a walk, and no specific callback started for a state already left. */
  ghost predicate Sound(log: Log) {
    && Walk(log.history) && log.history[|log.history| - 1] == log.current
    && StartedWhileCurrent(log.history, log.started)
  }

  /** Nothing recorded is ever taken back. */
  predicate Extends(before: Log, after: Log) {
    before.history <= after.history && before.started <= after.started
  }

  function Enter(log: Log, to: ThreadState): (after: Log)
    ensures Sound(log) && ValidTransition(log.current, to) ==> Sound(after)
    ensures Extends(log, after)
  {
    log.(current := to, history := log.history + [to])
  }

  /** A specific callback starts if there is one and the state it announces is still current. */
  function Announce(log: Log, state: ThreadState, script: Script, onInitializer: bool): (o: Outcome)
    ensures Sound(log) ==> Sound(o.log)
    ensures Extends(log, o.log)
    decreases script, 1
  {
    if log.current == state
    then AfterScript(log.(started := log.started + [Started(state, |log.history|)]), script, onInitializer)
    else Outcome(log, false)
  }

  function AfterOperation(log: Log, operation: Operation, reaction: Reaction, onInitializer: bool): (o: Outcome)
    ensures Sound(log) ==> Sound(o.log)
    ensures Extends(log, o.log)
    ensures o.threw ==> onInitializer && o.log != log
    decreases reaction, 1
  {
    if operation.TrySet? && log.current != operation.from then Outcome(log, false)
    else if !ValidTransition(log.current, operation.to) then Outcome(log, false)
    else AfterDispatch(Enter(log, operation.to), operation.to, reaction, onInitializer)
  }

  function AfterDispatch(log: Log, newState: ThreadState, reaction: Reaction, onInitializer: bool): (o: Outcome)
    ensures Sound(log) ==> Sound(o.log)
    ensures Extends(log, o.log)
    ensures o.threw ==> onInitializer
    decreases reaction, 0
  {
    var change := AfterScript(log, reaction.change, onInitializer);
    var event := if HasEvent(newState) then Announce(change.log, newState, reaction.event, onInitializer)
                 else Outcome(change.log, false);
    Outcome(AfterObservers(event.log, newState, reaction.observers, onInitializer),
            onInitializer && (change.threw || event.threw))
  }

  function AfterObservers(log: Log, newState: ThreadState, observers: Observers, onInitializer: bool): (after: Log)
    ensures Sound(log) ==> Sound(after)
    ensures Extends(log, after)
    decreases observers
  {
    match observers
    case NoObserver => log
    case Notify(any, specific, others) =>
      var told := AfterScript(log, any, onInitializer).log;
      AfterObservers(Announce(told, newState, specific, onInitializer).log, newState, others, onInitializer)
  }

  function AfterScript(log: Log, script: Script, onInitializer: bool): (o: Outcome)
    ensures Sound(log) ==> Sound(o.log)
    ensures Extends(log, o.log)
    decreases script, 0
  {
    match script
    case Return => Outcome(log, false)
    case Throw => Outcome(log, true)
    case Invoke(operation, reaction, catches, rest) =>
      var nested := AfterOperation(log, operation, reaction, onInitializer);
      if nested.threw && !catches then nested else AfterScript(nested.log, rest, onInitializer)
  }

  /** Tasks taking the transition mutex in any order, each with its own tree of nested calls. */
  function AfterTurns(log: Log, turns: seq<Turn>): (after: Log)
    ensures Sound(log) ==> Sound(after)
    ensures Extends(log, after)
  {
    if turns == [] then log
    else
      var t := turns[|turns| - 1];
      AfterOperation(AfterTurns(log, turns[..|turns| - 1]), t.operation, t.reaction, t.onInitializer).log
  }

  // ---------------------------------------------------------------- what every such tree keeps

  /** Whatever callbacks call, from however many tasks, each phase is entered once per lifetime. */
  lemma ReentrantWalk(log: Log, turns: seq<Turn>, after: Log)
    requires Sound(log) && after == AfterTurns(log, turns)
    ensures Walk(after.history) && OncePerLifetime(after.history) && log.history <= after.history
    ensures StartedWhileCurrent(after.history, after.started)
  {
    WalksAreOncePerLifetime(after.history);
  }

  /** A destroyed Thread stores nothing and starts no callback, whoever calls what. */
  lemma {:induction false} DestroyedIsFinal(log: Log, turns: seq<Turn>)
    requires log.current == Destroyed
    ensures AfterTurns(log, turns) == log
  {
    if turns != [] {
      DestroyedIsFinal(log, turns[..|turns| - 1]);
    }
  }

  /** A state-change callback that moves on to another state silences the event callback it overtook. */
  lemma OvertakenStateIsNotAnnounced(log: Log, newState: ThreadState, reaction: Reaction, onInitializer: bool,
                                     change: Outcome)
    requires change == AfterScript(log, reaction.change, onInitializer) && change.log.current != newState
    ensures AfterDispatch(log, newState, reaction, onInitializer)
         == Outcome(AfterObservers(change.log, newState, reaction.observers, onInitializer),
                    onInitializer && change.threw)
  {
  }

  // ---------------------------------------------------------------- what a call achieves

  /** The states with a callback of their own. */
  const ANNOUNCED: set<ThreadState> := {Initialized, Running, Paused, Terminated}

  /** A call stores its state first of all exactly when the transition is accepted, and otherwise does nothing. */
  lemma AcceptedIsStored(log: Log, operation: Operation, reaction: Reaction, onInitializer: bool, o: Outcome)
    requires o == AfterOperation(log, operation, reaction, onInitializer)
    ensures var accepted := (log.current, operation.to) in ACCEPTED
                            || (operation.to == Destroyed && log.current != Destroyed);
            if accepted && (operation.TrySet? ==> log.current == operation.from)
            then log.history + [operation.to] <= o.log.history
            else o == Outcome(log, false)
  {
    TransitionTable(log.current, operation.to);
  }

  /** The callback of a state starts right after the state-change callback, if that leaves the state current. */
  lemma CurrentStateIsAnnounced(log: Log, newState: ThreadState, reaction: Reaction, onInitializer: bool,
                                change: Outcome, o: Outcome)
    requires change == AfterScript(log, reaction.change, onInitializer)
    requires o == AfterDispatch(log, newState, reaction, onInitializer)
    ensures newState in ANNOUNCED && change.log.current == newState ==>
              change.log.started + [Started(newState, |change.log.history|)] <= o.log.started
    ensures newState !in ANNOUNCED && reaction.observers == NoObserver ==> o.log == change.log
  {
  }

  /** Each observer is told of a state that is still current once it has been told of the change. */
  lemma ObserverIsTold(log: Log, newState: ThreadState, observers: Observers, onInitializer: bool, told: Log)
    requires observers.Notify? && told == AfterScript(log, observers.any, onInitializer).log
    ensures var after := AfterObservers(log, newState, observers, onInitializer);
            if told.current == newState
            then told.started + [Started(newState, |told.history|)] <= after.started
            else after == AfterObservers(told, newState, observers.others, onInitializer)
  {
  }

  /** A call throws exactly when it is the initializing task's and one of its own two callbacks threw. */
  lemma FailureSurfaces(log: Log, newState: ThreadState, reaction: Reaction, onInitializer: bool, change: Outcome)
    requires change == AfterScript(log, reaction.change, onInitializer)
    ensures AfterDispatch(log, newState, reaction, onInitializer).threw <==>
            onInitializer &&
            (change.threw || (newState in ANNOUNCED && change.log.current == newState &&
                              Announce(change.log, newState, reaction.event, onInitializer).threw))
  {
  }

  /** An exception a callback does not catch ends it; whatever it does after one that it catches still happens. */
  lemma UncaughtEndsCallback(log: Log, script: Script, onInitializer: bool, nested: Outcome)
    requires script.Invoke? && nested == AfterOperation(log, script.operation, script.reaction, onInitializer)
    ensures AfterScript(log, script, onInitializer) ==
            if nested.threw && !script.catches then Outcome(nested.log, true)
            else AfterScript(nested.log, script.rest, onInitializer)
  {
  }

  const QUIET: Reaction := Reaction(Return, Return, NoObserver)

  /** With callbacks that do nothing a call leaves its state, and its callback as the only one started. */
  lemma QuietCall(log: Log, to: ThreadState, onInitializer: bool)
    requires (log.current, to) in ACCEPTED
    ensures AfterOperation(log, Set(to), QUIET, onInitializer) ==
            Outcome(Log(to, log.history + [to],
                        log.started + if to in ANNOUNCED then [Started(to, |log.history| + 1)] else []), false)
  {
    TransitionTable(log.current, to);
    assert log.started + [] == log.started;
  }

  /** An exception in either callback of its own makes an initializing task's call throw, and no other's. */
  lemma ThrowingCallback(log: Log, to: ThreadState, onInitializer: bool)
    requires (log.current, to) in ACCEPTED
    ensures AfterOperation(log, Set(to), QUIET.(change := Throw), onInitializer).threw == onInitializer
    ensures to in ANNOUNCED ==>
              AfterOperation(log, Set(to), QUIET.(event := Throw), onInitializer).threw == onInitializer
    ensures !AfterOperation(log, Set(to), QUIET.(observers := Notify(Throw, Throw, NoObserver)), onInitializer).threw
  {
    TransitionTable(log.current, to);
  }

  function AfterTerminate(log: Log, first: Reaction, second: Reaction, onInitializer: bool): (o: Outcome)
    ensures Sound(log) ==> Sound(o.log)
  {
    match log.current
    case Uninitialized =>
      var requested := AfterOperation(log, Set(Terminating), first, onInitializer);
      if requested.threw then requested
      else AfterOperation(requested.log, Set(Terminated), second, onInitializer)
    case Initialized => AfterOperation(log, Set(Terminating), first, onInitializer)
    case Running => AfterOperation(log, Set(Terminating), first, onInitializer)
    case Paused => AfterOperation(log, Set(Terminating), first, onInitializer)
    case _ => Outcome(log, false)
  }

  /** Terminate stores Terminating wherever there is something to stop, and on the way from the start Terminated. */
  lemma TerminateStores(log: Log, first: Reaction, second: Reaction, onInitializer: bool, o: Outcome)
    requires o == AfterTerminate(log, first, second, onInitializer)
    ensures log.current in {Uninitialized, Initialized, Running, Paused} ==>
              log.history + [Terminating] <= o.log.history
    ensures log.current in {Terminating, Terminated, Destroyed} ==> o == Outcome(log, false)
    ensures log.current == Uninitialized && first == QUIET && second == QUIET ==>
              o.log.current == Terminated && o.log.history == log.history + [Terminating, Terminated]
  {
    AcceptedIsStored(log, Set(Terminating), first, onInitializer,
                     AfterOperation(log, Set(Terminating), first, onInitializer));
    if log.current == Uninitialized {
      var requested := AfterOperation(log, Set(Terminating), first, onInitializer);
      AcceptedIsStored(requested.log, Set(Terminated), second, onInitializer,
                       AfterOperation(requested.log, Set(Terminated), second, onInitializer));
      if first == QUIET && second == QUIET {
        QuietCall(log, Terminating, onInitializer);
        QuietCall(requested.log, Terminated, onInitializer);
        assert log.history + [Terminating] + [Terminated] == log.history + [Terminating, Terminated];
      }
    }
  }

  // ---------------------------------------------------------------- the object

  class Lifecycle {
    var threadState: ThreadState
    ghost var history: seq<ThreadState>
    ghost var started: seq<Started>

    ghost function View(): Log
      reads this
    {
      Log(threadState, history, started)
    }

    constructor ()
      ensures Sound(View()) && View() == Log(Uninitialized, [Uninitialized], [])
    {
      threadState := Uninitialized;
      history, started := [Uninitialized], [];
    }

    method SetThreadState(to: ThreadState, reaction: Reaction, onInitializer: bool) returns (threw: bool)
      modifies this
      ensures Outcome(View(), threw) == AfterOperation(old(View()), Set(to), reaction, onInitializer)
      decreases reaction, 1
    {
      if !ValidTransition(threadState, to) {
        return false;
      }
      threadState, history := to, history + [to];
      threw := Dispatch(to, reaction, onInitializer);
    }

    method TrySetThreadState(from: ThreadState, to: ThreadState, reaction: Reaction, onInitializer: bool)
      returns (changed: bool, threw: bool)
      modifies this
      ensures Outcome(View(), threw) == AfterOperation(old(View()), TrySet(from, to), reaction, onInitializer)
      ensures changed <==> View() != old(View()) && !threw
      decreases reaction, 1
    {
      if threadState != from || !ValidTransition(threadState, to) {
        return false, false;
      }
      threadState, history := to, history + [to];
      threw := Dispatch(to, reaction, onInitializer);
      changed := !threw;
    }

    /** The callbacks of one transition; an exception surfaces only on the initializing task. */
    method Dispatch(newState: ThreadState, reaction: Reaction, onInitializer: bool) returns (threw: bool)
      modifies this
      ensures Outcome(View(), threw) == AfterDispatch(old(View()), newState, reaction, onInitializer)
      ensures old(history) <= history
      decreases reaction, 0
    {
      var callbackFailed := RunScript(reaction.change, onInitializer);
      if HasEvent(newState) && threadState == newState {
        started := started + [Started(newState, |history|)];
        var failed := RunScript(reaction.event, onInitializer);
        callbackFailed := callbackFailed || failed;
      }
      NotifyObservers(newState, reaction.observers, onInitializer);
      threw := callbackFailed && onInitializer;
    }

    /** Observers are told of the change, then of the state if it is still current; their failures are contained. */
    method NotifyObservers(newState: ThreadState, observers: Observers, onInitializer: bool)
      modifies this
      ensures View() == AfterObservers(old(View()), newState, observers, onInitializer)
      decreases observers
    {
      match observers
      case NoObserver =>
      case Notify(any, specific, others) =>
        var _ := RunScript(any, onInitializer);
        if threadState == newState {
          started := started + [Started(newState, |history|)];
          var _ := RunScript(specific, onInitializer);
        }
        NotifyObservers(newState, others, onInitializer);
    }

    /** One callback; a nested call that throws ends it unless the callback catches. */
    method RunScript(script: Script, onInitializer: bool) returns (threw: bool)
      modifies this
      ensures Outcome(View(), threw) == AfterScript(old(View()), script, onInitializer)
      decreases script
    {
      match script
      case Return => threw := false;
      case Throw => threw := true;
      case Invoke(operation, reaction, catches, rest) =>
        var nested := Call(operation, reaction, onInitializer);
        if nested && !catches {
          return true;
        }
        threw := RunScript(rest, onInitializer);
    }

    method Call(operation: Operation, reaction: Reaction, onInitializer: bool) returns (threw: bool)
      modifies this
      ensures Outcome(View(), threw) == AfterOperation(old(View()), operation, reaction, onInitializer)
      decreases reaction, 2
    {
      match operation
      case Set(to) => threw := SetThreadState(to, reaction, onInitializer);
      case TrySet(from, to) =>
        var changed, failed := TrySetThreadState(from, to, reaction, onInitializer);
        threw := failed;
    }

    /** What Start answers when it is not Initialize that goes on. */
    method Start(reaction: Reaction, onInitializer: bool) returns (answer: StartAnswer, threw: bool)
      modifies this
      ensures old(threadState) in {Initialized, Paused} ==>
                Outcome(View(), threw) == AfterOperation(old(View()), Set(Running), reaction, onInitializer)
      ensures old(threadState) in {Initialized, Paused} ==> old(history) + [Running] <= history
      ensures old(threadState) !in {Initialized, Paused} ==> View() == old(View()) && !threw
      ensures answer == if old(threadState) in {Uninitialized, Terminated} then GoesOnToInitialize
                        else if old(threadState) in {Terminating, Destroyed} then InvalidState
                        else AlreadyInitialized
    {
      AcceptedIsStored(View(), Set(Running), reaction, onInitializer,
                       AfterOperation(View(), Set(Running), reaction, onInitializer));
      threw := false;
      match threadState
      case Uninitialized => answer := GoesOnToInitialize;
      case Terminated => answer := GoesOnToInitialize;
      case Initialized =>
        var _, failed := TrySetThreadState(Initialized, Running, reaction, onInitializer);
        answer, threw := AlreadyInitialized, failed;
      case Paused =>
        var _, failed := TrySetThreadState(Paused, Running, reaction, onInitializer);
        answer, threw := AlreadyInitialized, failed;
      case Running => answer := AlreadyInitialized;
      case Terminating => answer := InvalidState;
      case Destroyed => answer := InvalidState;
    }

    method Pause(reaction: Reaction, onInitializer: bool) returns (threw: bool)
      modifies this
      ensures old(threadState) == Running ==>
                Outcome(View(), threw) == AfterOperation(old(View()), Set(Paused), reaction, onInitializer)
      ensures old(threadState) == Running ==> old(history) + [Paused] <= history
      ensures old(threadState) != Running ==> View() == old(View()) && !threw
    {
      AcceptedIsStored(View(), Set(Paused), reaction, onInitializer,
                       AfterOperation(View(), Set(Paused), reaction, onInitializer));
      var _, failed := TrySetThreadState(Running, Paused, reaction, onInitializer);
      threw := failed;
    }

    method Terminate(first: Reaction, second: Reaction, onInitializer: bool) returns (threw: bool)
      modifies this
      ensures Outcome(View(), threw) == AfterTerminate(old(View()), first, second, onInitializer)
      ensures old(threadState) in {Uninitialized, Initialized, Running, Paused} ==>
                old(history) + [Terminating] <= history
      ensures old(threadState) in {Terminating, Terminated, Destroyed} ==> View() == old(View()) && !threw
    {
      TerminateStores(View(), first, second, onInitializer, AfterTerminate(View(), first, second, onInitializer));
      threw := false;
      match threadState
      case Uninitialized =>
        threw := SetThreadState(Terminating, first, onInitializer);
        if !threw {
          threw := SetThreadState(Terminated, second, onInitializer);
        }
      case Initialized => threw := SetThreadState(Terminating, first, onInitializer);
      case Running => threw := SetThreadState(Terminating, first, onInitializer);
      case Paused => threw := SetThreadState(Terminating, first, onInitializer);
      case _ =>
    }

    method Contend(turns: seq<Turn>)
      requires Sound(View())
      modifies this
      ensures View() == AfterTurns(old(View()), turns)
      ensures Sound(View()) && OncePerLifetime(history)
    {
      for i := 0 to |turns|
        invariant View() == AfterTurns(old(View()), turns[..i])
      {
        assert turns[..i + 1][..i] == turns[..i];
        var _ := Call(turns[i].operation, turns[i].reaction, turns[i].onInitializer);
      }
      assert turns[..|turns|] == turns;
      ReentrantWalk(old(View()), turns, View());
    }
  }
}
