/**
 * Any number of tasks in SetThreadState and TrySetThreadState at once: the recursive transition mutex with its owner
 * and depth, the loads, the stores and the callbacks one step at a time. What a task still has to do is a stack of
 * calls, because callbacks call back. The tests, the stores and the callbacks below do not ask who owns the mutex.
 */
module TransitionLock {
  import opened Foundations
  import opened ThreadStates
  import opened ReentrantLifecycle

  /** What follows a callback of a transition. */
  datatype Next =
    | ThenEvent(event: Script, observers: Observers)      // after the state-change callback
    | ThenSpecific(specific: Script, others: Observers)   // after an observer's
    | ThenTell(counts: bool, observers: Observers)        // after one for the state; counts: not an observer's

  /** Where one call stands; failed says that a callback of its transition has thrown. */
  datatype Frame =
    | Locking(operation: Operation, reaction: Reaction)
    | Loading(operation: Operation, reaction: Reaction)
    | Storing(to: ThreadState, reaction: Reaction)
    | Calling(to: ThreadState, failed: bool, script: Script, next: Next)
    | Checking(to: ThreadState, failed: bool, script: Script, counts: bool, observers: Observers)
    | Starting(to: ThreadState, failed: bool, script: Script, counts: bool, observers: Observers)
    | Telling(to: ThreadState, failed: bool, observers: Observers)
    | Releasing(failed: bool)

  datatype Stack = Empty | Push(frame: Frame, below: Stack)

  datatype Task = Task(turn: Turn, stack: Stack)

  datatype System = System(
    log: Log,                  // _threadState, and ghost histories of stores and callbacks
    owner: Option<nat>,        // of _stateTransitionMutex
    depth: nat,
    tasks: map<nat, Task>,     // the tasks inside a call
    turns: seq<Turn>)          // ghost: outermost calls in the order they took the mutex

  datatype Action = Begin(task: nat, turn: Turn) | Advance(task: nat)

  function Initial(): System {
    System(Log(Uninitialized, [Uninitialized], []), None, 0, map[], [])
  }

  // ---------------------------------------------------------------- steps

  /** Load and test. */
  function Loaded(log: Log, operation: Operation, reaction: Reaction): Frame {
    if operation.TrySet? && log.current != operation.from then Releasing(false)
    else if !ValidTransition(log.current, operation.to) then Releasing(false)
    else Storing(operation.to, reaction)
  }

  /** After a callback that returned or threw. */
  function Called(to: ThreadState, failed: bool, threw: bool, next: Next): Frame {
    match next
    case ThenEvent(event, observers) =>
      if HasEvent(to) then Checking(to, failed || threw, event, true, observers)
      else Telling(to, failed || threw, observers)
    case ThenSpecific(specific, others) => Checking(to, failed, specific, false, others)
    case ThenTell(counts, observers) => Telling(to, failed || (counts && threw), observers)
  }

  /** A nested call has come back to the callback that made it. */
  function Returned(stack: Stack, threw: bool): Stack {
    if stack.Push? && stack.frame.Calling? && stack.frame.script.Invoke? then
      var Calling(to, failed, script, next) := stack.frame;
      Push(Calling(to, failed, if threw && !script.catches then Throw else script.rest, next), stack.below)
    else stack
  }

  /** Neither a call about to be made nor one about to return. */
  predicate Plain(frame: Frame) {
    !frame.Locking? && !frame.Releasing? && !(frame.Calling? && frame.script.Invoke?)
  }

  /** One step of a call that neither makes another nor returns. */
  function Continued(log: Log, frame: Frame): (Log, Frame)
    requires Plain(frame)
  {
    match frame
    case Loading(operation, reaction) => (log, Loaded(log, operation, reaction))
    case Storing(to, reaction) =>
      (Enter(log, to), Calling(to, false, reaction.change, ThenEvent(reaction.event, reaction.observers)))
    case Calling(to, failed, script, next) => (log, Called(to, failed, script.Throw?, next))
    case Checking(to, failed, script, counts, observers) =>
      (log, if log.current == to then Starting(to, failed, script, counts, observers)
            else Telling(to, failed, observers))
    case Starting(to, failed, script, counts, observers) =>
      (log.(started := log.started + [Started(to, |log.history|)]),
       Calling(to, failed, script, ThenTell(counts, observers)))
    case Telling(to, failed, observers) =>
      (log, match observers
            case NoObserver => Releasing(failed)
            case Notify(any, specific, others) => Calling(to, failed, any, ThenSpecific(specific, others)))
  }

  /** What one step of a task inside its call changes: the log and its own stack. */
  function Progress(log: Log, task: Task): (Log, Stack)
    requires task.stack.Push?
  {
    var Push(frame, below) := task.stack;
    if Plain(frame) then
      var (after, next) := Continued(log, frame);
      (after, Push(next, below))
    else
      match frame
      case Locking(operation, reaction) => (log, Push(Loading(operation, reaction), below))
      case Calling(_, _, script, _) => (log, Push(Locking(script.operation, script.reaction), task.stack))
      case Releasing(failed) => (log, Returned(below, task.turn.onInitializer && failed))
  }

  function Moved(s: System, t: nat): System
    requires t in s.tasks && s.tasks[t].stack.Push?
  {
    var (log, stack) := Progress(s.log, s.tasks[t]);
    s.(log := log, tasks := if stack.Empty? then s.tasks - {t} else s.tasks[t := s.tasks[t].(stack := stack)])
  }

  /** One step; a step that is not possible, such as taking a mutex another task owns, changes nothing. */
  function Step(s: System, action: Action): System {
    match action
    case Begin(t, turn) =>
      if t in s.tasks then s
      else s.(tasks := s.tasks[t := Task(turn, Push(Locking(turn.operation, turn.reaction), Empty))])
    case Advance(t) =>
      if t !in s.tasks || s.tasks[t].stack.Empty? then s
      else if s.tasks[t].stack.frame.Locking? then
        if s.owner.None? then Moved(s, t).(owner := Some(t), depth := 1, turns := s.turns + [s.tasks[t].turn])
        else if s.owner == Some(t) then Moved(s, t).(depth := s.depth + 1)
        else s
      else if s.tasks[t].stack.frame.Releasing? then
        if s.depth <= 1 then Moved(s, t).(owner := None, depth := 0) else Moved(s, t).(depth := s.depth - 1)
      else Moved(s, t)
  }

  function Run(actions: seq<Action>): System {
    if actions == [] then Initial() else Step(Run(actions[..|actions| - 1]), actions[|actions| - 1])
  }

  // ---------------------------------------------------------------- what a stack will come to

  /** The same between two callbacks. */
  function SettledOutlook(log: Log, frame: Frame, onInitializer: bool): Outcome {
    match frame
    case Checking(to, failed, script, counts, observers) =>
      var event := Announce(log, to, script, onInitializer);
      Outcome(AfterObservers(event.log, to, observers, onInitializer),
              onInitializer && (failed || (counts && event.threw)))
    case Starting(to, failed, script, counts, observers) =>
      var event := AfterScript(log.(started := log.started + [Started(to, |log.history|)]), script, onInitializer);
      Outcome(AfterObservers(event.log, to, observers, onInitializer),
              onInitializer && (failed || (counts && event.threw)))
    case Telling(to, failed, observers) =>
      Outcome(AfterObservers(log, to, observers, onInitializer), onInitializer && failed)
    case Releasing(failed) => Outcome(log, onInitializer && failed)
    case _ => Outcome(log, false)
  }

  /** The outcome of one call, from where it stands, if nothing else stored a state meanwhile. */
  function Outlook(log: Log, frame: Frame, onInitializer: bool): Outcome {
    match frame
    case Locking(operation, reaction) => AfterOperation(log, operation, reaction, onInitializer)
    case Loading(operation, reaction) => AfterOperation(log, operation, reaction, onInitializer)
    case Storing(to, reaction) => AfterDispatch(Enter(log, to), to, reaction, onInitializer)
    case Calling(to, failed, script, next) =>
      var callback := AfterScript(log, script, onInitializer);
      SettledOutlook(callback.log, Called(to, failed, callback.threw, next), onInitializer)
    case _ => SettledOutlook(log, frame, onInitializer)
  }

  function Height(stack: Stack): nat {
    if stack.Empty? then 0 else 1 + Height(stack.below)
  }

  lemma ReturnedHeight(stack: Stack, threw: bool)
    ensures Height(Returned(stack, threw)) == Height(stack)
  {
  }

  /** The log once a task has finished everything on its stack. */
  function Completed(log: Log, stack: Stack, onInitializer: bool): Log
    decreases Height(stack)
  {
    if stack.Empty? then log
    else
      var o := Outlook(log, stack.frame, onInitializer);
      ReturnedHeight(stack.below, o.threw);
      Completed(o.log, Returned(stack.below, o.threw), onInitializer)
  }

  // A step of the task at work leaves what it will come to unchanged.

  lemma TransitionStays(log: Log, frame: Frame, onInitializer: bool)
    requires frame.Loading? || frame.Storing?
    ensures var (after, next) := Continued(log, frame);
            Outlook(after, next, onInitializer) == Outlook(log, frame, onInitializer)
  {
  }

  lemma CallbackStays(log: Log, frame: Frame, onInitializer: bool)
    requires frame.Calling? && !frame.script.Invoke?
    ensures var (after, next) := Continued(log, frame);
            Outlook(after, next, onInitializer) == Outlook(log, frame, onInitializer)
  {
  }

  lemma AnnouncementStays(log: Log, frame: Frame, onInitializer: bool)
    requires frame.Checking? || frame.Starting? || frame.Telling?
    ensures var (after, next) := Continued(log, frame);
            Outlook(after, next, onInitializer) == Outlook(log, frame, onInitializer)
  {
  }

  lemma OutlookStays(log: Log, frame: Frame, onInitializer: bool, after: Log, next: Frame)
    requires Plain(frame) && (after, next) == Continued(log, frame)
    ensures Outlook(after, next, onInitializer) == Outlook(log, frame, onInitializer)
  {
    if frame.Loading? || frame.Storing? {
      TransitionStays(log, frame, onInitializer);
    } else if frame.Calling? {
      CallbackStays(log, frame, onInitializer);
    } else {
      AnnouncementStays(log, frame, onInitializer);
    }
  }

  lemma CompletedStays(log: Log, task: Task)
    requires task.stack.Push?
    ensures var (after, stack) := Progress(log, task);
            Completed(after, stack, task.turn.onInitializer) == Completed(log, task.stack, task.turn.onInitializer)
  {
    if Plain(task.stack.frame) {
      var (after, next) := Continued(log, task.stack.frame);
      OutlookStays(log, task.stack.frame, task.turn.onInitializer, after, next);
    }
  }

  // ---------------------------------------------------------------- the invariant

  /** Every call on it waits for the one above to return to its callback. */
  predicate Suspended(stack: Stack) {
    stack.Push? ==> stack.frame.Calling? && stack.frame.script.Invoke? && Suspended(stack.below)
  }

  /** How often the calls of a stack have taken the mutex. */
  function Held(stack: Stack): int {
    Height(stack) - if stack.Push? && stack.frame.Locking? then 1 else 0
  }

  /** Only the owner is past taking the mutex, as many levels deep as the mutex says. */
  ghost predicate Exclusive(s: System) {
    && (forall t :: t in s.tasks ==> s.tasks[t].stack.Push? && Suspended(s.tasks[t].stack.below))
    && (forall t :: t in s.tasks && s.owner != Some(t) ==>
          s.tasks[t].stack == Push(Locking(s.tasks[t].turn.operation, s.tasks[t].turn.reaction), Empty))
    && (s.owner.Some? ==> s.owner.value in s.tasks && Held(s.tasks[s.owner.value].stack) == s.depth > 0)
  }

  /** What the owner has loaded is still so. */
  predicate Current(log: Log, frame: Frame) {
    && (frame.Storing? ==> ValidTransition(log.current, frame.to))
    && (frame.Starting? ==> log.current == frame.to)
  }

  ghost predicate Faithful(s: System) {
    && Sound(s.log)
    && (s.owner.Some? && s.owner.value in s.tasks && s.tasks[s.owner.value].stack.Push? ==>
          Current(s.log, s.tasks[s.owner.value].stack.frame))
  }

  /** The log the finished turns leave, one after the other, is what the owner is on its way to. */
  ghost predicate Serial(s: System) {
    && (s.owner.None? ==> s.log == AfterTurns(Initial().log, s.turns))
    && (s.owner.Some? && s.owner.value in s.tasks ==>
          var task := s.tasks[s.owner.value];
          Completed(s.log, task.stack, task.turn.onInitializer) == AfterTurns(Initial().log, s.turns))
  }

  ghost predicate Inv(s: System) {
    Exclusive(s) && Faithful(s) && Serial(s)
  }

  /** Taking a step keeps all but the top of a stack suspended, and counts the calls that hold the mutex. */
  lemma ProgressKeepsShape(log: Log, task: Task)
    requires task.stack.Push? && Suspended(task.stack.below)
    ensures var stack := Progress(log, task).1;
            && (stack.Push? ==> Suspended(stack.below))
            && (stack.Empty? ==> task.stack.frame.Releasing? && task.stack.below.Empty?)
            && Held(stack) == Held(task.stack) + (if task.stack.frame.Locking? then 1
                                                  else if task.stack.frame.Releasing? then -1 else 0)
            && (stack.Push? && stack.frame.Locking? ==> stack.below.Push?)
            && (stack.Push? ==> Held(stack) > 0)
            && (stack.Empty? ==> Held(stack) == 0)
  {
    if task.stack.frame.Releasing? {
      ReturnedHeight(task.stack.below, task.turn.onInitializer && task.stack.frame.failed);
    }
  }

  lemma ProgressKeepsSound(log: Log, task: Task)
    requires task.stack.Push? && Suspended(task.stack.below) && Sound(log) && Current(log, task.stack.frame)
    ensures var (after, stack) := Progress(log, task);
            Sound(after) && (stack.Push? ==> Current(after, stack.frame))
  {
  }

  lemma AdvanceKeepsExclusive(s: System, t: nat, n: System)
    requires Exclusive(s) && t in s.tasks && n == Step(s, Advance(t))
    ensures Exclusive(n)
  {
    assert Height(Empty) == 0;
    ProgressKeepsShape(s.log, s.tasks[t]);
  }

  lemma AdvanceKeepsFaithful(s: System, t: nat, n: System)
    requires Exclusive(s) && Faithful(s) && t in s.tasks && n == Step(s, Advance(t))
    ensures Faithful(n)
  {
    ProgressKeepsSound(s.log, s.tasks[t]);
  }

  lemma TurnsAppend(log: Log, turns: seq<Turn>, turn: Turn)
    ensures AfterTurns(log, turns + [turn])
         == AfterOperation(AfterTurns(log, turns), turn.operation, turn.reaction, turn.onInitializer).log
  {
    assert (turns + [turn])[..|turns|] == turns;
  }

  lemma AdvanceKeepsSerial(s: System, t: nat, n: System)
    requires Exclusive(s) && Serial(s) && t in s.tasks && n == Step(s, Advance(t))
    ensures Serial(n)
  {
    ProgressKeepsShape(s.log, s.tasks[t]);
    CompletedStays(s.log, s.tasks[t]);
    TurnsAppend(Initial().log, s.turns, s.tasks[t].turn);
  }

  lemma StepKeepsInv(s: System, action: Action, n: System)
    requires Inv(s) && n == Step(s, action)
    ensures Inv(n)
  {
    if action.Advance? && action.task in s.tasks {
      AdvanceKeepsExclusive(s, action.task, n);
      AdvanceKeepsFaithful(s, action.task, n);
      AdvanceKeepsSerial(s, action.task, n);
    }
  }

  lemma {:induction false} RunKeepsInv(actions: seq<Action>, s: System)
    requires s == Run(actions)
    ensures Inv(s)
  {
    if actions != [] {
      var before := Run(actions[..|actions| - 1]);
      RunKeepsInv(actions[..|actions| - 1], before);
      StepKeepsInv(before, actions[|actions| - 1], s);
    }
  }

  // ---------------------------------------------------------------- what the mutex guarantees

  /**
   * At every moment of every interleaving the stored states are a walk that enters each phase once per lifetime, and
   * every state-specific callback started while the state it announces was the one stored.
   */
  lemma ContendedWalk(actions: seq<Action>, s: System)
    requires s == Run(actions)
    ensures Walk(s.log.history) && s.log.history[|s.log.history| - 1] == s.log.current
    ensures OncePerLifetime(s.log.history)
    ensures StartedWhileCurrent(s.log.history, s.log.started)
  {
    RunKeepsInv(actions, s);
    WalksAreOncePerLifetime(s.log.history);
  }

  /**
   * Every interleaving is a sequence of turns: with the mutex free, states and callbacks are those of the outermost
   * calls one after the other, in the order they took it; otherwise they are once the owner has finished its call.
   */
  lemma InterleavingsAreTurns(actions: seq<Action>, s: System)
    requires s == Run(actions)
    ensures s.owner.None? ==> s.log == AfterTurns(Initial().log, s.turns)
    ensures s.owner.Some? ==>
              && s.owner.value in s.tasks
              && var task := s.tasks[s.owner.value];
                 Completed(s.log, task.stack, task.turn.onInitializer) == AfterTurns(Initial().log, s.turns)
  {
    RunKeepsInv(actions, s);
  }

  /** Only the owner of the mutex stores a state or starts a callback, although no step asks who that is. */
  lemma OnlyOwnerChangesLog(actions: seq<Action>, s: System, action: Action)
    requires s == Run(actions) && Step(s, action).log != s.log
    ensures action.Advance? && s.owner == Some(action.task)
  {
    RunKeepsInv(actions, s);
  }

  /** A callback that calls back never waits for the mutex its own task owns. */
  lemma OwnerNeverWaits(actions: seq<Action>, s: System)
    requires s == Run(actions) && s.owner.Some?
    ensures s.owner.value in s.tasks
    ensures Step(s, Advance(s.owner.value)) != s
  {
    RunKeepsInv(actions, s);
  }

  // ---------------------------------------------------------------- every call comes to its end

  /** A call begins by waiting for the mutex, and a free one is taken by whoever comes to it. */
  lemma FreeMutexIsTaken(actions: seq<Action>, s: System, t: nat, turn: Turn)
    requires s == Run(actions)
    ensures t !in s.tasks ==> t in Step(s, Begin(t, turn)).tasks && Step(s, Begin(t, turn)).tasks[t].turn == turn
    ensures t in s.tasks && s.owner.None? ==>
              var n := Step(s, Advance(t));
              n.owner == Some(t) && n.depth == 1 && n.turns == s.turns + [s.tasks[t].turn] && t in n.tasks
  {
    RunKeepsInv(actions, s);
  }

  function ReactionSize(r: Reaction): nat
    decreases r
  {
    ScriptSize(r.change) + ScriptSize(r.event) + ObserversSize(r.observers)
  }

  function ScriptSize(script: Script): nat
    decreases script
  {
    match script
    case Return => 1
    case Throw => 1
    case Invoke(_, reaction, _, rest) => 12 + ReactionSize(reaction) + ScriptSize(rest)
  }

  function ObserversSize(observers: Observers): nat
    decreases observers
  {
    match observers
    case NoObserver => 1
    case Notify(any, specific, others) => 10 + ScriptSize(any) + ScriptSize(specific) + ObserversSize(others)
  }

  function NextSize(next: Next): nat {
    match next
    case ThenEvent(event, observers) => 5 + ScriptSize(event) + ObserversSize(observers)
    case ThenSpecific(specific, others) => 5 + ScriptSize(specific) + ObserversSize(others)
    case ThenTell(_, observers) => 2 + ObserversSize(observers)
  }

  /** How much a call still has before it. */
  function FrameSize(frame: Frame): nat {
    match frame
    case Locking(_, reaction) => 10 + ReactionSize(reaction)
    case Loading(_, reaction) => 9 + ReactionSize(reaction)
    case Storing(_, reaction) => 8 + ReactionSize(reaction)
    case Calling(_, _, script, next) => ScriptSize(script) + NextSize(next)
    case Checking(_, _, script, _, observers) => 4 + ScriptSize(script) + ObserversSize(observers)
    case Starting(_, _, script, _, observers) => 3 + ScriptSize(script) + ObserversSize(observers)
    case Telling(_, _, observers) => 1 + ObserversSize(observers)
    case Releasing(_) => 1
  }

  /** The same for a call that waits for one of its callbacks to come back from a nested call. */
  function SuspendedSize(stack: Stack): nat {
    if stack.Empty? then 0
    else if stack.frame.Calling? && stack.frame.script.Invoke? then
      ScriptSize(stack.frame.script.rest) + NextSize(stack.frame.next) + SuspendedSize(stack.below)
    else FrameSize(stack.frame) + SuspendedSize(stack.below)
  }

  function StackSize(stack: Stack): nat {
    if stack.Empty? then 0 else FrameSize(stack.frame) + SuspendedSize(stack.below)
  }

  lemma ScriptsHaveSize(script: Script)
    ensures ScriptSize(script) >= 1
  {
  }

  lemma ContinuedShrinks(log: Log, frame: Frame)
    requires Plain(frame)
    ensures FrameSize(Continued(log, frame).1) < FrameSize(frame)
  {
  }

  lemma ReturnedSize(stack: Stack, threw: bool)
    requires Suspended(stack)
    ensures StackSize(Returned(stack, threw)) <= SuspendedSize(stack)
  {
    if stack.Push? {
      ScriptsHaveSize(stack.frame.script.rest);
    }
  }

  lemma ProgressShrinks(log: Log, task: Task)
    requires task.stack.Push? && Suspended(task.stack.below)
    ensures StackSize(Progress(log, task).1) < StackSize(task.stack)
  {
    var frame := task.stack.frame;
    if Plain(frame) {
      ContinuedShrinks(log, frame);
    } else if frame.Releasing? {
      ReturnedSize(task.stack.below, task.turn.onInitializer && frame.failed);
    }
  }

  /** A task's own steps, one after the other. */
  function Alone(s: System, t: nat, steps: nat): System
    decreases steps
  {
    if steps == 0 then s else Alone(Step(s, Advance(t)), t, steps - 1)
  }

  lemma OneMoreAlone(s: System, t: nat, steps: nat, n: System, after: System)
    requires n == Step(s, Advance(t)) && after == Alone(n, t, steps)
    ensures after == Alone(s, t, steps + 1)
  {
  }

  /** What one step of the owner does, whoever else waits. */
  lemma OwnerMoves(s: System, t: nat, n: System)
    requires Inv(s) && s.owner == Some(t) && n == Step(s, Advance(t))
    ensures t in s.tasks && Inv(n) && n.turns == s.turns
    ensures n.owner == Some(t) ==> t in n.tasks && StackSize(n.tasks[t].stack) < StackSize(s.tasks[t].stack)
    ensures n.owner != Some(t) ==> n.owner.None? && t !in n.tasks
  {
    StepKeepsInv(s, Advance(t), n);
    ProgressShrinks(s.log, s.tasks[t]);
    ProgressKeepsShape(s.log, s.tasks[t]);
  }

  /**
   * Every call comes to its end: left to itself, the owner finishes whatever tree of calls it is in and gives the
   * mutex up, with the log that its turns in order come to.
   */
  lemma OwnerFinishes(s: System, t: nat) returns (steps: nat, after: System)
    requires Inv(s) && s.owner == Some(t) && t in s.tasks
    ensures after == Alone(s, t, steps) && Inv(after)
    ensures after.owner.None? && t !in after.tasks && after.turns == s.turns
    ensures after.log == AfterTurns(Initial().log, s.turns)
    decreases StackSize(s.tasks[t].stack)
  {
    var n := Step(s, Advance(t));
    OwnerMoves(s, t, n);
    if n.owner == Some(t) {
      steps, after := OwnerFinishes(n, t);
    } else {
      steps, after := 0, n;
    }
    OneMoreAlone(s, t, steps, n, after);
    steps := steps + 1;
  }
}
