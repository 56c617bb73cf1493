/**
 * The termination dispatcher: callers that make sure it exists and queue records under one mutex, and the task
 * that handles them without it. Create calls may fail; a queue that exists accepts records while it has room.
 */
module TerminationDispatcher {
  import opened Foundations

  /** A record, named by the Thread it points to. */
  type Record = nat

  /** Where one Dispatch call stands. */
  datatype Caller =
    | Arriving              // about to lock for EnsureAvailable
    | Checking              // holds the mutex from here ...
    | NewQueue
    | NewTask
    | PublishTask           // ... to here
    | Available             // about to lock again, to send; Initialize's own availability check stays here
    | Sending               // holds the mutex, waiting for room if need be

  datatype System = System(
    mutex: Option<nat>,
    queue: Option<seq<Record>>,     // _queue, null or published
    handle: bool,                   // _taskHandle is valid
    tasks: nat,                     // dispatcher tasks ever created
    handling: Option<Record>,       // the record the task is working on
    callers: map<nat, (Caller, Record)>,
    sent: seq<Record>,              // ghost: records queued so far
    handled: seq<Record>)           // ghost: records completed so far

  datatype Action =
    | Call(caller: nat, record: Record)
    | Advance(caller: nat, ok: bool)
    | Loop

  function Initial(): System {
    System(None, None, false, 0, None, map[], [], [])
  }

  predicate HoldsMutex(c: Caller) {
    !c.Arriving? && !c.Available?
  }

  function Goto(s: System, caller: nat, next: Caller): System
    requires caller in s.callers
  {
    s.(callers := s.callers[caller := (next, s.callers[caller].1)])
  }

  /** The call releases the mutex and ends. */
  function Leave(s: System, caller: nat): System {
    s.(mutex := None, callers := s.callers - {caller})
  }

  function Advanced(s: System, caller: nat, ok: bool): System
    requires caller in s.callers
  {
    match s.callers[caller].0
    case Arriving => if s.mutex.Some? then s else Goto(s.(mutex := Some(caller)), caller, Checking)
    case Checking =>
      if s.queue.Some? && s.handle then Goto(s.(mutex := None), caller, Available) else Goto(s, caller, NewQueue)
    case NewQueue => if ok then Goto(s.(queue := Some([])), caller, NewTask) else Leave(s, caller)
    case NewTask =>
      if ok then Goto(s.(tasks := s.tasks + 1), caller, PublishTask) else Leave(s.(queue := None), caller)
    case PublishTask => Goto(s.(handle := true, mutex := None), caller, Available)
    case Available => if s.mutex.Some? then s else Goto(s.(mutex := Some(caller)), caller, Sending)
    case Sending =>
      if s.queue.None? then Leave(s, caller)
      else if |s.queue.value| >= QUEUE_LENGTH then s
      else
        var record := s.callers[caller].1;
        Leave(s.(queue := Some(s.queue.value + [record]), sent := s.sent + [record]), caller)
  }

  /** One turn of the dispatcher task. */
  function Turn(s: System): System {
    if s.tasks == 0 then s
    else if s.handling.Some? then s.(handled := s.handled + [s.handling.value], handling := None)
    else if s.queue.None? || s.queue.value == [] then s
    else s.(handling := Some(s.queue.value[0]), queue := Some(s.queue.value[1..]))
  }

  /** One step; a step that is not possible changes nothing. */
  function Step(s: System, action: Action): System {
    match action
    case Call(caller, record) =>
      if caller in s.callers then s else s.(callers := s.callers[caller := (Arriving, record)])
    case Advance(caller, ok) => if caller in s.callers then Advanced(s, caller, ok) else s
    case Loop => Turn(s)
  }

  function Run(actions: seq<Action>): System {
    if actions == [] then Initial() else Step(Run(actions[..|actions| - 1]), actions[|actions| - 1])
  }

  // ---------------------------------------------------------------- the invariant

  ghost predicate Exclusive(s: System) {
    && (s.mutex.Some? ==> s.mutex.value in s.callers && HoldsMutex(s.callers[s.mutex.value].0))
    && forall c :: c in s.callers && HoldsMutex(s.callers[c].0) ==> s.mutex == Some(c)
  }

  /** The publication order: queue, then task, then handle, all under the mutex. */
  ghost predicate Published(s: System) {
    var at := if s.mutex.Some? && s.mutex.value in s.callers then s.callers[s.mutex.value].0 else Arriving;
    && (s.handle ==> s.tasks == 1 && s.queue.Some?)
    && (at.NewQueue? || at.NewTask? || at.PublishTask? ==> !s.handle)
    && (!s.handle ==> s.tasks == (if at.PublishTask? then 1 else 0))
    && (!s.handle ==> (s.queue.Some? <==> at.NewTask? || at.PublishTask?))
    && forall c :: c in s.callers && (s.callers[c].0.Available? || s.callers[c].0.Sending?) ==> s.handle
  }

  function Waiting(s: System): seq<Record> {
    if s.queue.Some? then s.queue.value else []
  }

  function InProgress(s: System): seq<Record> {
    if s.handling.Some? then [s.handling.value] else []
  }

  ghost predicate Fifo(s: System) {
    && s.sent == s.handled + InProgress(s) + Waiting(s)
    && |Waiting(s)| <= QUEUE_LENGTH
    && (s.tasks == 0 ==> s.sent == [])
  }

  ghost predicate Inv(s: System) {
    Exclusive(s) && Published(s) && Fifo(s)
  }

  lemma AdvanceKeepsExclusive(s: System, caller: nat, ok: bool)
    requires Exclusive(s) && caller in s.callers
    ensures Exclusive(Advanced(s, caller, ok))
  {
  }

  lemma AdvanceKeepsPublished(s: System, caller: nat, ok: bool)
    requires Exclusive(s) && Published(s) && caller in s.callers
    ensures Published(Advanced(s, caller, ok))
  {
  }

  lemma AdvanceKeepsFifo(s: System, caller: nat, ok: bool)
    requires Inv(s) && caller in s.callers
    ensures Fifo(Advanced(s, caller, ok))
  {
    if s.callers[caller].0.Sending? && s.queue.Some? {
      var record := s.callers[caller].1;
      assert s.handled + InProgress(s) + (s.queue.value + [record])
          == s.handled + InProgress(s) + s.queue.value + [record];
    }
  }

  lemma TurnKeepsInv(s: System)
    requires Inv(s)
    ensures Inv(Turn(s))
  {
    if s.tasks > 0 && s.handling.None? && Waiting(s) != [] {
      assert Waiting(s) == [Waiting(s)[0]] + Waiting(s)[1..];
    }
  }

  lemma StepKeepsInv(s: System, action: Action)
    requires Inv(s)
    ensures Inv(Step(s, action))
  {
    match action
    case Call(_, _) =>
    case Advance(caller, ok) =>
      if caller in s.callers {
        AdvanceKeepsExclusive(s, caller, ok);
        AdvanceKeepsPublished(s, caller, ok);
        AdvanceKeepsFifo(s, caller, ok);
      }
    case Loop => TurnKeepsInv(s);
  }

  lemma {:induction false} RunKeepsInv(actions: seq<Action>, s: System)
    requires s == Run(actions)
    ensures Inv(s)
  {
    if actions != [] {
      var before := Run(actions[..|actions| - 1]);
      RunKeepsInv(actions[..|actions| - 1], before);
      StepKeepsInv(before, actions[|actions| - 1]);
    }
  }

  // ---------------------------------------------------------------- what the dispatcher guarantees

  /** Records are handled first in, first out; none is lost, doubled or beyond the queue's bound. */
  lemma HandledInOrder(actions: seq<Action>, s: System)
    requires s == Run(actions)
    ensures s.sent == s.handled + InProgress(s) + Waiting(s)
    ensures |Waiting(s)| <= QUEUE_LENGTH
  {
    RunKeepsInv(actions, s);
  }

  /** There is never a second dispatcher task, and never one without a published queue to read. */
  lemma TaskNeedsPublishedQueue(actions: seq<Action>, s: System)
    requires s == Run(actions)
    ensures s.tasks <= 1
    ensures s.tasks == 1 ==> s.queue.Some?
    ensures s.handle ==> s.tasks == 1
  {
    RunKeepsInv(actions, s);
  }

  /** A call that got as far as sending finds the queue, so its record is queued as soon as there is room. */
  lemma SendFindsQueue(actions: seq<Action>, s: System, caller: nat, ok: bool)
    requires s == Run(actions) && caller in s.callers && s.callers[caller].0.Sending?
    ensures s.queue.Some?
    ensures |s.queue.value| < QUEUE_LENGTH ==>
              Advanced(s, caller, ok).sent == s.sent + [s.callers[caller].1]
    ensures |s.queue.value| >= QUEUE_LENGTH ==> Advanced(s, caller, ok) == s
  {
    RunKeepsInv(actions, s);
  }

  // ---------------------------------------------------------------- progress

  /** Turns of the dispatcher task alone. */
  function Turns(s: System, n: nat): System {
    if n == 0 then s else Turn(Turns(s, n - 1))
  }

  lemma {:induction false} TurnsJoin(s: System, a: nat, b: nat)
    ensures Turns(Turns(s, a), b) == Turns(s, a + b)
  {
    if b > 0 {
      TurnsJoin(s, a, b - 1);
    }
  }

  /** An idle task takes the oldest waiting record, and a busy one completes the record it works on. */
  lemma TurnHandlesOldest(s: System)
    requires s.tasks > 0
    ensures s.handling.Some? ==> Turn(s) == s.(handled := s.handled + [s.handling.value], handling := None)
    ensures s.handling.None? && Waiting(s) != [] ==>
              Turn(Turn(s)) == s.(handled := s.handled + [Waiting(s)[0]], queue := Some(Waiting(s)[1..]))
    ensures s.handling.None? && Waiting(s) == [] ==> Turn(s) == s
  {
  }

  lemma TwoTurns(s: System)
    ensures Turns(s, 2) == Turn(Turn(s))
  {
    assert Turns(s, 1) == Turn(Turns(s, 0));
  }

  /** Left alone, the task handles everything queued: two turns a record, and one for the record it works on. */
  lemma {:induction false} DispatcherDrains(s: System, n: nat, after: System)
    requires Inv(s) && s.tasks > 0
    requires n == 2 * |Waiting(s)| + |InProgress(s)| && after == Turns(s, n)
    ensures after.handled == s.sent && after.sent == s.sent && Waiting(after) == [] && after.handling.None?
    decreases n
  {
    TurnHandlesOldest(s);
    if s.handling.Some? {
      TurnKeepsInv(s);
      assert Turns(s, 1) == Turn(Turns(s, 0));
      TurnsJoin(s, 1, n - 1);
      DispatcherDrains(Turn(s), n - 1, after);
    } else if Waiting(s) != [] {
      TurnKeepsInv(s);
      TurnKeepsInv(Turn(s));
      TwoTurns(s);
      TurnsJoin(s, 2, n - 2);
      DispatcherDrains(Turn(Turn(s)), n - 2, after);
    }
  }

  /** Steps of one call while nobody else holds the mutex. */
  function CallLeft(at: Caller): nat {
    match at
    case Arriving => 6
    case Checking => 5
    case NewQueue => 4
    case NewTask => 3
    case PublishTask => 2
    case Available => 1
    case Sending => 0
  }

  function CallSteps(s: System, caller: nat, n: nat): System {
    if n == 0 then s
    else
      var before := CallSteps(s, caller, n - 1);
      if caller in before.callers then Advanced(before, caller, true) else before
  }

  lemma {:induction false} CallStepsJoin(s: System, caller: nat, a: nat, b: nat)
    ensures CallSteps(CallSteps(s, caller, a), caller, b) == CallSteps(s, caller, a + b)
  {
    if b > 0 {
      CallStepsJoin(s, caller, a, b - 1);
    }
  }

  lemma CallGoesOn(s: System, caller: nat, n: System)
    requires Inv(s) && caller in s.callers && !s.callers[caller].0.Sending?
    requires s.mutex.None? || s.mutex == Some(caller)
    requires n == Advanced(s, caller, true)
    ensures caller in n.callers && n.callers[caller].1 == s.callers[caller].1
    ensures CallLeft(n.callers[caller].0) < CallLeft(s.callers[caller].0)
    ensures n.mutex.None? || n.mutex == Some(caller)
    ensures n.sent == s.sent && |Waiting(n)| <= |Waiting(s)|
  {
  }

  /**
   * With the mutex free, creation succeeding and room in the queue, a call alone queues its record, creating the
   * dispatcher on the way if there is none, and lets the mutex go.
   */
  lemma {:induction false} LoneCallQueues(s: System, caller: nat) returns (n: nat, after: System)
    requires Inv(s) && caller in s.callers && (s.mutex.None? || s.mutex == Some(caller))
    requires |Waiting(s)| < QUEUE_LENGTH
    ensures after == CallSteps(s, caller, n)
    ensures after.sent == s.sent + [s.callers[caller].1] && after.handle && after.tasks == 1
    ensures caller !in after.callers && after.mutex.None?
    decreases CallLeft(s.callers[caller].0)
  {
    var next := Advanced(s, caller, true);
    assert CallSteps(s, caller, 0) == s;
    assert CallSteps(s, caller, 1) == next;
    if s.callers[caller].0.Sending? {
      n, after := 1, next;
    } else {
      CallGoesOn(s, caller, next);
      AdvanceKeepsExclusive(s, caller, true);
      AdvanceKeepsPublished(s, caller, true);
      AdvanceKeepsFifo(s, caller, true);
      var m: nat;
      m, after := LoneCallQueues(next, caller);
      CallStepsJoin(s, caller, 1, m);
      n := 1 + m;
    }
  }

  /** Dispatch, called with the mutex free and room in the queue and left alone, queues exactly its record. */
  lemma DispatchQueues(actions: seq<Action>, s: System, caller: nat, record: Record) returns (n: nat, after: System)
    requires s == Run(actions) && caller !in s.callers && s.mutex.None? && |Waiting(s)| < QUEUE_LENGTH
    ensures after == CallSteps(Step(s, Call(caller, record)), caller, n)
    ensures after.sent == s.sent + [record] && after.handle && after.tasks == 1
    ensures caller !in after.callers && after.mutex.None?
  {
    RunKeepsInv(actions + [Call(caller, record)], Step(s, Call(caller, record)));
    n, after := LoneCallQueues(Step(s, Call(caller, record)), caller);
  }

  /** A creation that fails ends the call with nothing published and the mutex free, for a later call to try again. */
  lemma FailedCreationRollsBack(actions: seq<Action>, s: System, caller: nat, n: System)
    requires s == Run(actions) && caller in s.callers && n == Advanced(s, caller, false)
    requires s.callers[caller].0.NewQueue? || s.callers[caller].0.NewTask?
    ensures n.queue.None? && !n.handle && n.tasks == 0 && n.mutex.None? && caller !in n.callers && n.sent == s.sent
  {
    RunKeepsInv(actions, s);
  }

  // ---------------------------------------------------------------- the object

  lemma AppendKeepsInv(s: System, record: Record)
    requires Inv(s) && s.handle && s.queue.Some? && |s.queue.value| < QUEUE_LENGTH
    ensures Inv(s.(queue := Some(s.queue.value + [record]), sent := s.sent + [record]))
  {
    assert s.handled + InProgress(s) + (s.queue.value + [record])
        == s.handled + InProgress(s) + s.queue.value + [record];
  }

  /** The dispatcher's fields, with calls that only the dispatcher task itself may interleave with. */
  class Dispatcher {
    var queue: Option<seq<Record>>
    var taskHandle: bool
    var handling: Option<Record>
    ghost var tasks: nat
    ghost var sent: seq<Record>
    ghost var handled: seq<Record>

    ghost function View(): System
      reads this
    {
      System(None, queue, taskHandle, tasks, handling, map[], sent, handled)
    }

    constructor ()
      ensures View() == Initial() && Inv(View())
    {
      queue, taskHandle, handling, tasks, sent, handled := None, false, None, 0, [], [];
    }

    /** _initialize; the arguments say whether the platform can create a queue and a task just now. */
    method Initialize(queueCreated: bool, taskCreated: bool) returns (available: bool)
      requires Inv(View())
      modifies this`queue, this`taskHandle, this`tasks
      ensures Inv(View())
      ensures available == taskHandle == (old(taskHandle) || (queueCreated && taskCreated))
      ensures available && !old(taskHandle) ==> View() == old(View()).(queue := Some([]), handle := true, tasks := 1)
      ensures !available || old(taskHandle) ==> View() == old(View())
    {
      if queue.Some? && taskHandle {
        return true;
      }
      if !queueCreated {
        return false;
      }
      queue := Some([]);
      if !taskCreated {
        queue := None;
        return false;
      }
      tasks := tasks + 1;
      taskHandle := true;
      available := true;
    }

    /** One turn of the dispatcher task. */
    method TakeTurn()
      requires Inv(View())
      modifies this`queue, this`handling, this`handled
      ensures Inv(View()) && View() == Turn(old(View()))
    {
      TurnKeepsInv(View());
      if queue.Some? && taskHandle {
        if handling.Some? {
          handled, handling := handled + [handling.value], None;
        } else if queue.value != [] {
          handling, queue := Some(queue.value[0]), Some(queue.value[1..]);
        }
      }
    }

    /** Dispatch; while the queue is full the send waits and the dispatcher task goes on. */
    method Dispatch(record: Record, queueCreated: bool, taskCreated: bool) returns (queued: bool)
      requires Inv(View())
      modifies this
      ensures Inv(View())
      ensures queued <==> old(taskHandle) || (queueCreated && taskCreated)
      ensures sent == old(sent) + if queued then [record] else []
      ensures old(handled) <= handled
      ensures !queued || |Waiting(old(View()))| < QUEUE_LENGTH ==> handled == old(handled) && handling == old(handling)
    {
      var available := Initialize(queueCreated, taskCreated);
      if !available {
        return false;
      }
      while |queue.value| >= QUEUE_LENGTH
        invariant Inv(View()) && taskHandle && queue.Some?
        invariant sent == old(sent) && old(handled) <= handled
        invariant |Waiting(old(View()))| < QUEUE_LENGTH ==>
                    |queue.value| < QUEUE_LENGTH && handled == old(handled) && handling == old(handling)
        decreases |queue.value|, if handling.Some? then 1 else 0
      {
        TakeTurn();
      }
      AppendKeepsInv(View(), record);
      queue, sent := Some(queue.value + [record]), sent + [record];
      queued := true;
    }
  }
}
