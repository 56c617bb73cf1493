/**
 * The wake protocol of a PrecisionThread: one worker that sleeps on a binary signal, and any number of callers
 * that first publish a change and then give the signal. Every step is one atomic operation.
 */
module ScheduleWake {

  /** What a caller publishes before it gives the signal. */
  datatype Publication =
    | WorkRequest      // WakeForWork
    | NewDeadline      // Bump, reset or SetIterationPeriod
    | StopRequest      // Terminate
    | Nothing          // Start on a thread that is not paused

  /** Where the worker is; the deadline version it computed its wait from is carried along. */
  datatype Worker =
    | AtState                     // about to load the lifecycle state
    | AtExchange                  // about to exchange the work-wake flag
    | AtTiming                    // about to enter the first critical section
    | AtWait(seen: nat)           // decided to wait, about to call the signal
    | Blocked(seen: nat)          // inside the timed wait
    | Waking                      // running OnWorkWake
    | Busy                        // running Iterate or yielding
    | Left                        // out of the state loop

  datatype System = System(
    workRequested: bool,
    stopRequested: bool,
    version: nat,                 // how often the deadline has been changed by a caller
    signal: bool,
    worker: Worker,
    owing: set<nat>,              // callers that have published but not yet given
    served: nat)                  // ghost: how often OnWorkWake has begun

  datatype Action =
    | Publish(caller: nat, what: Publication)
    | Give(caller: nat)
    | Advance(waits: bool)        // the worker's next atomic step; waits is the timing section's decision
    | TimeOut

  function Initial(): System {
    System(false, false, 0, false, AtState, {}, 0)
  }

  function Published(s: System, what: Publication): System {
    match what
    case WorkRequest => s.(workRequested := true)
    case NewDeadline => s.(version := s.version + 1)
    case StopRequest => s.(stopRequested := true)
    case Nothing => s
  }

  function AdvanceWorker(s: System, waits: bool): System {
    match s.worker
    case AtState => s.(worker := if s.stopRequested then Left else AtExchange)
    case AtExchange =>
      if s.workRequested then s.(workRequested := false, worker := Waking, served := s.served + 1)
      else s.(worker := AtTiming)
    case AtTiming => s.(worker := if waits then AtWait(s.version) else Busy)
    case AtWait(seen) => s.(worker := Blocked(seen))
    case Blocked(_) => if s.signal then s.(signal := false, worker := AtState) else s
    case Waking => s.(worker := AtState)
    case Busy => s.(worker := AtState)
    case Left => s
  }

  /** One step; a step that is not possible changes nothing. */
  function Step(s: System, action: Action): System {
    match action
    case Publish(caller, what) =>
      if caller in s.owing then s else Published(s, what).(owing := s.owing + {caller})
    case Give(caller) =>
      if caller !in s.owing then s else s.(signal := true, owing := s.owing - {caller})
    case Advance(waits) => AdvanceWorker(s, waits)
    case TimeOut => if s.worker.Blocked? then s.(worker := AtState) else s
  }

  function RunFrom(s: System, actions: seq<Action>): System {
    if actions == [] then s else Step(RunFrom(s, actions[..|actions| - 1]), actions[|actions| - 1])
  }

  function Run(actions: seq<Action>): System {
    RunFrom(Initial(), actions)
  }

  /** Something was published that the worker has not looked at since it last could have. */
  predicate Unseen(s: System) {
    || (s.stopRequested && !s.worker.AtState? && !s.worker.Waking? && !s.worker.Busy? && !s.worker.Left?)
    || (s.workRequested && (s.worker.AtTiming? || s.worker.AtWait? || s.worker.Blocked?))
    || ((s.worker.AtWait? || s.worker.Blocked?) && s.version != s.worker.seen)
  }

  predicate Inv(s: System) {
    && (Unseen(s) ==> s.signal || s.owing != {})
    && (s.worker.AtWait? || s.worker.Blocked? ==> s.worker.seen <= s.version)
  }

  lemma StepKeepsInv(s: System, action: Action)
    requires Inv(s)
    ensures Inv(Step(s, action))
  {
    match action
    case Publish(caller, _) =>
      assert caller in s.owing + {caller};
    case _ =>
  }

  lemma {:induction false} RunKeepsInv(s: System, actions: seq<Action>, after: System)
    requires Inv(s) && after == RunFrom(s, actions)
    ensures Inv(after)
  {
    if actions != [] {
      var before := RunFrom(s, actions[..|actions| - 1]);
      RunKeepsInv(s, actions[..|actions| - 1], before);
      StepKeepsInv(before, actions[|actions| - 1]);
    }
  }

  lemma ReachableInv(actions: seq<Action>, s: System)
    requires s == Run(actions)
    ensures Inv(s)
  {
    RunKeepsInv(Initial(), actions, s);
  }

  /**
   * No wake is lost: a worker blocked on an empty signal, with no caller between its publication and its
   * give, has no work request waiting, no stop request waiting and an up-to-date deadline.
   */
  lemma NoLostWake(actions: seq<Action>, s: System)
    requires s == Run(actions)
    requires s.worker.Blocked? && !s.signal && s.owing == {}
    ensures !s.workRequested && !s.stopRequested && s.worker.seen == s.version
  {
    ReachableInv(actions, s);
  }

  /** Once the owed gives are made, a blocked worker with anything unseen can leave its wait at once. */
  lemma OwedGiveReleasesWorker(actions: seq<Action>, s: System, caller: nat)
    requires s == Run(actions) && s.worker.Blocked? && Unseen(s)
    ensures s.signal || exists c :: c in s.owing
    ensures caller in s.owing ==>
              AdvanceWorker(Step(s, Give(caller)), false).worker == AtState
  {
    ReachableInv(actions, s);
    if !s.signal {
      var c :| c in s.owing;
    }
  }

  // ---------------------------------------------------------------- every request is served

  /** A request goes away in one way only: the worker takes it and begins OnWorkWake. */
  lemma RequestIsOnlyServed(s: System, action: Action, n: System)
    requires n == Step(s, action) && s.workRequested && !n.workRequested
    ensures action.Advance? && s.worker.AtExchange? && n.worker.Waking? && n.served == s.served + 1
  {
  }

  /** OnWorkWake begins for a request, which it consumes, and for nothing else. */
  lemma OnlyRequestsAreServed(s: System, action: Action, n: System)
    requires n == Step(s, action)
    ensures n.served == s.served ||
            (n.served == s.served + 1 && s.workRequested && !n.workRequested && n.worker.Waking?)
    ensures n.worker.Waking? && !s.worker.Waking? ==> n.served == s.served + 1
  {
  }

  /** Over every run: once a request has been published it stands until OnWorkWake has begun after it. */
  lemma {:induction false} RequestStandsOrIsServed(s: System, later: seq<Action>, after: System)
    requires s.workRequested && after == RunFrom(s, later)
    ensures after.served >= s.served
    ensures after.workRequested || after.served > s.served
  {
    if later != [] {
      var before := RunFrom(s, later[..|later| - 1]);
      RequestStandsOrIsServed(s, later[..|later| - 1], before);
      OnlyRequestsAreServed(before, later[|later| - 1], after);
      if before.workRequested && !after.workRequested {
        RequestIsOnlyServed(before, later[|later| - 1], after);
      }
    }
  }

  /** How often WakeForWork has published in a run. */
  function Requests(actions: seq<Action>): nat {
    if actions == [] then 0 else
      Requests(actions[..|actions| - 1]) +
      (if actions[|actions| - 1].Publish? && actions[|actions| - 1].what == WorkRequest then 1 else 0)
  }

  /** Over every run: OnWorkWake has never begun more often than work was requested, a standing request apart. */
  lemma {:induction false} WakesWereRequested(actions: seq<Action>, s: System)
    requires s == Run(actions)
    ensures s.served + (if s.workRequested then 1 else 0) <= Requests(actions)
  {
    if actions != [] {
      var before := Run(actions[..|actions| - 1]);
      WakesWereRequested(actions[..|actions| - 1], before);
      OnlyRequestsAreServed(before, actions[|actions| - 1], s);
    }
  }

  /** What a caller publishes is there at once. */
  lemma PublicationShows(s: System, caller: nat, what: Publication, n: System)
    requires caller !in s.owing && n == Step(s, Publish(caller, what))
    ensures caller in n.owing && n.worker == s.worker && n.signal == s.signal
    ensures n.workRequested == (s.workRequested || what == WorkRequest)
    ensures n.stopRequested == (s.stopRequested || what == StopRequest)
    ensures n.version == s.version + if what == NewDeadline then 1 else 0
  {
  }

  /** The worker's own steps, with whatever its timing section decides. */
  function Alone(s: System, decisions: seq<bool>): System {
    if decisions == [] then s else AdvanceWorker(Alone(s, decisions[..|decisions| - 1]), decisions[|decisions| - 1])
  }

  /** Own steps of the worker up to the point where it takes a request. */
  function StepsToExchange(worker: Worker): nat {
    match worker
    case AtTiming => 5
    case AtWait(_) => 4
    case Blocked(_) => 3
    case Waking => 3
    case Busy => 3
    case AtState => 2
    case AtExchange => 1
    case Left => 0
  }

  /** With no give owed, each of its own steps brings the worker nearer to a request that stands. */
  lemma ComesNearerToRequest(s: System, waits: bool, n: System)
    requires Inv(s) && s.workRequested && !s.stopRequested && !s.worker.Left? && s.owing == {}
    requires n == AdvanceWorker(s, waits)
    ensures Inv(n) && n.owing == {} && !n.stopRequested && !n.worker.Left?
    ensures (n.served == s.served + 1 && n.worker.Waking?)
            || (n.workRequested && n.served == s.served
                && StepsToExchange(n.worker) < StepsToExchange(s.worker))
  {
    StepKeepsInv(s, Advance(waits));
  }

  lemma ServedNeverShrinks(s: System, waits: bool, n: System)
    requires n == AdvanceWorker(s, waits)
    ensures n.served >= s.served
  {
  }

  /**
   * A worker nobody stops begins OnWorkWake within five of its own steps once the gives are made, from wherever
   * it stands, within three from its blocked wait, and whatever its timing section decides on the way.
   */
  lemma {:induction false} RequestIsServedSoon(s: System, decisions: seq<bool>, after: System)
    requires Inv(s) && s.workRequested && !s.stopRequested && !s.worker.Left? && s.owing == {}
    requires after == Alone(s, decisions)
    ensures after.served > s.served ||
            (Inv(after) && after.workRequested && !after.stopRequested && !after.worker.Left? && after.owing == {}
             && after.served == s.served && StepsToExchange(after.worker) + |decisions| <= StepsToExchange(s.worker))
    ensures |decisions| >= StepsToExchange(s.worker) ==> after.served > s.served
  {
    if decisions != [] {
      var before := Alone(s, decisions[..|decisions| - 1]);
      RequestIsServedSoon(s, decisions[..|decisions| - 1], before);
      if before.served == s.served {
        ComesNearerToRequest(before, decisions[|decisions| - 1], after);
      } else {
        ServedNeverShrinks(before, decisions[|decisions| - 1], after);
      }
    }
  }

  /** Wherever a run has come to: make the gives, and the blocked worker's next three steps serve the request. */
  lemma BlockedWorkerIsWoken(actions: seq<Action>, s: System, a: bool, b: bool, c: bool, after: System)
    requires s == Run(actions) && s.worker.Blocked? && s.workRequested && !s.stopRequested && s.owing == {}
    requires after == Alone(s, [a, b, c])
    ensures after.served == s.served + 1 && after.worker.Waking?
  {
    ReachableInv(actions, s);
    assert [a, b, c][..2] == [a, b] && [a, b][..1] == [a] && [a][..0] == [];
    assert Alone(s, [a]) == AdvanceWorker(s, a);
    assert Alone(s, [a, b]) == AdvanceWorker(AdvanceWorker(s, a), b);
  }

  /** A stop request is seen within two of its own steps by a worker that is blocked with no give owed. */
  lemma BlockedWorkerStops(actions: seq<Action>, s: System, a: bool, b: bool, after: System)
    requires s == Run(actions) && s.worker.Blocked? && s.stopRequested && s.owing == {}
    requires after == Alone(s, [a, b])
    ensures after.worker.Left?
  {
    ReachableInv(actions, s);
    assert [a, b][..1] == [a] && [a][..0] == [];
    assert Alone(s, [a]) == AdvanceWorker(s, a);
  }

  /** A changed deadline is read within three of its own steps: the worker comes to its timing section again. */
  lemma BlockedWorkerRecomputes(actions: seq<Action>, s: System, a: bool, b: bool, c: bool, after: System)
    requires s == Run(actions) && s.worker.Blocked? && s.worker.seen != s.version && s.owing == {}
    requires !s.stopRequested && !s.workRequested
    requires after == Alone(s, [a, b, c])
    ensures after.worker == AtTiming && after.version == s.version
    ensures AdvanceWorker(after, true).worker == AtWait(s.version) && AdvanceWorker(after, false).worker == Busy
  {
    ReachableInv(actions, s);
    assert [a, b, c][..2] == [a, b] && [a, b][..1] == [a] && [a][..0] == [];
    assert Alone(s, [a]) == AdvanceWorker(s, a);
    assert Alone(s, [a, b]) == AdvanceWorker(AdvanceWorker(s, a), b);
  }

  /** The wait is timed: without any signal a blocked worker comes back to look again. */
  lemma BlockedWaitTimesOut(s: System)
    requires s.worker.Blocked?
    ensures Step(s, TimeOut) == s.(worker := AtState)
  {
  }
}
