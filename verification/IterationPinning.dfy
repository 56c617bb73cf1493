/**
 * ThreadManager under concurrency: any number of iterations, registrations and cleanup passes, interleaved at
 * every lock boundary. A pass releases the iteration mutex before it deletes; pinning must hold all the same.
 *
 * Objects are identified by pointers that are never reused. A claimed object is not registered again, and the
 * application deletes only objects the manager neither lists, nor has claimed, nor is looking at.
 */
module IterationPinning {
  import opened Foundations
  import opened ThreadRegistry

  /** A live IterationGuard: before its snapshot, or visiting the threads in it. */
  datatype Iteration = Entered | Visiting(snapshot: set<Pointer>)

  /** A CleanUpWithResult call past its active-iteration test. */
  datatype Pass =
    | Locked                                                         // holds the mutex, no snapshot yet
    | Claiming(snapshot: map<Pointer, Id>, claimed: map<Pointer, Id>)  // holds the mutex
    | Removed(doomed: set<Pointer>)                                  // holds the mutex, registry settled
    | Deleting(doomed: set<Pointer>)                                 // mutex released

  datatype System = System(
    registered: map<Pointer, Id>,
    holder: Option<nat>,               // the pass that holds the iteration mutex
    active: nat,                       // _activeIterations
    pending: bool,                     // _cleanupPending
    iterations: map<nat, Iteration>,
    owing: set<nat>,                   // ended iterations that have yet to call CleanUp
    passes: map<nat, Pass>,
    automatic: set<Pointer>,           // automatic cleanup claims won
    manual: set<Pointer>,              // claims held by the application
    deleted: set<Pointer>,
    debt: bool)                        // ghost: a request was deferred and no pass has run since

  datatype Action =
    | Register(thread: Pointer, id: Id)
    | Unregister(thread: Pointer)
    | SetManual(thread: Pointer, held: bool)
    | Enter(iteration: nat)
    | TakeSnapshot(iteration: nat, only: Option<Id>)
    | Exit(iteration: nat)
    | Request(pass: nat, payer: Option<nat>)      // CleanUp; payer is the ended iteration that owed it, if any
    | ListThreads(pass: nat)
    | Examine(pass: nat, thread: Pointer, eligible: bool)
    | RemoveClaimed(pass: nat)
    | Unlock(pass: nat)
    | Delete(pass: nat, thread: Pointer)
    | Abandon(pass: nat)                          // the pass ends, normally or by an exception
    | ApplicationDelete(thread: Pointer)

  function Initial(): System {
    System(map[], None, 0, false, map[], {}, map[], {}, {}, {}, false)
  }

  predicate HoldsMutex(pass: Pass) {
    pass.Locked? || pass.Claiming? || pass.Removed?
  }

  /** The threads an iteration may still visit. */
  function Visits(iteration: Iteration): set<Pointer> {
    if iteration.Visiting? then iteration.snapshot else {}
  }

  /** The threads a pass may still examine. */
  function Lists(pass: Pass): set<Pointer> {
    if pass.Claiming? then pass.snapshot.Keys else {}
  }

  /** The threads a pass has taken out of the registry and not yet deleted. */
  function Doomed(pass: Pass): set<Pointer> {
    if pass.Removed? || pass.Deleting? then pass.doomed else {}
  }

  /** The threads a pass has committed to: claimed, or taken out of the registry and awaiting deletion. */
  function Committed(pass: Pass): set<Pointer> {
    if pass.Claiming? then pass.claimed.Keys else Doomed(pass)
  }

  function VisitedBy(s: System, i: nat): set<Pointer> {
    if i in s.iterations then Visits(s.iterations[i]) else {}
  }

  function ListedBy(s: System, p: nat): set<Pointer> {
    if p in s.passes then Lists(s.passes[p]) else {}
  }

  function DoomedBy(s: System, p: nat): set<Pointer> {
    if p in s.passes then Doomed(s.passes[p]) else {}
  }

  function CommittedBy(s: System, p: nat): set<Pointer> {
    if p in s.passes then Committed(s.passes[p]) else {}
  }

  /** What the manager is looking at right now. */
  ghost predicate LookedAt(s: System, thread: Pointer) {
    || thread in s.registered
    || (exists i: nat :: thread in VisitedBy(s, i))
    || (exists p: nat :: thread in ListedBy(s, p))
  }

  ghost predicate Enabled(s: System, a: Action) {
    match a
    case Register(t, id) =>
      t !in s.registered && t !in s.automatic && t !in s.deleted
      && forall u :: u in s.registered ==> s.registered[u] != id
    case Unregister(t) => t in s.registered
    case SetManual(t, _) => t !in s.automatic
    case Enter(i) => s.holder.None? && i !in s.iterations && i !in s.owing
    case TakeSnapshot(i, _) => i in s.iterations && s.iterations[i].Entered?
    case Exit(i) => s.holder.None? && i in s.iterations
    case Request(p, payer) =>
      s.holder.None? && p !in s.passes && (payer.Some? ==> payer.value in s.owing)
    case ListThreads(p) => p in s.passes && s.passes[p].Locked?
    case Examine(p, t, _) => p in s.passes && s.passes[p].Claiming? && t in s.passes[p].snapshot
    case RemoveClaimed(p) => p in s.passes && s.passes[p].Claiming?
    case Unlock(p) => p in s.passes && s.passes[p].Removed?
    case Delete(p, t) => p in s.passes && s.passes[p].Deleting? && t in s.passes[p].doomed
    case Abandon(p) => p in s.passes
    case ApplicationDelete(t) => t !in s.automatic && t !in s.deleted && !LookedAt(s, t)
  }

  function Selected(registered: map<Pointer, Id>, only: Option<Id>): set<Pointer> {
    set t | t in registered && (only.None? || registered[t] == only.value)
  }

  function ExitIteration(s: System, i: nat): System {
    var left := if s.active > 0 then s.active - 1 else 0;
    var run := left == 0 && s.pending;
    s.(iterations := s.iterations - {i}, active := left,
    pending := s.pending && !run,
    owing := if run then s.owing + {i} else s.owing)
  }

  function RequestCleanup(s: System, p: nat, payer: Option<nat>): System {
    var paid := if payer.Some? then s.(owing := s.owing - {payer.value}) else s;
    if s.active > 0 then paid.(pending := true, debt := true)
    else paid.(holder := Some(p), passes := s.passes[p := Locked], debt := false)
  }

  function ExamineThread(s: System, p: nat, t: Pointer, eligible: bool): System
    requires p in s.passes && s.passes[p].Claiming? && t in s.passes[p].snapshot
  {
    if !eligible || t in s.automatic || t in s.manual then s
    else
      var pass := s.passes[p];
      s.(automatic := s.automatic + {t},
      passes := s.passes[p := pass.(claimed := pass.claimed[t := pass.snapshot[t]])])
  }

  /** The claimed records still registered under the same identifier. */
  function Found(registered: map<Pointer, Id>, claimed: map<Pointer, Id>): set<Pointer> {
    set t | t in claimed && t in registered && registered[t] == claimed[t]
  }

  /** One step; a step that is not possible changes nothing. */
  ghost function Step(s: System, a: Action): System {
    if !Enabled(s, a) then s
    else
      match a
      case Register(t, id) => s.(registered := s.registered[t := id])
      case Unregister(t) => s.(registered := s.registered - {t})
      case SetManual(t, held) => s.(manual := if held then s.manual + {t} else s.manual - {t})
      case Enter(i) => s.(active := s.active + 1, iterations := s.iterations[i := Entered])
      case TakeSnapshot(i, only) =>
        s.(iterations := s.iterations[i := Visiting(Selected(s.registered, only))])
      case Exit(i) => ExitIteration(s, i)
      case Request(p, payer) => RequestCleanup(s, p, payer)
      case ListThreads(p) => s.(passes := s.passes[p := Claiming(s.registered, map[])])
      case Examine(p, t, eligible) => ExamineThread(s, p, t, eligible)
      case RemoveClaimed(p) =>
        var doomed := Found(s.registered, s.passes[p].claimed);
        s.(registered := s.registered - doomed, passes := s.passes[p := Removed(doomed)])
      case Unlock(p) => s.(holder := None, passes := s.passes[p := Deleting(s.passes[p].doomed)])
      case Delete(p, t) =>
        s.(deleted := s.deleted + {t}, passes := s.passes[p := Deleting(s.passes[p].doomed - {t})])
      case Abandon(p) =>
        s.(passes := s.passes - {p}, holder := if HoldsMutex(s.passes[p]) then None else s.holder)
      case ApplicationDelete(t) => s.(deleted := s.deleted + {t})
  }

  ghost function RunFrom(s: System, actions: seq<Action>): System {
    if actions == [] then s else Step(RunFrom(s, actions[..|actions| - 1]), actions[|actions| - 1])
  }

  ghost function Run(actions: seq<Action>): System {
    RunFrom(Initial(), actions)
  }

  // ---------------------------------------------------------------- the invariant

  ghost predicate Counts(s: System) {
    s.active == |s.iterations.Keys|
  }

  ghost predicate DebtCovered(s: System) {
    && (s.pending ==> s.active > 0)
    && (s.debt ==> s.pending || s.owing != {})
  }

  ghost predicate MutexHeld(s: System) {
    && (s.holder.Some? ==>
          s.iterations.Keys == {} && s.holder.value in s.passes && HoldsMutex(s.passes[s.holder.value]))
    && forall p :: p in s.passes && HoldsMutex(s.passes[p]) ==> s.holder == Some(p)
  }

  /** Every commitment rests on a claim won, and no two passes share one. */
  ghost predicate Exclusive(s: System) {
    && (forall p: nat :: CommittedBy(s, p) <= s.automatic)
    && forall p: nat, q: nat :: p != q ==> CommittedBy(s, p) !! CommittedBy(s, q)
  }

  /** Nothing deleted is registered, visited, listed or committed to. */
  ghost predicate Live(s: System) {
    && s.registered.Keys !! s.deleted
    && (forall i: nat :: VisitedBy(s, i) !! s.deleted)
    && (forall p: nat :: ListedBy(s, p) !! s.deleted)
    && forall p: nat :: CommittedBy(s, p) !! s.deleted
  }

  /** Nothing awaiting deletion is registered, visited or listed. */
  ghost predicate Unseen(s: System) {
    && (forall p: nat :: DoomedBy(s, p) !! s.registered.Keys)
    && (forall p: nat, i: nat :: DoomedBy(s, p) !! VisitedBy(s, i))
    && forall p: nat, q: nat :: DoomedBy(s, p) !! ListedBy(s, q)
  }

  ghost predicate Inv(s: System) {
    Counts(s) && DebtCovered(s) && MutexHeld(s) && Exclusive(s) && Live(s) && Unseen(s)
  }

  // What one step can add to each set.

  /** The claim a step wins for a pass: on an eligible thread, claimed by nobody. */
  function Won(s: System, a: Action, p: nat): set<Pointer> {
    if a.Examine? && a.pass == p && a.eligible
       && a.thread in ListedBy(s, p) && a.thread !in s.automatic && a.thread !in s.manual
    then {a.thread} else {}
  }

  /** The threads a step takes out of the registry for a pass. */
  function Settled(s: System, a: Action, p: nat): set<Pointer> {
    if a == RemoveClaimed(p) && p in s.passes && s.passes[p].Claiming?
    then Found(s.registered, s.passes[p].claimed) else {}
  }

  /** The threads a step puts in front of an iteration or a pass. */
  function Shown(s: System, shows: bool): set<Pointer> {
    if shows then s.registered.Keys else {}
  }

  /** The thread a step deletes. */
  ghost function Deleted(s: System, a: Action): set<Pointer> {
    if (a.Delete? || a.ApplicationDelete?) && Enabled(s, a) then {a.thread} else {}
  }

  lemma CommitmentsGrow(s: System, a: Action, p: nat)
    ensures CommittedBy(Step(s, a), p) <= CommittedBy(s, p) + Won(s, a, p)
    ensures a.Delete? && a.pass == p && Enabled(s, a) ==> a.thread !in CommittedBy(Step(s, a), p)
  {
  }

  lemma DoomGrows(s: System, a: Action, p: nat)
    ensures DoomedBy(Step(s, a), p) <= DoomedBy(s, p) + Settled(s, a, p)
    ensures DoomedBy(s, p) <= CommittedBy(s, p) && Settled(s, a, p) <= CommittedBy(s, p)
  {
  }

  lemma ListsGrow(s: System, a: Action, p: nat)
    ensures ListedBy(Step(s, a), p) <= ListedBy(s, p) + Shown(s, a == ListThreads(p))
  {
  }

  lemma VisitsGrow(s: System, a: Action, i: nat)
    ensures VisitedBy(Step(s, a), i) <= VisitedBy(s, i) + Shown(s, a.TakeSnapshot? && a.iteration == i)
  {
  }

  lemma RegistryGrows(s: System, a: Action, p: nat)
    ensures Step(s, a).registered.Keys
         <= s.registered.Keys + if a.Register? && Enabled(s, a) then {a.thread} else {}
    ensures Step(s, a).registered.Keys !! Settled(s, a, p)
  {
  }

  lemma ClaimsAndDeletionsGrow(s: System, a: Action, p: nat)
    ensures s.automatic <= Step(s, a).automatic
    ensures a.Examine? && CommittedBy(Step(s, a), p) != CommittedBy(s, p) ==> a.thread in Step(s, a).automatic
    ensures Step(s, a).deleted == s.deleted + Deleted(s, a)
  {
  }

  lemma OneMoreIteration(m: map<nat, Iteration>, i: nat, it: Iteration)
    ensures |m[i := it].Keys| == |m.Keys| + if i in m then 0 else 1
    ensures |(m - {i}).Keys| == |m.Keys| - if i in m then 1 else 0
  {
    assert m[i := it].Keys == m.Keys + {i};
    assert (m - {i}).Keys == m.Keys - {i};
  }

  lemma OtherStepsKeepIterations(s: System, a: Action)
    requires !a.Enter? && !a.TakeSnapshot? && !a.Exit?
    ensures Step(s, a).iterations == s.iterations && Step(s, a).active == s.active
  {
  }

  lemma IterationStepKeepsCounts(s: System, a: Action)
    requires Counts(s) && Enabled(s, a) && (a.Enter? || a.TakeSnapshot? || a.Exit?)
    ensures Counts(Step(s, a))
  {
    OneMoreIteration(s.iterations, a.iteration, if a.Enter? then Entered else
      Visiting(Selected(s.registered, if a.TakeSnapshot? then a.only else None)));
  }

  lemma StepKeepsCounts(s: System, a: Action)
    requires Counts(s)
    ensures Counts(Step(s, a))
  {
    if !a.Enter? && !a.TakeSnapshot? && !a.Exit? {
      OtherStepsKeepIterations(s, a);
    } else if Enabled(s, a) {
      IterationStepKeepsCounts(s, a);
    }
  }

  lemma StepKeepsDebtCovered(s: System, a: Action)
    requires DebtCovered(s)
    ensures DebtCovered(Step(s, a))
  {
    if a.Exit? && Step(s, a).owing != s.owing {
      assert a.iteration in Step(s, a).owing;
    }
  }

  lemma RequestKeepsMutexHeld(s: System, p: nat, payer: Option<nat>)
    requires Counts(s) && MutexHeld(s) && s.holder.None? && p !in s.passes
    ensures MutexHeld(RequestCleanup(s, p, payer))
  {
  }

  lemma StepKeepsMutexHeld(s: System, a: Action)
    requires Counts(s) && MutexHeld(s)
    ensures MutexHeld(Step(s, a))
  {
    if a.Request? && Enabled(s, a) {
      RequestKeepsMutexHeld(s, a.pass, a.payer);
    }
  }

  lemma StepKeepsExclusive(s: System, a: Action, n: System)
    requires Exclusive(s) && n == Step(s, a)
    ensures Exclusive(n)
  {
    forall p: nat
      ensures CommittedBy(n, p) <= n.automatic
    {
      CommitmentsGrow(s, a, p);
      ClaimsAndDeletionsGrow(s, a, p);
    }
    forall p: nat, q: nat | p != q
      ensures CommittedBy(n, p) !! CommittedBy(n, q)
    {
      CommitmentsGrow(s, a, p);
      CommitmentsGrow(s, a, q);
    }
  }

  /** What is deleted is committed to by the deleting pass alone, or to nobody and out of sight. */
  lemma DeletedIsUnseen(s: System, a: Action, p: nat)
    requires Exclusive(s) && Unseen(s)
    ensures Deleted(s, a) !! s.registered.Keys
    ensures Deleted(s, a) !! VisitedBy(s, p) && Deleted(s, a) !! ListedBy(s, p)
    ensures !(a.Delete? && a.pass == p) ==> Deleted(s, a) !! CommittedBy(s, p)
  {
    if a.Delete? && Enabled(s, a) {
      assert a.thread in DoomedBy(s, a.pass) && a.thread in CommittedBy(s, a.pass);
    }
  }

  lemma StepKeepsLive(s: System, a: Action, n: System)
    requires Exclusive(s) && Live(s) && Unseen(s) && n == Step(s, a)
    ensures Live(n)
  {
    RegistryGrows(s, a, 0);
    ClaimsAndDeletionsGrow(s, a, 0);
    DeletedIsUnseen(s, a, 0);
    forall p: nat
      ensures VisitedBy(n, p) !! n.deleted && ListedBy(n, p) !! n.deleted && CommittedBy(n, p) !! n.deleted
    {
      VisitsGrow(s, a, p);
      ListsGrow(s, a, p);
      CommitmentsGrow(s, a, p);
      DeletedIsUnseen(s, a, p);
    }
  }

  /** While a pass settles the registry it holds the mutex: no iteration is live and no other pass lists threads. */
  lemma SettlesAlone(s: System, a: Action, p: nat, q: nat)
    requires MutexHeld(s)
    ensures Settled(s, a, p) != {} ==> VisitedBy(s, q) == {} && VisitedBy(Step(s, a), q) == {}
    ensures Settled(s, a, p) != {} ==> ListedBy(Step(s, a), q) == {}
  {
    if Settled(s, a, p) != {} {
      assert HoldsMutex(s.passes[p]) && s.holder == Some(p);
      assert q in s.passes && HoldsMutex(s.passes[q]) ==> q == p;
    }
  }

  lemma StepKeepsUnseen(s: System, a: Action, n: System)
    requires MutexHeld(s) && Exclusive(s) && Unseen(s) && n == Step(s, a)
    ensures Unseen(n)
  {
    forall p: nat
      ensures DoomedBy(n, p) !! n.registered.Keys
    {
      DoomGrows(s, a, p);
      RegistryGrows(s, a, p);
    }
    forall p: nat, q: nat
      ensures DoomedBy(n, p) !! VisitedBy(n, q) && DoomedBy(n, p) !! ListedBy(n, q)
    {
      DoomGrows(s, a, p);
      VisitsGrow(s, a, q);
      ListsGrow(s, a, q);
      SettlesAlone(s, a, p, q);
    }
  }

  lemma StepKeepsInv(s: System, a: Action)
    requires Inv(s)
    ensures Inv(Step(s, a))
  {
    StepKeepsCounts(s, a);
    StepKeepsDebtCovered(s, a);
    StepKeepsMutexHeld(s, a);
    StepKeepsExclusive(s, a, Step(s, a));
    StepKeepsLive(s, a, Step(s, a));
    StepKeepsUnseen(s, a, Step(s, a));
  }

  lemma {:induction false} RunKeepsInv(s: System, actions: seq<Action>, after: System)
    requires Inv(s) && after == RunFrom(s, actions)
    ensures Inv(after)
  {
    if actions != [] {
      var before := RunFrom(s, actions[..|actions| - 1]);
      RunKeepsInv(s, actions[..|actions| - 1], before);
      StepKeepsInv(before, actions[|actions| - 1]);
    }
  }

  lemma ReachableInv(actions: seq<Action>, s: System)
    requires s == Run(actions)
    ensures Inv(s)
  {
    RunKeepsInv(Initial(), actions, s);
  }

  // ---------------------------------------------------------------- what pinning guarantees

  /**
   * In every run, a thread a pass is about to delete has not been deleted, is not registered, and is in the
   * snapshot of no live iteration and of no other pass, although the pass no longer holds the mutex.
   */
  lemma DeletionIsSafe(actions: seq<Action>, s: System, p: nat, t: Pointer)
    requires s == Run(actions) && Enabled(s, Delete(p, t))
    ensures t !in s.deleted && t !in s.registered && t in s.automatic
    ensures forall i: nat :: t !in VisitedBy(s, i)
    ensures forall q: nat :: t !in ListedBy(s, q)
    ensures forall q: nat :: q != p ==> t !in CommittedBy(s, q)
  {
    ReachableInv(actions, s);
    assert t in DoomedBy(s, p) && t in CommittedBy(s, p);
  }

  /** Everything an iteration visits or a pass examines is still alive. */
  lemma VisitedThreadsAreAlive(actions: seq<Action>, s: System, t: Pointer)
    requires s == Run(actions) && LookedAt(s, t)
    ensures t !in s.deleted
  {
    ReachableInv(actions, s);
  }

  ghost predicate Deletes(s: System, a: Action, t: Pointer) {
    Enabled(s, a) && ((a.Delete? && a.thread == t) || a == ApplicationDelete(t))
  }

  ghost function Deletions(actions: seq<Action>, t: Pointer): nat {
    if actions == [] then 0
    else
      var before := Run(actions[..|actions| - 1]);
      Deletions(actions[..|actions| - 1], t) + if Deletes(before, actions[|actions| - 1], t) then 1 else 0
  }

  lemma DeletedGrowsByDeletes(s: System, a: Action, t: Pointer)
    ensures t in Step(s, a).deleted <==> t in s.deleted || Deletes(s, a, t)
  {
  }

  /** Over a whole run each thread is deleted at most once, by a pass or by the application. */
  lemma {:induction false} DeletedAtMostOnce(actions: seq<Action>, s: System, t: Pointer)
    requires s == Run(actions)
    ensures Deletions(actions, t) == if t in s.deleted then 1 else 0
  {
    if actions != [] {
      var front, a := actions[..|actions| - 1], actions[|actions| - 1];
      var before := Run(front);
      DeletedAtMostOnce(front, before, t);
      if Deletes(before, a, t) && a.Delete? {
        DeletionIsSafe(front, before, a.pass, t);
      }
      DeletedGrowsByDeletes(before, a, t);
    }
  }

  /** The count is the number of live guards, and a pending request implies one of them. */
  lemma ActiveCountsGuards(actions: seq<Action>, s: System)
    requires s == Run(actions)
    ensures s.active == |s.iterations.Keys|
    ensures s.pending ==> s.iterations.Keys != {}
  {
    ReachableInv(actions, s);
  }

  // ---------------------------------------------------------------- manual ownership

  lemma StepKeepsManual(s: System, a: Action, n: System, t: Pointer)
    requires n == Step(s, a) && t in s.manual && t !in s.automatic && a != SetManual(t, false)
    ensures t in n.manual && t !in n.automatic
  {
  }

  lemma {:induction false} RunKeepsManual(s: System, later: seq<Action>, after: System, t: Pointer)
    requires after == RunFrom(s, later) && t in s.manual && t !in s.automatic
    requires forall i :: 0 <= i < |later| ==> later[i] != SetManual(t, false)
    ensures t in after.manual && t !in after.automatic
  {
    if later != [] {
      var before := RunFrom(s, later[..|later| - 1]);
      RunKeepsManual(s, later[..|later| - 1], before, t);
      StepKeepsManual(before, later[|later| - 1], after, t);
    }
  }

  lemma UncommittedIsLeftAlone(s: System, p: nat, t: Pointer)
    requires t !in CommittedBy(s, p)
    ensures !Enabled(s, Delete(p, t))
    ensures t in s.registered ==> t in Step(s, RemoveClaimed(p)).registered
  {
  }

  /**
   * A thread the application has claimed before any pass did is never deleted by a pass, nor taken out of the
   * registry by one, as long as the application does not return the claim.
   */
  lemma ManualOwnershipExcludesCleanup(earlier: seq<Action>, s: System, later: seq<Action>, after: System,
                                       t: Pointer, p: nat)
    requires s == Run(earlier) && t in s.manual && t !in s.automatic
    requires after == RunFrom(s, later) && forall i :: 0 <= i < |later| ==> later[i] != SetManual(t, false)
    ensures t !in CommittedBy(after, p)
    ensures !Enabled(after, Delete(p, t))
    ensures t in after.registered ==> t in Step(after, RemoveClaimed(p)).registered
  {
    ReachableInv(earlier, s);
    RunKeepsInv(s, later, after);
    RunKeepsManual(s, later, after, t);
    assert CommittedBy(after, p) <= after.automatic;
    UncommittedIsLeftAlone(after, p, t);
  }

  // ---------------------------------------------------------------- deferred cleanup

  /** A cleanup request that finds an active iteration. */
  ghost predicate IsDeferral(s: System, a: Action) {
    a.Request? && Enabled(s, a) && s.active > 0
  }

  /** A cleanup request that starts a pass. */
  ghost predicate IsPass(s: System, a: Action) {
    a.Request? && Enabled(s, a) && s.active == 0
  }

  lemma StepMovesDebt(s: System, a: Action)
    ensures Step(s, a).debt == (if IsDeferral(s, a) then true else if IsPass(s, a) then false else s.debt)
  {
  }

  /** Some action of a run starts a pass. */
  ghost predicate PassStarts(s: System, actions: seq<Action>) {
    actions != [] &&
    (PassStarts(s, actions[..|actions| - 1]) ||
     IsPass(RunFrom(s, actions[..|actions| - 1]), actions[|actions| - 1]))
  }

  lemma {:induction false} DebtLastsUntilPass(s: System, actions: seq<Action>, after: System)
    requires s.debt && after == RunFrom(s, actions) && !PassStarts(s, actions)
    ensures after.debt
  {
    if actions != [] {
      var before := RunFrom(s, actions[..|actions| - 1]);
      DebtLastsUntilPass(s, actions[..|actions| - 1], before);
      StepMovesDebt(before, actions[|actions| - 1]);
    }
  }

  /**
   * A deferred cleanup is never lost: whatever happens after the deferral, once no iteration is live and none
   * that ended still owes its call, a pass has been started since.
   */
  lemma DeferredCleanupRuns(earlier: seq<Action>, request: Action, later: seq<Action>, s: System)
    requires IsDeferral(Run(earlier), request)
    requires s == RunFrom(Step(Run(earlier), request), later)
    requires s.iterations.Keys == {} && s.owing == {}
    ensures PassStarts(Step(Run(earlier), request), later)
  {
    var deferred := Step(Run(earlier), request);
    ReachableInv(earlier, Run(earlier));
    StepKeepsInv(Run(earlier), request);
    RunKeepsInv(deferred, later, s);
    StepMovesDebt(Run(earlier), request);
    if !PassStarts(deferred, later) {
      DebtLastsUntilPass(deferred, later, s);
    }
  }
}
