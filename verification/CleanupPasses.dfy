/**
 * What passes and iterations achieve, beside being safe: a pass claims and deletes eligible threads and no others,
 * and an iteration visits the registered threads it is meant for.
 */
module CleanupPasses {
  import opened Foundations
  import opened ThreadRegistry
  import opened IterationPinning

  // ---------------------------------------------------------------- only eligible threads are deleted

  /** The step by which a pass wins a claim: it examines a listed, eligible thread that nobody has claimed. */
  ghost predicate WinsAt(actions: seq<Action>, i: nat, p: nat, t: Pointer) {
    && i < |actions| && actions[i] == Examine(p, t, true)
    && var before := Run(actions[..i]);
       Enabled(before, actions[i]) && t !in before.automatic && t !in before.manual
  }

  lemma {:induction false} CommitmentWasWon(actions: seq<Action>, s: System, p: nat, t: Pointer) returns (i: nat)
    requires s == Run(actions) && t in CommittedBy(s, p)
    ensures WinsAt(actions, i, p, t)
  {
    i := 0;
    if actions != [] {
      var front, last := actions[..|actions| - 1], actions[|actions| - 1];
      var before := Run(front);
      CommitmentsGrow(before, last, p);
      if t in CommittedBy(before, p) {
        i := CommitmentWasWon(front, before, p, t);
        assert actions[..i] == front[..i];
      } else {
        i := |actions| - 1;
      }
    }
  }

  /** Over every run: what a pass can delete was eligible, and claimed by nobody, when the pass examined it. */
  lemma OnlyEligibleIsDeleted(actions: seq<Action>, s: System, p: nat, t: Pointer) returns (i: nat)
    requires s == Run(actions) && Enabled(s, Delete(p, t))
    ensures WinsAt(actions, i, p, t)
  {
    i := CommitmentWasWon(actions, s, p, t);
  }

  // ---------------------------------------------------------------- and every eligible thread can be

  /** The pass holds the claim it won, for the identifier it saw. */
  ghost predicate HoldsClaim(s: System, p: nat, t: Pointer, id: Id) {
    p in s.passes && s.passes[p].Claiming? && t in s.passes[p].claimed && s.passes[p].claimed[t] == id
  }

  lemma ExamineWins(s: System, p: nat, t: Pointer, n: System)
    requires Enabled(s, Examine(p, t, true)) && t !in s.automatic && t !in s.manual && n == Step(s, Examine(p, t, true))
    ensures HoldsClaim(n, p, t, s.passes[p].snapshot[t]) && t in n.automatic
  {
  }

  lemma ClaimLasts(s: System, a: Action, n: System, p: nat, t: Pointer, id: Id)
    requires n == Step(s, a) && HoldsClaim(s, p, t, id) && a != Abandon(p) && a != RemoveClaimed(p)
    requires t in s.automatic
    ensures HoldsClaim(n, p, t, id) && t in n.automatic
  {
  }

  lemma {:induction false} ClaimLastsRun(s: System, later: seq<Action>, after: System, p: nat, t: Pointer, id: Id)
    requires after == RunFrom(s, later) && HoldsClaim(s, p, t, id) && t in s.automatic
    requires forall i :: 0 <= i < |later| ==> later[i] != Abandon(p) && later[i] != RemoveClaimed(p)
    ensures HoldsClaim(after, p, t, id) && t in after.automatic
  {
    if later != [] {
      var before := RunFrom(s, later[..|later| - 1]);
      ClaimLastsRun(s, later[..|later| - 1], before, p, t, id);
      ClaimLasts(before, later[|later| - 1], after, p, t, id);
    }
  }

  /** The pass has taken the thread out of the registry and still holds the mutex. */
  ghost predicate HasTaken(s: System, p: nat, t: Pointer) {
    p in s.passes && s.passes[p].Removed? && t in s.passes[p].doomed
  }

  lemma RemovalTakes(s: System, p: nat, t: Pointer, id: Id, n: System)
    requires HoldsClaim(s, p, t, id) && t in s.registered && s.registered[t] == id && n == Step(s, RemoveClaimed(p))
    ensures HasTaken(n, p, t) && t !in n.registered
  {
  }

  /** The removal takes a claimed thread that is registered as the pass saw it, and leaves every other one. */
  lemma RemovalIsExact(s: System, p: nat, t: Pointer, n: System)
    requires Enabled(s, RemoveClaimed(p)) && t in s.registered && n == Step(s, RemoveClaimed(p))
    ensures t !in n.registered <==> t in s.passes[p].claimed && s.passes[p].claimed[t] == s.registered[t]
    ensures t in n.registered <==> t !in DoomedBy(n, p)
    ensures t in n.registered ==> n.registered[t] == s.registered[t]
  {
  }

  lemma TakenLasts(s: System, a: Action, n: System, p: nat, t: Pointer)
    requires n == Step(s, a) && HasTaken(s, p, t) && a != Abandon(p) && a != Unlock(p)
    ensures HasTaken(n, p, t)
  {
  }

  lemma {:induction false} TakenLastsRun(s: System, later: seq<Action>, after: System, p: nat, t: Pointer)
    requires after == RunFrom(s, later) && HasTaken(s, p, t)
    requires forall i :: 0 <= i < |later| ==> later[i] != Abandon(p) && later[i] != Unlock(p)
    ensures HasTaken(after, p, t)
  {
    if later != [] {
      var before := RunFrom(s, later[..|later| - 1]);
      TakenLastsRun(s, later[..|later| - 1], before, p, t);
      TakenLasts(before, later[|later| - 1], after, p, t);
    }
  }

  lemma UnlockAllowsDeletion(s: System, p: nat, t: Pointer, n: System)
    requires HasTaken(s, p, t) && n == Step(s, Unlock(p))
    ensures Enabled(n, Delete(p, t)) && t in Step(n, Delete(p, t)).deleted && n.holder.None?
  {
  }

  /**
   * Whatever others do meanwhile: a pass that examines an eligible thread nobody has claimed, and finds it registered
   * as it saw it when it settles the registry, takes it out and can delete it once it has released the mutex.
   */
  lemma EligibleIsDeleted(s: System, p: nat, t: Pointer, first: seq<Action>, settling: System,
                          second: seq<Action>, unlocking: System)
    requires Enabled(s, Examine(p, t, true)) && t !in s.automatic && t !in s.manual
    requires settling == RunFrom(Step(s, Examine(p, t, true)), first)
    requires forall i :: 0 <= i < |first| ==> first[i] != Abandon(p) && first[i] != RemoveClaimed(p)
    requires t in settling.registered && settling.registered[t] == s.passes[p].snapshot[t]
    requires unlocking == RunFrom(Step(settling, RemoveClaimed(p)), second)
    requires forall i :: 0 <= i < |second| ==> second[i] != Abandon(p) && second[i] != Unlock(p)
    ensures t !in Step(settling, RemoveClaimed(p)).registered
    ensures Enabled(Step(unlocking, Unlock(p)), Delete(p, t))
    ensures t in Step(Step(unlocking, Unlock(p)), Delete(p, t)).deleted
  {
    var examined := Step(s, Examine(p, t, true));
    ExamineWins(s, p, t, examined);
    ClaimLastsRun(examined, first, settling, p, t, s.passes[p].snapshot[t]);
    var removed := Step(settling, RemoveClaimed(p));
    RemovalTakes(settling, p, t, s.passes[p].snapshot[t], removed);
    TakenLastsRun(removed, second, unlocking, p, t);
    UnlockAllowsDeletion(unlocking, p, t, Step(unlocking, Unlock(p)));
  }

  /** A request that finds no iteration starts a pass, which lists every registered thread with its identifier. */
  lemma PassListsRegistered(s: System, p: nat, payer: Option<nat>, started: System, listed: System)
    requires Enabled(s, Request(p, payer)) && s.active == 0
    requires started == Step(s, Request(p, payer)) && listed == Step(started, ListThreads(p))
    ensures started.holder == Some(p) && started.registered == s.registered
    ensures p in listed.passes && listed.passes[p] == Claiming(s.registered, map[])
    ensures listed.registered == s.registered && listed.automatic == s.automatic && listed.manual == s.manual
  {
  }

  lemma ExamineKeepsRegistry(s: System, p: nat, t: Pointer, eligible: bool, n: System)
    requires n == Step(s, Examine(p, t, eligible))
    ensures n.registered == s.registered
  {
  }

  lemma UnlockKeepsRegistry(s: System, p: nat, n: System)
    requires n == Step(s, Unlock(p))
    ensures n.registered == s.registered
  {
  }

  lemma NothingClaimedNothingTaken(listed: System, p: nat, t: Pointer, examined: System, removed: System,
                                   unlocked: System)
    requires p in listed.passes && listed.passes[p].Claiming? && listed.passes[p].claimed == map[]
    requires t in listed.registered && examined == Step(listed, Examine(p, t, false))
    requires removed == Step(examined, RemoveClaimed(p)) && unlocked == Step(removed, Unlock(p))
    ensures t in unlocked.registered && !Enabled(unlocked, Delete(p, t))
  {
    assert examined == listed;
    assert removed.passes[p] == Removed({});
  }

  /** So with the mutex free and no iteration active, a registered thread nobody has claimed is deleted if eligible. */
  lemma CleanUpDeletes(s: System, p: nat, t: Pointer, eligible: bool) returns (pass: seq<Action>, unlocked: System)
    requires Enabled(s, Request(p, None)) && s.active == 0
    requires t in s.registered && t !in s.automatic && t !in s.manual
    ensures pass == [Request(p, None), ListThreads(p), Examine(p, t, eligible), RemoveClaimed(p), Unlock(p)]
    ensures unlocked == Step(Step(Step(Step(Step(s, pass[0]), pass[1]), pass[2]), pass[3]), pass[4])
    ensures Enabled(unlocked, Delete(p, t)) <==> eligible
    ensures t in unlocked.registered <==> !eligible
    ensures eligible ==> t in Step(unlocked, Delete(p, t)).deleted
  {
    pass := [Request(p, None), ListThreads(p), Examine(p, t, eligible), RemoveClaimed(p), Unlock(p)];
    var started := Step(s, pass[0]);
    var listed := Step(started, pass[1]);
    var examined := Step(listed, pass[2]);
    var removed := Step(examined, pass[3]);
    unlocked := Step(removed, pass[4]);
    PassListsRegistered(s, p, None, started, listed);
    if eligible {
      ExamineWins(listed, p, t, examined);
      ExamineKeepsRegistry(listed, p, t, true, examined);
      RemovalTakes(examined, p, t, s.registered[t], removed);
      UnlockAllowsDeletion(removed, p, t, unlocked);
      UnlockKeepsRegistry(removed, p, unlocked);
    } else {
      NothingClaimedNothingTaken(listed, p, t, examined, removed, unlocked);
    }
  }

  // ---------------------------------------------------------------- what iterations visit

  ghost predicate DistinctIds(s: System) {
    forall t, u :: t in s.registered && u in s.registered && s.registered[t] == s.registered[u] ==> t == u
  }

  lemma StepKeepsDistinctIds(s: System, a: Action, n: System)
    requires DistinctIds(s) && n == Step(s, a)
    ensures DistinctIds(n)
  {
  }

  lemma {:induction false} ReachableDistinctIds(actions: seq<Action>, s: System)
    requires s == Run(actions)
    ensures DistinctIds(s)
  {
    if actions != [] {
      var before := Run(actions[..|actions| - 1]);
      ReachableDistinctIds(actions[..|actions| - 1], before);
      StepKeepsDistinctIds(before, actions[|actions| - 1], s);
    }
  }

  /**
   * ForEachThread visits every registered thread and no other. WithThread visits one that carries the identifier,
   * and nobody if none does.
   */
  lemma IterationVisitsRegistered(actions: seq<Action>, s: System, i: nat, only: Option<Id>, n: System, t: Pointer)
    requires s == Run(actions) && Enabled(s, Enter(i)) && n == Step(Step(s, Enter(i)), TakeSnapshot(i, only))
    ensures n.active == s.active + 1 && n.registered == s.registered
    ensures only.None? ==> VisitedBy(n, i) == s.registered.Keys
    ensures only.Some? && t in s.registered && s.registered[t] == only.value ==> VisitedBy(n, i) == {t}
    ensures only.Some? && (forall u :: u in s.registered ==> s.registered[u] != only.value) ==> VisitedBy(n, i) == {}
  {
    ReachableDistinctIds(actions, s);
  }

  /** A snapshot lasts until the iteration ends, whatever is registered or removed meanwhile. */
  lemma SnapshotLasts(s: System, a: Action, n: System, i: nat)
    requires n == Step(s, a) && i in s.iterations && s.iterations[i].Visiting? && a != Exit(i)
    ensures VisitedBy(n, i) == VisitedBy(s, i)
  {
  }

  /** What the application and the passes announce shows at once, and nothing else changes. */
  lemma CallsShow(s: System, t: Pointer, id: Id, p: nat)
    ensures Enabled(s, Register(t, id)) ==> Step(s, Register(t, id)) == s.(registered := s.registered[t := id])
    ensures t in s.registered ==> Step(s, Unregister(t)) == s.(registered := s.registered - {t})
    ensures t !in s.automatic ==> t in Step(s, SetManual(t, true)).manual && t !in Step(s, SetManual(t, false)).manual
    ensures p !in Step(s, Abandon(p)).passes
  {
  }

  /** An ended iteration that calls CleanUp owes it no longer, whether the call is deferred again or not. */
  lemma CallIsPaid(s: System, p: nat, i: nat)
    requires Enabled(s, Request(p, Some(i)))
    ensures i in s.owing && i !in Step(s, Request(p, Some(i))).owing
  {
  }
}
