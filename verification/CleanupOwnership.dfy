/**
 * Who may delete a Thread: the cleanup claim, over every interleaving of the single loads, stores and
 * compare-exchanges of Shutdown, SetFreeOnTerminate and TryClaimAutomaticCleanup.
 */
module CleanupOwnership {

  datatype Claim = Available | Manual | Automatic

  /** Where one caller stands between two atomic operations. */
  datatype Call =
    | ShutdownClaim            // Shutdown's first compare-exchange
    | StoreFree(value: bool)   // SetFreeOnTerminate, also as called by Shutdown
    | ExchangeFree(value: bool)
    | LoadFree                 // TryClaimAutomaticCleanup
    | LoadState
    | ExchangeAutomatic

  /** The compare-exchanges that succeeded, in order. */
  datatype Event = ManualWon | Returned | AutomaticWon

  datatype System = System(
    claim: Claim,
    free: bool,                // _freeOnTerminate
    terminated: bool,
    calls: map<nat, Call>,
    events: seq<Event>)

  datatype Action =
    | Begin(caller: nat, call: Call)
    | Advance(caller: nat)
    | ChangeState(terminated: bool)

  function Initial(): System {
    System(Available, false, false, map[], [])
  }

  predicate IsEntry(call: Call) {
    call.ShutdownClaim? || call.StoreFree? || call.LoadFree?
  }

  function Next(s: System, caller: nat, call: Call): System {
    s.(calls := s.calls[caller := call])
  }

  function Done(s: System, caller: nat): System {
    s.(calls := s.calls - {caller})
  }

  /** compare_exchange_strong from expected to desired. */
  function Exchange(s: System, expected: Claim, desired: Claim, event: Event): System {
    if s.claim == expected then s.(claim := desired, events := s.events + [event]) else s
  }

  function Advanced(s: System, caller: nat): System
    requires caller in s.calls
  {
    match s.calls[caller]
    case ShutdownClaim => Next(Exchange(s, Available, Manual, ManualWon), caller, StoreFree(false))
    case StoreFree(value) => Next(s.(free := value), caller, ExchangeFree(value))
    case ExchangeFree(true) => Done(Exchange(s, Manual, Available, Returned), caller)
    case ExchangeFree(false) => Done(Exchange(s, Available, Manual, ManualWon), caller)
    case LoadFree => if s.free then Next(s, caller, LoadState) else Done(s, caller)
    case LoadState => if s.terminated then Next(s, caller, ExchangeAutomatic) else Done(s, caller)
    case ExchangeAutomatic => Done(Exchange(s, Available, Automatic, AutomaticWon), caller)
  }

  /** One step; a step that is not possible changes nothing. */
  function Step(s: System, action: Action): System {
    match action
    case Begin(caller, call) =>
      if caller in s.calls || !IsEntry(call) then s else Next(s, caller, call)
    case Advance(caller) => if caller in s.calls then Advanced(s, caller) else s
    case ChangeState(terminated) => s.(terminated := terminated)
  }

  function RunFrom(s: System, actions: seq<Action>): System {
    if actions == [] then s else Step(RunFrom(s, actions[..|actions| - 1]), actions[|actions| - 1])
  }

  // ---------------------------------------------------------------- the events form an ownership history

  /** The claim an event leaves behind. */
  function Leaves(event: Event): Claim {
    match event
    case ManualWon => Manual
    case Returned => Available
    case AutomaticWon => Automatic
  }

  predicate MayFollow(claim: Claim, event: Event) {
    if event.Returned? then claim == Manual else claim == Available
  }

  ghost predicate Ownership(s: System) {
    && s.claim == (if s.events == [] then Available else Leaves(s.events[|s.events| - 1]))
    && (s.events != [] ==> MayFollow(Available, s.events[0]))
    && forall i, j :: 0 <= i < j < |s.events| && j == i + 1 ==> MayFollow(Leaves(s.events[i]), s.events[j])
  }

  lemma ExchangeKeepsOwnership(s: System, expected: Claim, desired: Claim, event: Event)
    requires Ownership(s) && Leaves(event) == desired && MayFollow(expected, event)
    ensures Ownership(Exchange(s, expected, desired, event))
  {
    if s.claim == expected && s.events != [] {
      assert s.events[|s.events| - 1] == (s.events + [event])[|s.events| - 1];
    }
  }

  /** A step changes the claim and the events only by one of three compare-exchanges. */
  lemma StepExchanges(s: System, action: Action)
    ensures var n := Step(s, action);
            || (n.claim == s.claim && n.events == s.events)
            || (n.claim == Exchange(s, Available, Manual, ManualWon).claim
                && n.events == Exchange(s, Available, Manual, ManualWon).events)
            || (n.claim == Exchange(s, Manual, Available, Returned).claim
                && n.events == Exchange(s, Manual, Available, Returned).events)
            || (n.claim == Exchange(s, Available, Automatic, AutomaticWon).claim
                && n.events == Exchange(s, Available, Automatic, AutomaticWon).events)
  {
  }

  lemma StepKeepsOwnership(s: System, action: Action)
    requires Ownership(s)
    ensures Ownership(Step(s, action))
  {
    if action.Advance? && action.caller in s.calls {
      ExchangeKeepsOwnership(s, Available, Manual, ManualWon);
      ExchangeKeepsOwnership(s, Manual, Available, Returned);
      ExchangeKeepsOwnership(s, Available, Automatic, AutomaticWon);
    }
    StepExchanges(s, action);
  }

  lemma {:induction false} RunKeepsOwnership(actions: seq<Action>, s: System)
    requires s == RunFrom(Initial(), actions)
    ensures Ownership(s)
  {
    if actions != [] {
      var before := RunFrom(Initial(), actions[..|actions| - 1]);
      RunKeepsOwnership(actions[..|actions| - 1], before);
      StepKeepsOwnership(before, actions[|actions| - 1]);
    }
  }

  lemma NothingFollowsAutomatic(s: System, i: nat)
    requires Ownership(s) && i + 1 < |s.events|
    ensures s.events[i] != AutomaticWon
  {
    assert MayFollow(Leaves(s.events[i]), s.events[i + 1]);
  }

  /** At most one automatic claim is ever won, and Automatic is never left. */
  lemma AutomaticIsWonOnceAndKept(actions: seq<Action>, s: System, i: nat)
    requires s == RunFrom(Initial(), actions)
    requires i < |s.events| && s.events[i] == AutomaticWon
    ensures i == |s.events| - 1 && s.claim == Automatic
    ensures forall j :: 0 <= j < i ==> s.events[j] != AutomaticWon
  {
    RunKeepsOwnership(actions, s);
    forall j | 0 <= j < |s.events| - 1
      ensures s.events[j] != AutomaticWon
    {
      NothingFollowsAutomatic(s, j);
    }
  }

  /** After a manual claim an automatic one is won only if the claim was first returned. */
  lemma ManualExcludesAutomatic(actions: seq<Action>, s: System, i: nat, j: nat)
    requires s == RunFrom(Initial(), actions)
    requires i < j < |s.events| && s.events[i] == ManualWon && s.events[j] == AutomaticWon
    ensures i + 1 < j && s.events[i + 1] == Returned
  {
    RunKeepsOwnership(actions, s);
    assert MayFollow(Leaves(s.events[i]), s.events[i + 1]);
  }

  // ---------------------------------------------------------------- manual ownership is settled by Shutdown

  /** Nobody is inside, or about to enter, SetFreeOnTerminate(true). */
  ghost predicate NoRelease(s: System) {
    forall c :: c in s.calls ==> s.calls[c] != StoreFree(true) && s.calls[c] != ExchangeFree(true)
  }

  ghost predicate NoReleaseBegins(actions: seq<Action>) {
    forall i :: 0 <= i < |actions| ==> !(actions[i].Begin? && actions[i].call == StoreFree(true))
  }

  lemma NoReleaseStep(s: System, action: Action)
    requires NoRelease(s) && !(action.Begin? && action.call == StoreFree(true))
    ensures NoRelease(Step(s, action))
    ensures s.claim == Manual ==> Step(s, action).claim == Manual && Step(s, action).events == s.events
    ensures s.claim != Available ==> Step(s, action).claim == s.claim
  {
  }

  lemma {:induction false} NoReleaseLasts(s: System, actions: seq<Action>, after: System)
    requires NoRelease(s) && NoReleaseBegins(actions) && after == RunFrom(s, actions)
    ensures NoRelease(after)
    ensures s.claim == Manual ==> after.claim == Manual && after.events == s.events
    ensures s.claim != Available ==> after.claim == s.claim
  {
    if actions != [] {
      var before := RunFrom(s, actions[..|actions| - 1]);
      NoReleaseLasts(s, actions[..|actions| - 1], before);
      NoReleaseStep(before, actions[|actions| - 1]);
    }
  }

  /**
   * While nobody turns automatic release back on, the compare-exchange Shutdown opens with settles the owner for
   * good: the claim is Manual or Automatic right after it and never changes again.
   */
  lemma ShutdownSettlesOwnership(s: System, caller: nat, later: seq<Action>, after: System)
    requires NoRelease(s) && caller in s.calls && s.calls[caller] == ShutdownClaim
    requires NoReleaseBegins(later)
    requires after == RunFrom(Step(s, Advance(caller)), later)
    ensures after.claim == if s.claim == Automatic then Automatic else Manual
    ensures s.claim != Automatic ==> after.events == Step(s, Advance(caller)).events
  {
    var claimed := Step(s, Advance(caller));
    assert NoRelease(claimed);
    NoReleaseLasts(claimed, later, after);
  }

  // ---------------------------------------------------------------- calls that nothing interrupts

  /** One call from its first step on, alone. */
  function Alone(s: System, caller: nat, steps: nat): System {
    if steps == 0 then s else Step(Alone(s, caller, steps - 1), Advance(caller))
  }

  lemma CallLeavesNoTrace(calls: map<nat, Call>, caller: nat, a: Call, b: Call)
    requires caller !in calls
    ensures calls[caller := a] - {caller} == calls && calls[caller := a][caller := b] == calls[caller := b]
  {
  }

  /** SetFreeOnTerminate stores the flag, then returns a manual claim or takes an available one. */
  lemma LoneSetFreeOnTerminate(s: System, caller: nat, value: bool)
    requires caller !in s.calls
    ensures Alone(Step(s, Begin(caller, StoreFree(value))), caller, 2) ==
            var stored := s.(free := value);
            if value then Exchange(stored, Manual, Available, Returned)
            else Exchange(stored, Available, Manual, ManualWon)
  {
    CallLeavesNoTrace(s.calls, caller, StoreFree(value), ExchangeFree(value));
    CallLeavesNoTrace(s.calls, caller, ExchangeFree(value), ExchangeFree(value));
    var begun := Step(s, Begin(caller, StoreFree(value)));
    assert Alone(begun, caller, 0) == begun;
    assert Alone(begun, caller, 1) == Next(s.(free := value), caller, ExchangeFree(value));
  }

  /** Shutdown takes the claim if it is available, and turns automatic release off. */
  lemma LoneShutdownClaim(s: System, caller: nat)
    requires caller !in s.calls
    ensures var claimed := Exchange(s, Available, Manual, ManualWon);
            Alone(Step(s, Begin(caller, ShutdownClaim)), caller, 3) == claimed.(free := false)
  {
    var begun, claimed := Step(s, Begin(caller, ShutdownClaim)), Exchange(s, Available, Manual, ManualWon);
    CallLeavesNoTrace(s.calls, caller, ShutdownClaim, StoreFree(false));
    CallLeavesNoTrace(s.calls, caller, StoreFree(false), ExchangeFree(false));
    CallLeavesNoTrace(s.calls, caller, ExchangeFree(false), ExchangeFree(false));
    assert Alone(begun, caller, 0) == begun;
    assert Alone(begun, caller, 1) == Next(claimed, caller, StoreFree(false));
    assert Alone(begun, caller, 2) == Next(claimed.(free := false), caller, ExchangeFree(false));
  }

  /** TryClaimAutomaticCleanup wins exactly an available claim on a terminated, automatically released Thread. */
  lemma LoneTryClaim(s: System, caller: nat)
    requires caller !in s.calls
    ensures Alone(Step(s, Begin(caller, LoadFree)), caller, 3) ==
            if s.free && s.terminated then Exchange(s, Available, Automatic, AutomaticWon) else s
  {
    var begun := Step(s, Begin(caller, LoadFree));
    CallLeavesNoTrace(s.calls, caller, LoadFree, LoadState);
    CallLeavesNoTrace(s.calls, caller, LoadState, ExchangeAutomatic);
    CallLeavesNoTrace(s.calls, caller, ExchangeAutomatic, ExchangeAutomatic);
    assert Alone(begun, caller, 0) == begun;
    if s.free {
      assert Alone(begun, caller, 1) == Next(s, caller, LoadState);
    } else {
      assert Alone(begun, caller, 1) == s;
    }
    if s.free && s.terminated {
      assert Alone(begun, caller, 2) == Next(s, caller, ExchangeAutomatic);
    } else {
      assert Alone(begun, caller, 2) == s;
    }
  }

  /** A Thread that may be released automatically is claimed once it has terminated, and not while it runs. */
  lemma TerminationAllowsClaim(s: System, caller: nat, terminated: bool)
    requires caller !in s.calls && s.free && s.claim == Available
    ensures var changed := Step(s, ChangeState(terminated));
            Alone(Step(changed, Begin(caller, LoadFree)), caller, 3).claim ==
            if terminated then Automatic else Available
  {
    LoneTryClaim(Step(s, ChangeState(terminated)), caller);
  }

  // ---------------------------------------------------------------- the object

  /** The claim and its companions as stored, with calls that nothing interrupts. */
  class CleanupControl {
    var cleanupClaim: Claim
    var freeOnTerminate: bool
    var terminated: bool
    ghost var events: seq<Event>

    ghost function View(): System
      reads this
    {
      System(cleanupClaim, freeOnTerminate, terminated, map[], events)
    }

    constructor ()
      ensures View() == Initial() && Ownership(View())
    {
      cleanupClaim, freeOnTerminate, terminated, events := Available, false, false, [];
    }

    method CompareExchange(expected: Claim, desired: Claim, ghost event: Event) returns (won: bool)
      requires Ownership(View()) && Leaves(event) == desired && MayFollow(expected, event)
      modifies this`cleanupClaim, this`events
      ensures Ownership(View()) && View() == Exchange(old(View()), expected, desired, event)
      ensures won <==> old(cleanupClaim) == expected
    {
      ExchangeKeepsOwnership(View(), expected, desired, event);
      won := cleanupClaim == expected;
      if won {
        cleanupClaim, events := desired, events + [event];
      }
    }

    method SetFreeOnTerminate(value: bool)
      requires Ownership(View())
      modifies this`cleanupClaim, this`freeOnTerminate, this`events
      ensures Ownership(View())
      ensures cleanupClaim == if old(cleanupClaim) == Automatic then Automatic else if value then Available else Manual
      ensures View() == var stored := old(View()).(free := value);
                        if value then Exchange(stored, Manual, Available, Returned)
                        else Exchange(stored, Available, Manual, ManualWon)
    {
      freeOnTerminate := value;
      if value {
        var _ := CompareExchange(Manual, Available, Returned);
      } else {
        var _ := CompareExchange(Available, Manual, ManualWon);
      }
    }

    /** What Shutdown does first: the object is the caller's unless it has been claimed automatically. */
    method TakeManualOwnership()
      requires Ownership(View())
      modifies this`cleanupClaim, this`freeOnTerminate, this`events
      ensures Ownership(View()) && !freeOnTerminate
      ensures cleanupClaim == if old(cleanupClaim) == Automatic then Automatic else Manual
      ensures events == old(events) + if old(cleanupClaim) == Available then [ManualWon] else []
    {
      var _ := CompareExchange(Available, Manual, ManualWon);
      SetFreeOnTerminate(false);
    }

    method TryClaimAutomaticCleanup() returns (won: bool)
      requires Ownership(View())
      modifies this`cleanupClaim, this`events
      ensures Ownership(View())
      ensures won <==> freeOnTerminate && terminated && old(cleanupClaim) == Available
      ensures View() == if won then Exchange(old(View()), Available, Automatic, AutomaticWon) else old(View())
    {
      if !freeOnTerminate || !terminated {
        return false;
      }
      won := CompareExchange(Available, Automatic, AutomaticWon);
    }
  }
}
