/** The lifecycle states of a Thread, the transitions it accepts, and what any walk along them can do. */
module ThreadStates {

  datatype ThreadState = Uninitialized | Initialized | Running | Paused | Terminating | Terminated | Destroyed

  predicate ValidTransition(from: ThreadState, to: ThreadState) {
    if from == to then false
    else if to == Destroyed then from != Destroyed
    else
      match from
      case Uninitialized => to == Initialized || to == Terminating
      case Initialized => to == Running || to == Terminating
      case Running => to == Paused || to == Terminating
      case Paused => to == Running || to == Terminating
      case Terminating => to == Terminated
      case Terminated => to == Uninitialized
      case Destroyed => false
  }

  /** The transitions accepted apart from destruction. */
  const ACCEPTED: set<(ThreadState, ThreadState)> := {
    (Uninitialized, Initialized), (Uninitialized, Terminating),
    (Initialized, Running), (Initialized, Terminating),
    (Running, Paused), (Running, Terminating),
    (Paused, Running), (Paused, Terminating),
    (Terminating, Terminated),
    (Terminated, Uninitialized)}

  /** Exactly these, and destruction of what is not destroyed yet. */
  lemma TransitionTable(from: ThreadState, to: ThreadState)
    ensures ValidTransition(from, to) <==> (from, to) in ACCEPTED || (to == Destroyed && from != Destroyed)
  {
    match from
    case Uninitialized => assert (from, to) in ACCEPTED <==> to == Initialized || to == Terminating;
    case Initialized => assert (from, to) in ACCEPTED <==> to == Running || to == Terminating;
    case Running => assert (from, to) in ACCEPTED <==> to == Paused || to == Terminating;
    case Paused => assert (from, to) in ACCEPTED <==> to == Running || to == Terminating;
    case Terminating => assert (from, to) in ACCEPTED <==> to == Terminated;
    case Terminated => assert (from, to) in ACCEPTED <==> to == Uninitialized;
    case Destroyed => assert (from, to) !in ACCEPTED;
  }

  /** Stored states, oldest first, each reached from the one before by an accepted transition. */
  ghost predicate Walk(history: seq<ThreadState>) {
    && history != [] && history[0] == Uninitialized
    && forall i, j :: 0 <= i < j < |history| && j == i + 1 ==> ValidTransition(history[i], history[j])
  }

  function Rank(s: ThreadState): nat {
    match s
    case Uninitialized => 0
    case Initialized => 1
    case Running => 2
    case Paused => 2
    case Terminating => 3
    case Terminated => 4
    case Destroyed => 5
  }

  /** Between two resets a walk only moves on. */
  lemma {:induction false} RankGrows(history: seq<ThreadState>, i: nat, j: nat)
    requires Walk(history) && i <= j < |history|
    requires forall k :: i < k <= j ==> history[k] != Uninitialized
    ensures Rank(history[i]) <= Rank(history[j])
    decreases j - i
  {
    if i < j {
      RankGrows(history, i, j - 1);
      assert ValidTransition(history[j - 1], history[j]);
    }
  }

  /** Initialized, Terminating and Terminated are each entered at most once between two resets. */
  lemma EnteredOncePerLifetime(history: seq<ThreadState>, i: nat, j: nat)
    requires Walk(history) && i < j < |history|
    requires history[i] == history[j]
    requires history[i] == Initialized || history[i] == Terminating || history[i] == Terminated
    ensures exists k :: i < k < j && history[k] == Uninitialized && history[k - 1] == Terminated
  {
    assert ValidTransition(history[i], history[i + 1]);
    if forall k :: i < k <= j ==> history[k] != Uninitialized {
      RankGrows(history, i + 1, j);
    } else {
      var k :| i < k <= j && history[k] == Uninitialized;
      assert ValidTransition(history[k - 1], history[k]);
    }
  }

  /** Whatever is entered twice, of the states a lifetime enters once, has a reset in between. */
  ghost predicate OncePerLifetime(history: seq<ThreadState>) {
    forall i, j :: 0 <= i < j < |history| && history[i] == history[j] &&
                   (history[i] == Initialized || history[i] == Terminating || history[i] == Terminated) ==>
      exists k :: i < k < j && history[k] == Uninitialized && history[k - 1] == Terminated
  }

  lemma WalksAreOncePerLifetime(history: seq<ThreadState>)
    requires Walk(history)
    ensures OncePerLifetime(history)
  {
    forall i, j | 0 <= i < j < |history| && history[i] == history[j] &&
                  (history[i] == Initialized || history[i] == Terminating || history[i] == Terminated)
      ensures exists k :: i < k < j && history[k] == Uninitialized && history[k - 1] == Terminated
    {
      EnteredOncePerLifetime(history, i, j);
    }
  }

  /** A destroyed thread takes no further transition. */
  lemma NothingAfterDestroyed(history: seq<ThreadState>, i: nat)
    requires Walk(history) && i + 1 < |history|
    ensures history[i] != Destroyed
  {
    assert ValidTransition(history[i], history[i + 1]);
  }
}
