/** ThreadManager as it is stored: a vector of records, a core counter, an iteration count and a pending flag. */
module ThreadManagers {
  import opened Foundations
  import opened ThreadRegistry

  /** The counters of one cleanup pass. */
  datatype CleanupResult = CleanupResult(
    examined: nat, claimed: nat, removed: nat, deleted: nat,
    deferred: bool, active: nat, before: nat, after: nat)

  function Counted(flags: seq<bool>): nat {
    if flags == [] then 0 else Counted(flags[..|flags| - 1]) + if flags[|flags| - 1] then 1 else 0
  }

  /** The pointers of the records flagged as removed, in order. */
  function Pointers(records: seq<Record>, removed: seq<bool>): seq<Pointer>
    requires |records| == |removed|
  {
    if records == [] then []
    else
      var last := |records| - 1;
      Pointers(records[..last], removed[..last]) + if removed[last] then [records[last].thread] else []
  }

  /** The first claims have been looked up: which were found, and what is left. */
  ghost predicate Removed(records: seq<Record>, claimed: seq<Record>, removed: seq<bool>, left: seq<Record>) {
    && |removed| <= |claimed|
    && left == Kept(records, Keys(claimed[..|removed|]))
    && (forall i :: 0 <= i < |removed| ==> (removed[i] <==> HasKey(records, Key(claimed[i]))))
    && |left| == |records| - Counted(removed)
  }

  lemma NothingRemoved(records: seq<Record>, claimed: seq<Record>)
    ensures Removed(records, claimed, [], records)
  {
    KeepsAll(records, {});
    assert Keys(claimed[..0]) == {};
  }

  lemma CountedAppend(flags: seq<bool>, flag: bool)
    ensures Counted(flags + [flag]) == Counted(flags) + if flag then 1 else 0
  {
    assert (flags + [flag])[..|flags|] == flags;
  }

  lemma FoundNext(records: seq<Record>, claimed: seq<Record>, removed: seq<bool>, found: bool)
    requires |removed| < |claimed| && (found <==> HasKey(records, Key(claimed[|removed|])))
    requires forall i :: 0 <= i < |removed| ==> (removed[i] <==> HasKey(records, Key(claimed[i])))
    ensures forall i :: 0 <= i < |removed| + 1 ==> ((removed + [found])[i] <==> HasKey(records, Key(claimed[i])))
  {
  }

  lemma KeptNext(records: seq<Record>, claimed: seq<Record>, n: nat)
    requires n < |claimed| && Distinct(claimed)
    ensures Kept(Kept(records, Keys(claimed[..n])), {Key(claimed[n])}) == Kept(records, Keys(claimed[..n + 1]))
    ensures HasKey(Kept(records, Keys(claimed[..n])), Key(claimed[n])) <==> HasKey(records, Key(claimed[n]))
  {
    KeptTwice(records, Keys(claimed[..n]), {Key(claimed[n])});
    assert claimed[..n + 1] == claimed[..n] + [claimed[n]];
    assert Keys(claimed[..n + 1]) == Keys(claimed[..n]) + {Key(claimed[n])};
    KeptHasKey(records, Keys(claimed[..n]), Key(claimed[n]));
  }

  lemma RemovesNext(records: seq<Record>, claimed: seq<Record>, removed: seq<bool>, left: seq<Record>,
                    found: bool, after: seq<Record>)
    requires |removed| < |claimed| && Distinct(claimed) && Removed(records, claimed, removed, left)
    requires after == Kept(left, {Key(claimed[|removed|])})
    requires found <==> HasKey(left, Key(claimed[|removed|]))
    requires |after| == |left| - if found then 1 else 0
    ensures Removed(records, claimed, removed + [found], after)
    ensures Counted(removed + [found]) == Counted(removed) + if found then 1 else 0
  {
    KeptNext(records, claimed, |removed|);
    CountedAppend(removed, found);
    FoundNext(records, claimed, removed, found);
    assert |removed + [found]| == |removed| + 1;
  }

  lemma ClaimFoundByKey(records: seq<Record>, claimed: seq<Record>, r: Record)
    requires Distinct(records) && r in records
    requires forall c :: c in claimed ==> c in records
    ensures r.thread != NULL
    ensures r in claimed <==> Key(r) in Keys(claimed)
  {
    var a :| 0 <= a < |records| && records[a] == r;
    if Key(r) in Keys(claimed) {
      var c :| c in claimed && Key(c) == Key(r);
      var b :| 0 <= b < |records| && records[b] == c;
      assert a == b;
    }
  }

  lemma DeletedIsClaimed(records: seq<Record>, claimable: set<Pointer>, claimed: seq<Record>, p: Pointer)
    requires Distinct(records)
    requires forall r :: r in claimed <==> r in records && r.thread != NULL && r.thread in claimable
    ensures (exists i :: 0 <= i < |claimed| && claimed[i].thread == p) <==> p in claimable && Holds(records, p)
  {
    forall i | 0 <= i < |claimed| && claimed[i].thread == p
      ensures p in claimable && Holds(records, p)
    {
      assert claimed[i] in claimed;
      var k :| 0 <= k < |records| && records[k] == claimed[i];
    }
    if p in claimable && Holds(records, p) {
      var k :| 0 <= k < |records| && records[k].thread == p;
      assert records[k] in claimed;
      var i :| 0 <= i < |claimed| && claimed[i] == records[k];
    }
  }

  lemma {:induction false} AllCounted(flags: seq<bool>)
    ensures (forall i :: 0 <= i < |flags| ==> flags[i]) ==> Counted(flags) == |flags|
  {
    if flags != [] {
      AllCounted(flags[..|flags| - 1]);
    }
  }

  /** With the registry unchanged since the snapshot, every claim is found again and nothing else is touched. */
  lemma UninterruptedPass(records: seq<Record>, claimable: set<Pointer>, claimed: seq<Record>,
                          removed: seq<bool>, left: seq<Record>, deleted: seq<Pointer>)
    requires Distinct(records) && |removed| == |claimed|
    requires forall r :: r in claimed <==> r in records && r.thread != NULL && r.thread in claimable
    requires forall i :: 0 <= i < |claimed| ==> (removed[i] <==> HasKey(records, Key(claimed[i])))
    requires left == Kept(records, Keys(claimed))
    requires forall p :: p in deleted <==> exists i :: 0 <= i < |claimed| && removed[i] && claimed[i].thread == p
    ensures Counted(removed) == |claimed|
    ensures forall r :: r in left <==> r in records && r.thread !in claimable
    ensures forall p :: p in deleted <==> p in claimable && Holds(records, p)
  {
    forall i | 0 <= i < |claimed|
      ensures removed[i]
    {
      assert claimed[i] in claimed && Key(claimed[i]) == Key(claimed[i]);
    }
    AllCounted(removed);
    forall r
      ensures r in left <==> r in records && r.thread !in claimable
    {
      KeptHas(records, Keys(claimed), r);
      if r in records {
        ClaimFoundByKey(records, claimed, r);
      }
    }
    forall p
      ensures p in deleted <==> p in claimable && Holds(records, p)
    {
      DeletedIsClaimed(records, claimable, claimed, p);
    }
  }

  class ThreadManager {
    var threads: seq<Record>
    var nextCore: nat
    var activeIterations: nat
    var cleanupPending: bool

    ghost function View(): Registry
      reads this`threads, this`nextCore
    {
      Registry(threads, nextCore)
    }

    constructor ()
      ensures View() == Registry([], 0) && activeIterations == 0 && !cleanupPending
    {
      threads, nextCore, activeIterations, cleanupPending := [], 0, 0, false;
    }

    method FindThread(thread: Pointer) returns (found: Option<Record>)
      ensures found.None? <==> !Holds(threads, thread)
      ensures found.Some? ==> found.value in threads && found.value.thread == thread
    {
      for i := 0 to |threads|
        invariant forall k :: 0 <= k < i ==> threads[k].thread != thread
      {
        if threads[i].thread == thread {
          return Some(threads[i]);
        }
      }
      found := None;
    }

    method IsIdInUse(id: Id) returns (used: bool)
      ensures used <==> InUse(threads, id)
    {
      for i := 0 to |threads|
        invariant forall k :: 0 <= k < i ==> threads[k].id != id
      {
        if threads[i].id == id {
          return true;
        }
      }
      used := false;
    }

    /** The search for an automatic identifier: 1 to 255 in order, and 0 only when all of those are taken. */
    method FindFreeId() returns (id: Option<Id>)
      ensures IsAutomaticId(threads, id)
    {
      for candidate := 1 to 256
        invariant forall m: Id :: 0 < m < candidate ==> InUse(threads, m)
      {
        var used := IsIdInUse(candidate);
        if !used {
          return Some(candidate);
        }
      }
      var zeroUsed := IsIdInUse(0);
      id := if zeroUsed then None else Some(0);
    }

    /** The section under the write lock, which looks again because the read lock was released in between. */
    method InsertThread(thread: Pointer, request: Request, processors: nat) returns (answer: Answer)
      requires thread != NULL
      modifies this`threads, this`nextCore
      ensures Registers(old(View()), thread, request, if processors > 0 then processors else 1, View(), answer)
    {
      var existing := FindThread(thread);
      if existing.Some? {
        return Present(existing.value);
      }
      var id: Id := 0;
      match request {
        case Automatic =>
          var free := FindFreeId();
          if free.None? {
            return Failed(LimitExceeded);
          }
          id := free.value;
        case Explicit(requested) =>
          var used := IsIdInUse(requested);
          if used {
            return Failed(DuplicateId(requested));
          }
          id := requested;
      }
      var coreCount := if processors > 0 then processors else 1;
      var useCore := nextCore % coreCount;
      threads := threads + [Record(id, thread, useCore)];
      nextCore := (useCore + 1) % coreCount;
      answer := Added(Record(id, thread, useCore));
    }

    /** AddThread; processors is the platform's processor count. */
    method AddThread(thread: Pointer, request: Request, processors: nat) returns (answer: Answer)
      modifies this`threads, this`nextCore
      ensures Registers(old(View()), thread, request, if processors > 0 then processors else 1, View(), answer)
      ensures Distinct(old(threads)) ==> Distinct(threads)
    {
      if thread == NULL {
        return Failed(InvalidRegistration);
      }
      var existing := FindThread(thread);
      if existing.Some? {
        return Present(existing.value);
      }
      ghost var before := View();
      answer := InsertThread(thread, request, processors);
      if Distinct(before.records) {
        OperationKeepsDistinct(before, Add(thread, request, answer), if processors > 0 then processors else 1, View());
      }
    }

    method RemoveThread(thread: Pointer)
      modifies this`threads
      ensures View() == old(View()).(records := Without(old(threads), Position(old(threads), thread)))
      ensures Distinct(old(threads)) ==> Distinct(threads) && !Holds(threads, thread)
    {
      var at := 0;
      while at < |threads| && threads[at].thread != thread
        invariant at <= |threads|
        invariant forall k :: 0 <= k < at ==> threads[k].thread != thread
      {
        at := at + 1;
      }
      threads := Without(threads, at);
      if Distinct(old(threads)) {
        ErasedIsGone(old(threads), thread, 0);
      }
    }

    method RemoveThreadById(id: Id)
      modifies this`threads
      ensures View() == old(View()).(records := Without(old(threads), PositionOfId(old(threads), id)))
      ensures Distinct(old(threads)) ==> Distinct(threads) && !InUse(threads, id)
    {
      var at := 0;
      while at < |threads| && threads[at].id != id
        invariant at <= |threads|
        invariant forall k :: 0 <= k < at ==> threads[k].id != id
      {
        at := at + 1;
      }
      threads := Without(threads, at);
      if Distinct(old(threads)) {
        ErasedIsGone(old(threads), NULL, id);
      }
    }

    method BeginIteration()
      modifies this`activeIterations
      ensures activeIterations == old(activeIterations) + 1
    {
      activeIterations := activeIterations + 1;
    }

    /** Leaves one iteration; the answer says that the deferred cleanup is now owed. */
    method EndIteration() returns (runDeferredCleanup: bool)
      modifies this`activeIterations, this`cleanupPending
      ensures activeIterations == if old(activeIterations) > 0 then old(activeIterations) - 1 else 0
      ensures runDeferredCleanup <==> activeIterations == 0 && old(cleanupPending)
      ensures cleanupPending <==> old(cleanupPending) && activeIterations > 0
    {
      runDeferredCleanup := false;
      if activeIterations > 0 {
        activeIterations := activeIterations - 1;
      }
      if activeIterations == 0 && cleanupPending {
        cleanupPending := false;
        runDeferredCleanup := true;
      }
    }

    /** Claims, in snapshot order, the terminated threads whose automatic claim succeeds. */
    method ClaimTerminated(snapshot: seq<Record>, claimable: set<Pointer>) returns (claimed: seq<Record>)
      ensures claimed == Claimable(snapshot, claimable)
      ensures forall r :: r in claimed <==> r in snapshot && r.thread != NULL && r.thread in claimable
      ensures Distinct(snapshot) ==> Distinct(claimed)
      ensures |claimed| <= |snapshot|
    {
      claimed := [];
      for i := 0 to |snapshot|
        invariant claimed == Claimable(snapshot[..i], claimable)
      {
        var r := snapshot[i];
        assert snapshot[..i + 1][..i] == snapshot[..i];
        if r.thread != NULL && r.thread in claimable {
          claimed := claimed + [r];
        }
      }
      assert snapshot[..|snapshot|] == snapshot;
      forall r
        ensures r in claimed <==> r in snapshot && r.thread != NULL && r.thread in claimable
      {
        ClaimableHas(snapshot, claimable, r);
      }
      ClaimableHas(snapshot, claimable, Record(0, NULL, 0));
      if Distinct(snapshot) {
        ClaimableDistinct(snapshot, claimable);
      }
    }

    method EraseKey(key: (Id, Pointer)) returns (found: bool)
      requires Distinct(threads)
      modifies this`threads
      ensures Distinct(threads) && threads == Kept(old(threads), {key})
      ensures found <==> HasKey(old(threads), key)
      ensures |threads| == |old(threads)| - if found then 1 else 0
    {
      var at := 0;
      while at < |threads| && Key(threads[at]) != key
        invariant at <= |threads|
        invariant forall k :: 0 <= k < at ==> Key(threads[k]) != key
      {
        at := at + 1;
      }
      EraseIsKept(threads, at, key);
      found := at < |threads|;
      if found {
        ErasesOne(threads, at);
        assert Key(threads[at]) == key;
      }
      threads := Without(threads, at);
    }

    /** Erases the claimed records that are still registered; the registry may have changed since the snapshot. */
    method RemoveClaimed(claimed: seq<Record>) returns (removed: seq<bool>, count: nat)
      requires Distinct(threads) && Distinct(claimed)
      modifies this`threads
      ensures Distinct(threads) && |removed| == |claimed|
      ensures threads == Kept(old(threads), Keys(claimed))
      ensures forall i :: 0 <= i < |claimed| ==> (removed[i] <==> HasKey(old(threads), Key(claimed[i])))
      ensures count == Counted(removed) && |threads| == |old(threads)| - count
    {
      removed, count := [], 0;
      NothingRemoved(threads, claimed);
      while |removed| < |claimed|
        invariant |removed| <= |claimed| && Distinct(threads)
        invariant Removed(old(threads), claimed, removed, threads) && count == Counted(removed)
      {
        ghost var before := threads;
        var found := EraseKey(Key(claimed[|removed|]));
        RemovesNext(old(threads), claimed, removed, before, found, threads);
        removed := removed + [found];
        if found {
          count := count + 1;
        }
      }
      assert claimed[..|claimed|] == claimed;
    }

    /** Deletes, in claim order, what the pass itself took out of the registry. */
    method DeleteRemoved(claimed: seq<Record>, removed: seq<bool>) returns (deleted: seq<Pointer>)
      requires |claimed| == |removed|
      ensures deleted == Pointers(claimed, removed) && |deleted| == Counted(removed)
      ensures forall p :: p in deleted <==> exists i :: 0 <= i < |claimed| && removed[i] && claimed[i].thread == p
    {
      deleted := [];
      for i := 0 to |claimed|
        invariant deleted == Pointers(claimed[..i], removed[..i]) && |deleted| == Counted(removed[..i])
        invariant forall p :: p in deleted <==> exists k :: 0 <= k < i && removed[k] && claimed[k].thread == p
      {
        assert removed[..i + 1][..i] == removed[..i] && claimed[..i + 1][..i] == claimed[..i];
        if removed[i] {
          deleted := deleted + [claimed[i].thread];
        }
      }
      assert removed[..|removed|] == removed && claimed[..|claimed|] == claimed;
    }

    /** A cleanup pass that nothing interrupts; deleted lists the objects released once the registry is settled. */
    method CleanUp(claimable: set<Pointer>) returns (result: CleanupResult, deleted: seq<Pointer>)
      requires Distinct(threads)
      modifies this`threads, this`cleanupPending
      ensures activeIterations > 0 ==>
                && cleanupPending && threads == old(threads) && deleted == []
                && result == CleanupResult(0, 0, 0, 0, true, activeIterations, |threads|, |threads|)
      ensures activeIterations == 0 ==>
                && cleanupPending == old(cleanupPending) && Distinct(threads)
                && threads == Kept(old(threads), Keys(Claimable(old(threads), claimable)))
                && (forall r :: r in threads <==> r in old(threads) && r.thread !in claimable)
                && (forall p :: p in deleted <==> p in claimable && Holds(old(threads), p))
                && |threads| + |deleted| == |old(threads)|
                && result == CleanupResult(|old(threads)|, |deleted|, |deleted|, |deleted|, false, 0,
                                           |old(threads)|, |threads|)
    {
      if activeIterations > 0 {
        cleanupPending := true;
        return CleanupResult(0, 0, 0, 0, true, activeIterations, |threads|, |threads|), [];
      }
      var snapshot := threads;
      var claimed := ClaimTerminated(snapshot, claimable);
      var removed, count := RemoveClaimed(claimed);
      deleted := DeleteRemoved(claimed, removed);
      UninterruptedPass(snapshot, claimable, claimed, removed, threads, deleted);
      result := CleanupResult(|snapshot|, |claimed|, count, |deleted|, false, 0, |snapshot|, |threads|);
    }
  }

  // ---------------------------------------------------------------- whole runs

  /** A registry operation as it is asked for. */
  datatype Command =
    | AddCommand(thread: Pointer, request: Request)
    | RemoveCommand(thread: Pointer)
    | RemoveByIdCommand(id: Id)
    | RemoveRecordsCommand(claimed: seq<Record>)

  /** The operation answers the command. */
  predicate Answers(command: Command, op: Op) {
    match command
    case AddCommand(thread, request) => op.Add? && op.thread == thread && op.request == request
    case RemoveCommand(thread) => op == Remove(thread)
    case RemoveByIdCommand(id) => op == RemoveById(id)
    case RemoveRecordsCommand(claimed) => op == RemoveRecords(claimed)
  }

  method Perform(manager: ThreadManager, command: Command, processors: nat) returns (op: Op)
    requires Distinct(manager.threads)
    requires command.RemoveRecordsCommand? ==> Distinct(command.claimed)
    modifies manager
    ensures Distinct(manager.threads) && Answers(command, op)
    ensures Performs(old(manager.View()), op, if processors > 0 then processors else 1, manager.View())
  {
    match command
    case AddCommand(thread, request) =>
      var answer := manager.AddThread(thread, request, processors);
      op := Add(thread, request, answer);
    case RemoveCommand(thread) =>
      manager.RemoveThread(thread);
      op := Remove(thread);
    case RemoveByIdCommand(id) =>
      manager.RemoveThreadById(id);
      op := RemoveById(id);
    case RemoveRecordsCommand(claimed) =>
      var _, _ := manager.RemoveClaimed(claimed);
      op := RemoveRecords(claimed);
  }

  /** The commands given so far, as a run that ends in the given registry. */
  ghost predicate Replayed(commands: seq<Command>, ops: seq<Op>, states: seq<Registry>, cores: nat, last: Registry) {
    && cores > 0
    && |ops| == |commands| && (forall i :: 0 <= i < |ops| ==> Answers(commands[i], ops[i]))
    && IsRun(states, ops, cores)
    && states[|ops|] == last
  }

  lemma RunGoesOn(states: seq<Registry>, ops: seq<Op>, cores: nat, op: Op, after: Registry)
    requires cores > 0 && IsRun(states, ops, cores) && Performs(states[|ops|], op, cores, after)
    ensures IsRun(states + [after], ops + [op], cores)
  {
    var s, o := states + [after], ops + [op];
    forall k | 0 <= k < |o|
      ensures Performs(s[k], o[k], cores, s[k + 1])
    {
      if k < |ops| {
        assert s[k] == states[k] && s[k + 1] == states[k + 1];
      }
    }
  }

  lemma ReplayGoesOn(commands: seq<Command>, ops: seq<Op>, states: seq<Registry>, cores: nat, last: Registry,
                     command: Command, op: Op, after: Registry)
    requires Replayed(commands, ops, states, cores, last)
    requires Answers(command, op) && Performs(last, op, cores, after)
    ensures Replayed(commands + [command], ops + [op], states + [after], cores, after)
  {
    RunGoesOn(states, ops, cores, op, after);
  }

  /** The next command of a run. */
  method PerformNext(manager: ThreadManager, command: Command, processors: nat, ghost commands: seq<Command>,
                     ghost ops: seq<Op>, ghost states: seq<Registry>, ghost cores: nat) returns (op: Op)
    requires Distinct(manager.threads) && (command.RemoveRecordsCommand? ==> Distinct(command.claimed))
    requires cores == if processors > 0 then processors else 1
    requires Replayed(commands, ops, states, cores, manager.View())
    modifies manager
    ensures Distinct(manager.threads)
    ensures Replayed(commands + [command], ops + [op], states + [manager.View()], cores, manager.View())
  {
    ghost var before := manager.View();
    op := Perform(manager, command, processors);
    ReplayGoesOn(commands, ops, states, cores, before, command, op, manager.View());
  }

  /**
   * Any commands given to a new manager one after the other are a run of the registry, so what is proved of runs
   * holds of the object.
   */
  method Replay(commands: seq<Command>, processors: nat)
    returns (manager: ThreadManager, ops: seq<Op>, ghost states: seq<Registry>)
    requires forall i :: 0 <= i < |commands| && commands[i].RemoveRecordsCommand? ==> Distinct(commands[i].claimed)
    ensures Replayed(commands, ops, states, if processors > 0 then processors else 1, manager.View())
  {
    manager := new ThreadManager();
    ops, states := [], [manager.View()];
    ghost var cores := if processors > 0 then processors else 1;
    for i := 0 to |commands|
      invariant fresh(manager) && Distinct(manager.threads)
      invariant Replayed(commands[..i], ops, states, cores, manager.View())
    {
      var op := PerformNext(manager, commands[i], processors, commands[..i], ops, states, cores);
      assert commands[..i + 1] == commands[..i] + [commands[i]];
      ops, states := ops + [op], states + [manager.View()];
    }
    assert commands[..|commands|] == commands;
  }
}
