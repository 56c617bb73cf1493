/**
 * Core, stack size and priority of a Thread: setters and any number of initializers serialised by the
 * configuration mutex, and deletion, which takes the task handle without it.
 */
module TaskConfiguration {
  import opened Foundations

  datatype Configuration = Configuration(core: int, stack: nat, priority: nat)

  datatype Change = Core(core: int) | Stack(stack: nat) | Priority(priority: nat)

  /** Where one call stands; from its first load on it holds the mutex. */
  datatype Call =
    | LockToSet(change: Change)
    | LoadToSet(change: Change)
    | Store(change: Change)
    | LockToInitialize
    | Recheck
    | ReadStack
    | ReadPriority(stack: nat)
    | ReadCore(stack: nat, priority: nat)
    | Create(configuration: Configuration)
    | Publish(task: nat)
    | Unlock

  datatype System = System(
    mutex: Option<nat>,
    handle: Option<nat>,               // _taskHandle; tasks are numbered as they are created
    stored: Configuration,
    tasks: seq<Configuration>,         // what each task was created with
    calls: map<nat, Call>,
    lost: bool)                        // a publication has failed: ConcurrentInitializationLost

  datatype Action =
    | Begin(caller: nat, call: Call)
    | Advance(caller: nat, ok: bool)
    | TakeHandle                       // _deleteTask

  function Initial(stored: Configuration): System {
    System(None, None, stored, [], map[], false)
  }

  predicate HoldsMutex(call: Call) {
    !call.LockToSet? && !call.LockToInitialize?
  }

  /** A setter's store; a stack size of zero is ignored. */
  function Changed(c: Configuration, change: Change): Configuration {
    match change
    case Core(core) => c.(core := core)
    case Stack(stack) => if stack > 0 then c.(stack := stack) else c
    case Priority(priority) => c.(priority := priority)
  }

  function Goto(s: System, caller: nat, next: Call): System {
    s.(calls := s.calls[caller := next])
  }

  function Advanced(s: System, caller: nat, ok: bool): System
    requires caller in s.calls
  {
    match s.calls[caller]
    case LockToSet(change) =>
      if s.mutex.Some? then s else Goto(s.(mutex := Some(caller)), caller, LoadToSet(change))
    case LoadToSet(change) => Goto(s, caller, if s.handle.None? then Store(change) else Unlock)
    case Store(change) => Goto(s.(stored := Changed(s.stored, change)), caller, Unlock)
    case LockToInitialize => if s.mutex.Some? then s else Goto(s.(mutex := Some(caller)), caller, Recheck)
    case Recheck => Goto(s, caller, if s.handle.Some? then Unlock else ReadStack)
    case ReadStack => Goto(s, caller, ReadPriority(s.stored.stack))
    case ReadPriority(stack) => Goto(s, caller, ReadCore(stack, s.stored.priority))
    case ReadCore(stack, priority) => Goto(s, caller, Create(Configuration(s.stored.core, stack, priority)))
    case Create(configuration) =>
      if ok then Goto(s.(tasks := s.tasks + [configuration]), caller, Publish(|s.tasks|))
      else Goto(s, caller, Unlock)
    case Publish(task) =>
      if s.handle.None? then Goto(s.(handle := Some(task)), caller, Unlock)
      else Goto(s.(lost := true), caller, Unlock)
    case Unlock => s.(mutex := None, calls := s.calls - {caller})
  }

  /** One step; a step that is not possible changes nothing. */
  function Step(s: System, action: Action): System {
    match action
    case Begin(caller, call) =>
      if caller in s.calls || HoldsMutex(call) then s else Goto(s, caller, call)
    case Advance(caller, ok) => if caller in s.calls then Advanced(s, caller, ok) else s
    case TakeHandle => s.(handle := None)
  }

  function Run(stored: Configuration, actions: seq<Action>): System {
    if actions == [] then Initial(stored)
    else Step(Run(stored, actions[..|actions| - 1]), actions[|actions| - 1])
  }

  ghost predicate Exclusive(s: System) {
    forall c :: c in s.calls && HoldsMutex(s.calls[c]) ==> s.mutex == Some(c)
  }

  /** What the holder of the mutex has seen still holds: nobody else publishes or stores meanwhile. */
  predicate Sees(s: System, call: Call) {
    match call
    case LockToSet(_) => true
    case LoadToSet(_) => true
    case Store(_) => s.handle.None?
    case LockToInitialize => true
    case Recheck => true
    case ReadStack => s.handle.None?
    case ReadPriority(stack) => s.handle.None? && stack == s.stored.stack
    case ReadCore(stack, priority) =>
      s.handle.None? && stack == s.stored.stack && priority == s.stored.priority
    case Create(configuration) => s.handle.None? && configuration == s.stored
    case Publish(task) => s.handle.None? && task < |s.tasks| && s.tasks[task] == s.stored
    case Unlock => true
  }

  ghost predicate Consistent(s: System) {
    && (s.handle.Some? ==> s.handle.value < |s.tasks| && s.tasks[s.handle.value] == s.stored)
    && !s.lost
    && forall c :: c in s.calls ==> Sees(s, s.calls[c])
  }

  lemma AdvanceKeepsExclusive(s: System, caller: nat, ok: bool)
    requires Exclusive(s) && caller in s.calls
    ensures Exclusive(Advanced(s, caller, ok))
  {
  }

  lemma AdvanceKeepsConsistent(s: System, caller: nat, ok: bool)
    requires Exclusive(s) && Consistent(s) && caller in s.calls
    ensures Consistent(Advanced(s, caller, ok))
  {
    var n := Advanced(s, caller, ok);
    assert Sees(s, s.calls[caller]);
    forall c | c in n.calls
      ensures Sees(n, n.calls[c])
    {
      if c != caller {
        assert Sees(s, s.calls[c]);
        assert HoldsMutex(s.calls[c]) ==> !HoldsMutex(s.calls[caller]);
      }
    }
  }

  lemma StepKeepsBoth(s: System, action: Action)
    requires Exclusive(s) && Consistent(s)
    ensures Exclusive(Step(s, action)) && Consistent(Step(s, action))
  {
    match action
    case Begin(_, _) =>
    case Advance(caller, ok) =>
      if caller in s.calls {
        AdvanceKeepsExclusive(s, caller, ok);
        AdvanceKeepsConsistent(s, caller, ok);
      }
    case TakeHandle =>
  }

  lemma {:induction false} RunKeepsBoth(stored: Configuration, actions: seq<Action>, s: System)
    requires s == Run(stored, actions)
    ensures Exclusive(s) && Consistent(s)
  {
    if actions != [] {
      var before := Run(stored, actions[..|actions| - 1]);
      RunKeepsBoth(stored, actions[..|actions| - 1], before);
      StepKeepsBoth(before, actions[|actions| - 1]);
    }
  }

  /** While a task handle is published, the stored configuration is the one that task was created with. */
  lemma PublishedTaskMatchesConfiguration(stored: Configuration, actions: seq<Action>, s: System)
    requires s == Run(stored, actions) && s.handle.Some?
    ensures s.handle.value < |s.tasks| && s.tasks[s.handle.value] == s.stored
  {
    RunKeepsBoth(stored, actions, s);
  }

  /** However many initializers compete, no publication fails: that status is never returned. */
  lemma ConcurrentInitializationIsNeverLost(stored: Configuration, actions: seq<Action>, s: System, caller: nat)
    requires s == Run(stored, actions)
    ensures !s.lost
    ensures caller in s.calls && s.calls[caller].Publish? ==> s.handle.None?
  {
    RunKeepsBoth(stored, actions, s);
    assert caller in s.calls ==> Sees(s, s.calls[caller]);
  }

  // ---------------------------------------------------------------- calls that nothing interrupts

  function Alone(s: System, caller: nat, steps: nat): System {
    if steps == 0 then s
    else
      var before := Alone(s, caller, steps - 1);
      if caller in before.calls then Advanced(before, caller, true) else before
  }

  lemma AloneNext(s: System, caller: nat, steps: nat, before: System, call: Call, n: System)
    requires before == Alone(s, caller, steps) && caller in before.calls && before.calls[caller] == call
    requires n == Advanced(before, caller, true)
    ensures Alone(s, caller, steps + 1) == n
  {
  }

  /** The system with one call somewhere on its way, holding the mutex. */
  function Inside(s: System, caller: nat, call: Call): System {
    s.(mutex := Some(caller), calls := s.calls[caller := call])
  }

  lemma InsideMoves(s: System, caller: nat, a: Call, b: Call)
    ensures Goto(Inside(s, caller, a), caller, b) == Inside(s, caller, b)
  {
    assert s.calls[caller := a][caller := b] == s.calls[caller := b];
  }

  lemma InsideLeaves(s: System, caller: nat)
    requires caller !in s.calls && s.mutex.None?
    ensures Advanced(Inside(s, caller, Unlock), caller, true) == s
  {
    assert s.calls[caller := Unlock] - {caller} == s.calls;
  }

  /** A setter changes its setting while no handle is published, and nothing otherwise. */
  lemma LoneSetter(s: System, caller: nat, change: Change, begun: System)
    requires caller !in s.calls && s.mutex.None? && begun == Step(s, Begin(caller, LockToSet(change)))
    ensures s.handle.Some? ==> Alone(begun, caller, 3) == s
    ensures s.handle.None? ==> Alone(begun, caller, 4) == s.(stored := Changed(s.stored, change))
  {
    assert Alone(begun, caller, 0) == begun;
    InsideMoves(s, caller, LockToSet(change), LoadToSet(change));
    AloneNext(begun, caller, 0, begun, LockToSet(change), Inside(s, caller, LoadToSet(change)));
    if s.handle.Some? {
      InsideMoves(s, caller, LoadToSet(change), Unlock);
      AloneNext(begun, caller, 1, Inside(s, caller, LoadToSet(change)), LoadToSet(change), Inside(s, caller, Unlock));
      InsideLeaves(s, caller);
      AloneNext(begun, caller, 2, Inside(s, caller, Unlock), Unlock, s);
    } else {
      var changed := s.(stored := Changed(s.stored, change));
      InsideMoves(s, caller, LoadToSet(change), Store(change));
      AloneNext(begun, caller, 1, Inside(s, caller, LoadToSet(change)), LoadToSet(change),
                Inside(s, caller, Store(change)));
      InsideMoves(changed, caller, Store(change), Unlock);
      AloneNext(begun, caller, 2, Inside(s, caller, Store(change)), Store(change), Inside(changed, caller, Unlock));
      InsideLeaves(changed, caller);
      AloneNext(begun, caller, 3, Inside(changed, caller, Unlock), Unlock, changed);
    }
  }

  /** Deleting the task opens the settings again. */
  lemma DeletionReopensSettings(s: System, caller: nat, change: Change, deleted: System, begun: System)
    requires caller !in s.calls && s.mutex.None? && deleted == Step(s, TakeHandle)
    requires begun == Step(deleted, Begin(caller, LockToSet(change)))
    ensures Alone(begun, caller, 4) == s.(handle := None, stored := Changed(s.stored, change))
  {
    LoneSetter(deleted, caller, change, begun);
  }

  lemma LoneReads(s: System, caller: nat, begun: System)
    requires caller !in s.calls && s.mutex.None? && s.handle.None?
    requires begun == Step(s, Begin(caller, LockToInitialize))
    ensures Alone(begun, caller, 5) == Inside(s, caller, Create(s.stored))
  {
    var c := s.stored;
    assert Alone(begun, caller, 0) == begun;
    InsideMoves(s, caller, LockToInitialize, Recheck);
    AloneNext(begun, caller, 0, begun, LockToInitialize, Inside(s, caller, Recheck));
    InsideMoves(s, caller, Recheck, ReadStack);
    AloneNext(begun, caller, 1, Inside(s, caller, Recheck), Recheck, Inside(s, caller, ReadStack));
    InsideMoves(s, caller, ReadStack, ReadPriority(c.stack));
    AloneNext(begun, caller, 2, Inside(s, caller, ReadStack), ReadStack, Inside(s, caller, ReadPriority(c.stack)));
    InsideMoves(s, caller, ReadPriority(c.stack), ReadCore(c.stack, c.priority));
    AloneNext(begun, caller, 3, Inside(s, caller, ReadPriority(c.stack)), ReadPriority(c.stack),
              Inside(s, caller, ReadCore(c.stack, c.priority)));
    InsideMoves(s, caller, ReadCore(c.stack, c.priority), Create(c));
    AloneNext(begun, caller, 4, Inside(s, caller, ReadCore(c.stack, c.priority)), ReadCore(c.stack, c.priority),
              Inside(s, caller, Create(c)));
  }

  /** Initialize creates and publishes a task with what is stored, if none is published. */
  lemma LoneInitialize(s: System, caller: nat, begun: System)
    requires caller !in s.calls && s.mutex.None? && s.handle.None?
    requires begun == Step(s, Begin(caller, LockToInitialize))
    ensures Alone(begun, caller, 8) == s.(tasks := s.tasks + [s.stored], handle := Some(|s.tasks|))
  {
    var c := s.stored;
    LoneReads(s, caller, begun);
    var created := s.(tasks := s.tasks + [c]);
    InsideMoves(created, caller, Create(c), Publish(|s.tasks|));
    AloneNext(begun, caller, 5, Inside(s, caller, Create(c)), Create(c), Inside(created, caller, Publish(|s.tasks|)));
    var published := created.(handle := Some(|s.tasks|));
    InsideMoves(published, caller, Publish(|s.tasks|), Unlock);
    AloneNext(begun, caller, 6, Inside(created, caller, Publish(|s.tasks|)), Publish(|s.tasks|),
              Inside(published, caller, Unlock));
    InsideLeaves(published, caller);
    AloneNext(begun, caller, 7, Inside(published, caller, Unlock), Unlock, published);
  }

  // ---------------------------------------------------------------- the object

  /** The stored configuration and the handle, with calls that nothing interrupts. */
  class TaskSettings {
    var taskHandle: Option<nat>
    var coreId: int
    var stackSize: nat
    var priority: nat
    var tasks: seq<Configuration>      // the platform's tasks, as they were created

    ghost function View(): System
      reads this
    {
      System(None, taskHandle, Configuration(coreId, stackSize, priority), tasks, map[], false)
    }

    constructor (coreId: int, stackSize: nat, priority: nat)
      ensures View() == Initial(Configuration(coreId, stackSize, priority)) && Consistent(View())
    {
      this.coreId, this.stackSize, this.priority, taskHandle, tasks := coreId, stackSize, priority, None, [];
    }

    method SetCoreId(value: int)
      requires Consistent(View())
      modifies this`coreId
      ensures Consistent(View()) && coreId == if taskHandle.None? then value else old(coreId)
      ensures taskHandle.None? ==> View() == old(View()).(stored := Changed(old(View()).stored, Core(value)))
    {
      if taskHandle.None? {
        coreId := value;
      }
    }

    method SetStackSize(value: nat)
      requires Consistent(View())
      modifies this`stackSize
      ensures Consistent(View()) && stackSize == if taskHandle.None? && value > 0 then value else old(stackSize)
      ensures taskHandle.None? ==> View() == old(View()).(stored := Changed(old(View()).stored, Stack(value)))
    {
      if taskHandle.None? && value > 0 {
        stackSize := value;
      }
    }

    method SetPriority(value: nat)
      requires Consistent(View())
      modifies this`priority
      ensures Consistent(View()) && priority == if taskHandle.None? then value else old(priority)
      ensures taskHandle.None? ==> View() == old(View()).(stored := Changed(old(View()).stored, Priority(value)))
    {
      if taskHandle.None? {
        priority := value;
      }
    }

    /** The section of Initialize under the configuration mutex. */
    method CreateTask(created: bool) returns (published: bool)
      requires Consistent(View())
      modifies this`taskHandle, this`tasks
      ensures Consistent(View())
      ensures published <==> old(taskHandle).None? && created
      ensures published ==>
                taskHandle == Some(|old(tasks)|) && tasks == old(tasks) + [Configuration(coreId, stackSize, priority)]
      ensures !published ==> View() == old(View())
    {
      published := taskHandle.None? && created;
      if published {
        taskHandle := Some(|tasks|);
        tasks := tasks + [Configuration(coreId, stackSize, priority)];
      }
    }

    /** Deletion takes the handle, after which the configuration may change again. */
    method DeleteTask() returns (deleted: Option<nat>)
      requires Consistent(View())
      modifies this`taskHandle
      ensures Consistent(View()) && taskHandle.None? && deleted == old(taskHandle)
    {
      deleted := taskHandle;
      taskHandle := None;
    }
  }
}
