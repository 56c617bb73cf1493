/**
 * How a task's exit is finalized and dispatched, as the methods of Thread do it on the stored atomics. Called with
 * nothing in between, each method takes exactly the steps TaskExit gives its party.
 */
module ThreadTasks {
  import opened Foundations
  import opened ThreadStates
  import opened TaskExit

  // Any number of steps by one party with nothing in between; Step hands each of them to the same function.

  function WorkerSteps(s: System, k: nat, n: nat): System {
    if n == 0 then s
    else
      var before := WorkerSteps(s, k, n - 1);
      if k in before.workers then WorkerStep(before, k, false) else before
  }

  function DispatcherSteps(s: System, n: nat): System {
    if n == 0 then s else DispatcherStep(DispatcherSteps(s, n - 1))
  }

  function StopSteps(s: System, n: nat): System {
    if n == 0 then s
    else
      var before := StopSteps(s, n - 1);
      if before.stage.Stopping? then Stop(before, before.stage.teardown, before.stage.status) else before
  }

  lemma {:induction false} WorkerStepsKeepInv(s: System, k: nat, n: nat, after: System)
    requires Inv(s) && after == WorkerSteps(s, k, n)
    ensures Inv(after)
    decreases n
  {
    if n > 0 {
      var before := WorkerSteps(s, k, n - 1);
      WorkerStepsKeepInv(s, k, n - 1, before);
      if k in before.workers {
        WorkerKeepsInv(before, k, false, after);
      }
    }
  }

  lemma {:induction false} DispatcherStepsKeepInv(s: System, n: nat, after: System)
    requires Inv(s) && after == DispatcherSteps(s, n)
    ensures Inv(after)
    decreases n
  {
    if n > 0 {
      var before := DispatcherSteps(s, n - 1);
      DispatcherStepsKeepInv(s, n - 1, before);
      DispatcherKeepsInv(before, after);
    }
  }

  lemma {:induction false} StopStepsKeepInv(s: System, n: nat, after: System)
    requires Inv(s) && after == StopSteps(s, n)
    ensures Inv(after)
    decreases n
  {
    if n > 0 {
      var before := StopSteps(s, n - 1);
      StopStepsKeepInv(s, n - 1, before);
      if before.stage.Stopping? {
        InitializeKeepsInv(before, true, false, after);
      }
    }
  }

  /** The tasks left once the one a handle names is deleted. */
  function Without(workers: map<nat, Worker>, handle: Option<nat>): map<nat, Worker> {
    if handle.Some? then workers - {handle.value} else workers
  }

  /** Handle taken, task deleted. */
  function TaskDeleted(s: System): System {
    s.(handle := None, workers := Without(s.workers, s.handle))
  }

  /** Exit finalized for the first time, its record queued. */
  function RecordQueued(s: System, k: nat): System {
    s.(finalizing := true, pending := true, queue := s.queue + [Own(k)], sent := s.sent + [k])
  }

  /** The same while the send waits for room. */
  function RecordDue(s: System): System {
    s.(finalizing := true, pending := true)
  }

  /** TrySetThreadState(Terminating, Terminated). */
  function Ended(state: ThreadState): ThreadState {
    if state == Terminating then Terminated else state
  }

  lemma StopTakesTwoSteps(s: System, status: Status)
    requires s.stage == Stopping(TakeHandle, status)
    ensures StopSteps(s, 2) == StopTo(TaskDeleted(s), ClaimExit, status)
  {
    assert StopSteps(s, 1) == StopTo(s.(handle := None), DeleteTask(s.handle), status);
  }

  /** _finalizeStoppedTaskExit: claim, flag, and the send, which waits while the queue is full. */
  lemma StoppedExitTakesThreeSteps(s: System, status: Status)
    requires s.stage == Stopping(ClaimExit, status) && !s.finalizing
    ensures StopSteps(s, 3) ==
            if |s.queue| < QUEUE_LENGTH then Return(RecordQueued(s, s.created), status)
            else StopTo(RecordDue(s), SendRecord, status)
  {
    assert StopSteps(s, 0) == s;
    assert StopSteps(s, 1) == StopTo(s.(finalizing := true), MarkPending, status);
    assert StopSteps(s, 2) == StopTo(RecordDue(s), SendRecord, status);
  }

  lemma WorkToAgain(workers: map<nat, Worker>, k: nat, a: Worker, b: Worker)
    ensures workers[k := a][k := b] == workers[k := b]
  {
  }

  /** The steps on a worker's way out, from wherever it stands. */
  lemma ExitStep(s: System, k: nat, at: Worker)
    requires at.Claiming? || at.Finishing? || at.Announcing? || at.Sending?
    ensures WorkerStep(WorkTo(s, k, at), k, false) ==
            (if at.Claiming? && s.finalizing then WorkTo(s, k, Suspended)
             else if at.Claiming? then WorkTo(s.(finalizing := true), k, Finishing)
             else if at.Finishing? then WorkTo(s.(state := Ended(s.state)), k, Announcing)
             else if at.Announcing? then WorkTo(s.(pending := true), k, Sending)
             else if |s.queue| >= QUEUE_LENGTH then WorkTo(s, k, Sending)
             else WorkTo(s.(queue := s.queue + [Own(k)], sent := s.sent + [k]), k, Suspended))
  {
    WorkToAgain(s.workers, k, at, Suspended);
    WorkToAgain(s.workers, k, at, if at.Claiming? then Finishing else if at.Finishing? then Announcing else Sending);
  }

  lemma OneMoreStep(s: System, k: nat, n: nat, before: System, after: System)
    requires before == WorkerSteps(s, k, n) && k in before.workers && after == WorkerStep(before, k, false)
    ensures WorkerSteps(s, k, n + 1) == after
  {
  }

  lemma AnnouncedExitTakesTwoSteps(claiming: System, ended: System, k: nat)
    requires WorkerSteps(claiming, k, 2) == WorkTo(ended, k, Announcing)
    ensures WorkerSteps(claiming, k, 4) ==
            var due := ended.(pending := true);
            if |ended.queue| < QUEUE_LENGTH
            then WorkTo(due.(queue := due.queue + [Own(k)], sent := due.sent + [k]), k, Suspended)
            else WorkTo(due, k, Sending)
  {
    var due := ended.(pending := true);
    ExitStep(ended, k, Announcing);
    OneMoreStep(claiming, k, 2, WorkTo(ended, k, Announcing), WorkTo(due, k, Sending));
    ExitStep(due, k, Sending);
    OneMoreStep(claiming, k, 3, WorkTo(due, k, Sending), WorkerStep(WorkTo(due, k, Sending), k, false));
  }

  /** _finalizeCurrentTaskExit: claim, state, flag, and the send, which waits while the queue is full. */
  lemma CurrentExitTakesFourSteps(s: System, k: nat, claiming: System)
    requires claiming == WorkTo(s, k, Claiming) && !s.finalizing
    ensures WorkerSteps(claiming, k, 4) ==
            var ended := s.(state := Ended(s.state));
            if |s.queue| < QUEUE_LENGTH then WorkTo(RecordQueued(ended, k), k, Suspended)
            else WorkTo(RecordDue(ended), k, Sending)
  {
    ExitStep(s, k, Claiming);
    var claimed := s.(finalizing := true);
    var ended := claimed.(state := Ended(s.state));
    OneMoreStep(claiming, k, 0, claiming, WorkTo(claimed, k, Finishing));
    ExitStep(claimed, k, Finishing);
    OneMoreStep(claiming, k, 1, WorkTo(claimed, k, Finishing), WorkTo(ended, k, Announcing));
    AnnouncedExitTakesTwoSteps(claiming, ended, k);
  }

  lemma DispatchDeletesInTwoSteps(s: System, k: nat)
    requires s.dispatcher == Exchanging(k)
    ensures DispatcherSteps(s, 2) == TaskDeleted(s).(dispatcher := Reporting(k))
  {
    assert DispatcherSteps(s, 1) == s.(handle := None, dispatcher := Deleting(k, s.handle));
  }

  lemma ReportTakesThreeSteps(s: System, n: nat, deleted: System, k: nat)
    requires DispatcherSteps(s, n) == deleted && deleted.dispatcher == Reporting(k)
    ensures DispatcherSteps(s, n + 3)
         == deleted.(exit := Some(k), pending := false, done := deleted.done + [k], dispatcher := Receiving)
  {
    assert DispatcherSteps(s, n + 1) == deleted.(dispatcher := Giving(k));
    assert DispatcherSteps(s, n + 2) == deleted.(exit := Some(k), dispatcher := Clearing(k));
  }

  /** _dispatchTermination: take the handle, delete, report, give, clear. */
  lemma DispatchTakesFiveSteps(s: System, k: nat, after: System)
    requires s.dispatcher == Exchanging(k) && after == DispatcherSteps(s, 5)
    ensures after == TaskDeleted(s).(exit := Some(k), pending := false, done := s.done + [k], dispatcher := Receiving)
  {
    var reporting := TaskDeleted(s).(dispatcher := Reporting(k));
    DispatchDeletesInTwoSteps(s, k);
    ReportTakesThreeSteps(s, 2, reporting, k);
  }

  // What the invariant tells the methods below when they are called.

  lemma StoppedExitIsUnclaimed(s: System)
    requires Inv(s) && s.stage.Stopping? && s.stage.teardown.ClaimExit?
    ensures !s.finalizing && !s.pending && s.handle.None? && NoTask(s.workers)
  {
  }

  lemma CurrentExitIsUnclaimed(s: System, k: nat)
    requires Inv(s) && k in s.workers && s.workers[k].Claiming?
    ensures !s.finalizing && !s.pending && k == s.created && OnlyTask(s.workers, k, Claiming)
  {
  }

  /** A dispatch finds the state Terminated, the flag up and nothing but the suspended worker of its incarnation. */
  lemma DispatchFindsItsWorker(s: System, k: nat)
    requires Inv(s) && s.dispatcher == Exchanging(k)
    ensures s.state == Terminated && s.pending && k == s.created == |s.done| + 1
    ensures NoTask(Without(s.workers, s.handle))
  {
  }

  lemma StopDeletesItsTask(s: System)
    requires Inv(s) && s.stage.Stopping? && s.stage.teardown.TakeHandle?
    ensures NoTask(Without(s.workers, s.handle))
  {
  }

  /** How the platform answers a send: Waiting while the queue is full, Refused when the queue fails. */
  datatype SendAnswer = Sent | Waiting | Refused

  predicate Answers(s: System, answer: SendAnswer) {
    answer.Refused? || (answer.Sent? <==> |s.queue| < QUEUE_LENGTH)
  }

  class ThreadTask {
    var threadState: ThreadState
    var taskHandle: Option<nat>
    var dispatchPending: bool
    var finalizationStarted: bool
    var taskExited: Option<nat>
    ghost var others: System   // what is not this object's: tasks, queue, and where every party stands

    ghost function View(): System
      reads this
    {
      others.(state := threadState, handle := taskHandle, pending := dispatchPending,
      finalizing := finalizationStarted, exit := taskExited)
    }

    constructor ()
      ensures View() == Initial() && Inv(View())
    {
      threadState, taskHandle, dispatchPending, finalizationStarted, taskExited :=
        Uninitialized, None, false, false, None;
      others := Initial();
    }

    /** The handle is taken before the task is deleted, so no two callers delete one task. */
    method DeleteTask()
      modifies this`taskHandle, this`others
      ensures View() == TaskDeleted(old(View()))
    {
      var handle := taskHandle;
      taskHandle := None;
      others := others.(workers := Without(others.workers, handle));
    }

    method BeginTaskExitFinalization() returns (first: bool)
      modifies this`finalizationStarted
      ensures finalizationStarted && first == !old(finalizationStarted)
    {
      first := !finalizationStarted;
      finalizationStarted := true;
    }

    /**
     * The flag goes up before the record is queued, so the dispatcher's clearing of it comes last. With the answer
     * Waiting the contracts here and below say how far the call has come when it stands at the send.
     */
    method QueueTaskExitFinalization(ghost k: nat, answer: SendAnswer) returns (queued: bool)
      requires finalizationStarted && Answers(View(), answer)
      modifies this`dispatchPending, this`others
      ensures queued == answer.Sent?
      ensures View() == match answer
                        case Sent => RecordQueued(old(View()), k)
                        case Waiting => RecordDue(old(View()))
                        case Refused => old(View()).(pending := false)
    {
      dispatchPending := true;
      queued := answer.Sent?;
      if queued {
        others := others.(queue := others.queue + [Own(k)], sent := others.sent + [k]);
      } else if answer.Refused? {
        dispatchPending := false;
      }
    }

    /** The first half of giving a task up in Initialize. */
    method StopTask()
      requires Inv(View()) && View().stage.Stopping? && View().stage.teardown == TakeHandle
      modifies this
      ensures View() == StopSteps(old(View()), 2)
      ensures Inv(View()) && taskHandle.None? && NoTask(View().workers)
    {
      StopTakesTwoSteps(View(), View().stage.status);
      StopStepsKeepInv(View(), 2, StopSteps(View(), 2));
      StopDeletesItsTask(View());
      DeleteTask();
      others := others.(stage := Stopping(ClaimExit, others.stage.status));
    }

    /** The second half. */
    method FinalizeStoppedTaskExit(answer: SendAnswer)
      requires Inv(View()) && View().stage.Stopping? && View().stage.teardown == ClaimExit
      requires Answers(View(), answer)
      modifies this
      ensures !answer.Refused? ==> View() == StopSteps(old(View()), 3) && Inv(View())
      ensures answer.Refused? ==> View() == Return(old(View()).(finalizing := true), old(View()).stage.status)
    {
      StoppedExitIsUnclaimed(View());
      StoppedExitTakesThreeSteps(View(), View().stage.status);
      StopStepsKeepInv(View(), 3, StopSteps(View(), 3));
      var first := BeginTaskExitFinalization();
      if first {
        var _ := QueueTaskExitFinalization(others.created, answer);
      }
      others := others.(stage := if answer.Waiting? then Stopping(SendRecord, others.stage.status)
                                 else Outside(others.stage.status));
    }

    /** The worker's way out; afterwards it only sleeps until it is deleted. */
    method FinalizeCurrentTaskExit(ghost k: nat, answer: SendAnswer)
      requires Inv(View()) && k in View().workers && View().workers[k].Claiming?
      requires Answers(View(), answer)
      modifies this
      ensures !answer.Refused? ==> View() == WorkerSteps(old(View()), k, 4) && Inv(View())
      ensures answer.Refused? ==>
                View() == WorkTo(old(View()).(finalizing := true, state := Ended(old(threadState))), k, Suspended)
    {
      CurrentExitIsUnclaimed(View(), k);
      assert View().workers[k := Claiming] == View().workers;
      CurrentExitTakesFourSteps(View(), k, View());
      WorkerStepsKeepInv(View(), k, 4, WorkerSteps(View(), k, 4));
      var first := BeginTaskExitFinalization();
      if first {
        threadState := Ended(threadState);
        var _ := QueueTaskExitFinalization(k, answer);
      }
      others := others.(workers := others.workers[k := if answer.Waiting? then Sending else Suspended]);
    }

    /** The dispatcher's last accesses to the object; reported says that OnTerminated and the observers are called. */
    method DispatchTermination(k: nat) returns (reported: bool)
      requires Inv(View()) && View().dispatcher == Exchanging(k)
      modifies this
      ensures View() == DispatcherSteps(old(View()), 5)
      ensures Inv(View()) && NoTask(View().workers) && taskHandle.None? && !dispatchPending
      ensures reported && threadState == Terminated && k == View().created == |View().done|
    {
      DispatchTakesFiveSteps(View(), k, DispatcherSteps(View(), 5));
      DispatcherStepsKeepInv(View(), 5, DispatcherSteps(View(), 5));
      DispatchFindsItsWorker(View(), k);
      DeleteTask();
      reported := threadState == Terminated;
      taskExited := Some(k);
      dispatchPending := false;
      others := others.(done := others.done + [k], dispatcher := Receiving);
    }
  }
}
