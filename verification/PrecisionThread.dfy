/** The schedule of a PrecisionThread as it is stored and updated: words, a deque and two cached frequencies. */
module PrecisionThreads {
  import opened Foundations
  import opened PrecisionTiming
  import opened PrecisionRuns

  /** What one OnLoop call did. */
  datatype Outcome = WorkWoken | Waited(milliseconds: nat) | Iterated(delta: Nanoseconds, skipped: Nanoseconds)

  class PrecisionThread {
    var deltaMode: DeltaMode
    var iterationPeriod: uint64
    var desiredPeriod: uint64
    var sampleCount: nat
    var samples: seq<Nanoseconds>
    var frequency: real
    var averageFrequency: real
    var scheduleInitialized: bool
    var hasPrevious: bool
    var previousStart: uint64
    var previousEnd: uint64
    var nextIteration: uint64
    var activeStart: uint64
    var generation: uint64
    var workWakeRequested: bool

    /** The cached frequencies are those of the window, which holds no zero delta and no more than asked for. */
    ghost predicate Valid()
      reads this
    {
      && |samples| <= sampleCount
      && NonZero(samples)
      && frequency == LatestFrequency(samples)
      && averageFrequency == AverageFrequency(samples)
    }

    ghost function View(): Timing
      reads this
    {
      Timing(deltaMode, iterationPeriod as int, desiredPeriod as int, sampleCount, samples,
             scheduleInitialized, hasPrevious, previousStart as int, previousEnd as int,
             nextIteration as int, activeStart as int, generation as int)
    }

    constructor ()
      ensures Valid() && View() == Fresh() && !workWakeRequested
    {
      deltaMode, iterationPeriod, desiredPeriod := StartToStart, 0, 0;
      sampleCount, samples, frequency, averageFrequency := 10, [], 0.0, 0.0;
      scheduleInitialized, hasPrevious := false, false;
      previousStart, previousEnd, nextIteration, activeStart, generation := 0, 0, 0, 0, 0;
      workWakeRequested := false;
    }

    method SlideSamples(delta: uint64)
      requires 0 < sampleCount
      modifies this`samples
      ensures samples == Suffix(old(samples) + [delta as int], sampleCount)
    {
      samples := samples + [delta as int];
      ghost var all := samples;
      while |samples| > sampleCount
        invariant |samples| <= |all| && samples == all[|all| - |samples|..]
        invariant |samples| < |all| ==> sampleCount <= |samples|
      {
        samples := samples[1..];
      }
    }

    method AverageSamples()
      modifies this`averageFrequency
      ensures averageFrequency == AverageFrequency(samples)
    {
      var total := 0.0;
      for i := 0 to |samples|
        invariant total == Sum(samples[..i]) as real
      {
        assert samples[..i + 1][..i] == samples[..i];
        total := total + samples[i] as real;
      }
      assert samples[..|samples|] == samples;
      averageFrequency := if total > 0.0 then |samples| as real * NANOSECONDS_PER_SECOND / total else 0.0;
    }

    method RecordSample(delta: uint64)
      requires Valid()
      modifies this`samples, this`frequency, this`averageFrequency
      ensures Valid() && View() == Record(old(View()), delta as int)
    {
      if sampleCount == 0 || delta == 0 {
        return;
      }
      frequency := FrequencyOf(delta as int);
      WindowEndsWithNewest(samples, delta as int, sampleCount);
      SlideSamples(delta);
      AverageSamples();
    }

    method MeasureDelta(now: uint64) returns (delta: uint64)
      requires Valid()
      modifies this`samples, this`frequency, this`averageFrequency
      ensures Valid() && delta as int == DeltaAt(old(View()), now as int)
      ensures View() == if hasPrevious && now >= previousStart
                        then Record(old(View()), now as int - previousStart as int)
                        else old(View())
    {
      delta := 0;
      if hasPrevious {
        var baseline := if deltaMode == StartToStart then previousStart else previousEnd;
        delta := if now >= baseline then now - baseline else 0;
        if now >= previousStart {
          RecordSample(now - previousStart);
        }
      }
    }

    method MoveDeadline(now: uint64) returns (skipped: uint64)
      requires iterationPeriod > 0 && now >= nextIteration
      modifies this`nextIteration
      ensures skipped as int == GridSkips(old(nextIteration) as int, iterationPeriod as int, now as int)
      ensures nextIteration as int
              == Min(MAX_UINT64, GridDeadline(old(nextIteration) as int, iterationPeriod as int, now as int))
    {
      skipped := (now - nextIteration) / iterationPeriod;
      GridClosedForm(nextIteration as int, iterationPeriod as int, now as int);
      nextIteration := AdvanceDeadline(nextIteration, iterationPeriod, now);
    }

    method StartIteration(now: uint64) returns (decision: Decision)
      requires Valid() && scheduleInitialized && !MustWait(View(), now as int)
      modifies this
      ensures Valid() && workWakeRequested == old(workWakeRequested)
      ensures View() == Started(old(View()), now as int)
      ensures decision == Iterate(DeltaAt(old(View()), now as int), SkippedAt(old(View()), now as int),
                                  old(generation) as int)
    {
      ghost var before := View();
      assert Scheduled(before, now as int) == before;
      var delta := MeasureDelta(now);
      ghost var measured := View();
      var skipped: uint64 := 0;
      if iterationPeriod > 0 {
        skipped := MoveDeadline(now);
      }
      assert View() == measured.(next := nextIteration as int);
      activeStart := now;
      decision := Iterate(delta as int, skipped as int, generation as int);
    }

    /** First critical section of OnLoop. */
    method BeginPass(now: uint64) returns (decision: Decision)
      requires Valid()
      modifies this
      ensures Valid() && workWakeRequested == old(workWakeRequested)
      ensures (View(), decision) == Begin(old(View()), now as int)
    {
      if !scheduleInitialized {
        scheduleInitialized, nextIteration := true, now;
      }
      if iterationPeriod > 0 && now < nextIteration {
        return Wait((nextIteration - now) as int);
      }
      decision := StartIteration(now);
    }

    /** Second critical section of OnLoop. */
    method FinishPass(measured: uint64, start: uint64, end: uint64)
      requires Valid()
      modifies this`previousStart, this`previousEnd, this`hasPrevious
      ensures Valid()
      ensures View() == Complete(old(View()), measured as int, start as int, end as int)
    {
      if measured == generation {
        previousStart, previousEnd, hasPrevious := start, end, true;
      }
    }

    /** A whole OnLoop call with nothing interleaved; Iterate returns at end. */
    method OnLoop(now: uint64, end: uint64) returns (outcome: Outcome)
      requires Valid()
      modifies this
      ensures Valid() && !workWakeRequested
      ensures outcome.WorkWoken? <==> old(workWakeRequested)
      ensures outcome.WorkWoken? ==> View() == old(View())
      ensures outcome.Waited? ==>
                && Begin(old(View()), now as int).1.Wait?
                && View() == Begin(old(View()), now as int).0
                && outcome.milliseconds == WaitMilliseconds(Begin(old(View()), now as int).1.remaining)
      ensures outcome.Iterated? ==>
                && Begin(old(View()), now as int).1
                   == Iterate(outcome.delta, outcome.skipped, old(generation) as int)
                && View() == Complete(Begin(old(View()), now as int).0, generation as int, now as int, end as int)
    {
      var woken := workWakeRequested;
      workWakeRequested := false;
      if woken {
        return WorkWoken;
      }
      var decision := BeginPass(now);
      match decision
      case Wait(remaining) =>
        outcome := Waited(WaitMilliseconds(remaining));
      case Iterate(delta, skipped, measured) =>
        FinishPass(measured as uint64, now, end);
        outcome := Iterated(delta, skipped);
    }

    /** Requests coalesce: however often it is called, one pass serves the wake and leaves the schedule alone. */
    method WakeForWork()
      requires Valid()
      modifies this`workWakeRequested
      ensures workWakeRequested && View() == old(View())
    {
      workWakeRequested := true;
    }

    method ResetMeasurements()
      modifies this`generation, this`hasPrevious, this`previousStart, this`previousEnd, this`activeStart,
               this`samples, this`frequency, this`averageFrequency
      ensures Valid() && View() == ClearMeasurements(old(View()))
    {
      generation := if generation == 0xFFFF_FFFF_FFFF_FFFF then 0 else generation + 1;
      hasPrevious, previousStart, previousEnd, activeStart := false, 0, 0, 0;
      samples, frequency, averageFrequency := [], 0.0, 0.0;
    }

    method Reset()
      modifies this
      ensures Valid() && View() == ResetSchedule(old(View())) && workWakeRequested == old(workWakeRequested)
    {
      scheduleInitialized, nextIteration := false, 0;
      ResetMeasurements();
    }

    method BumpTo(now: uint64)
      requires Valid()
      modifies this`nextIteration, this`scheduleInitialized
      ensures Valid() && View() == Bump(old(View()), now as int)
    {
      nextIteration, scheduleInitialized := now, true;
    }

    method SetIterationDeltaMode(mode: DeltaMode)
      requires Valid()
      modifies this
      ensures Valid() && View() == SetMode(old(View()), mode) && workWakeRequested == old(workWakeRequested)
    {
      if deltaMode != mode {
        deltaMode := mode;
        ResetMeasurements();
      }
    }

    method SetIterationPeriod(period: uint64)
      requires Valid()
      modifies this`iterationPeriod, this`desiredPeriod, this`scheduleInitialized
      ensures Valid() && View() == SetPeriod(old(View()), period as int)
    {
      iterationPeriod := period;
      if period > 0 && desiredPeriod > 0 && desiredPeriod < period {
        desiredPeriod := period;
      }
      scheduleInitialized := false;
    }

    method SetDesiredIterationPeriod(desired: uint64)
      requires Valid()
      modifies this`desiredPeriod
      ensures Valid() && View() == SetDesired(old(View()), desired as int)
    {
      desiredPeriod := if iterationPeriod > 0 && desired > 0 && desired < iterationPeriod
                       then iterationPeriod else desired;
    }

    method SetIterationSampleCount(count: nat)
      modifies this`sampleCount, this`samples, this`frequency, this`averageFrequency
      ensures Valid() && View() == SetSampleCount(old(View()), count)
    {
      sampleCount, samples, frequency, averageFrequency := count, [], 0.0, 0.0;
    }
  }

  method Perform(thread: PrecisionThread, running: Option<Running>, op: Op) returns (next: Option<Running>)
    requires thread.Valid()
    modifies thread
    ensures thread.Valid()
    ensures Machine(thread.View(), next) == Apply(Machine(old(thread.View()), running), op)
  {
    next := running;
    match op
    case WorkWake =>
      thread.WakeForWork();
      var _ := thread.OnLoop(0, 0);
    case Loop(now) =>
      if running.None? {
        var decision := thread.BeginPass(now as uint64);
        next := if decision.Iterate? then Some(Running(now, decision.generation)) else None;
      }
    case Finish(end) =>
      if running.Some? {
        thread.FinishPass(running.value.generation as uint64, running.value.start as uint64, end as uint64);
        next := None;
      }
    case Restart =>
      thread.Reset();
      next := None;
    case Reset => thread.Reset();
    case BumpTo(now) => thread.BumpTo(now as uint64);
    case ChangeMode(mode) => thread.SetIterationDeltaMode(mode);
    case ChangePeriod(period) => thread.SetIterationPeriod(period as uint64);
    case ChangeDesired(desired) => thread.SetDesiredIterationPeriod(desired as uint64);
    case ChangeSampleCount(count) => thread.SetIterationSampleCount(count);
  }

  /**
   * Whole runs: performing any operations one after the other on the stored fields leads where the pure run
   * leads, so everything proved of runs holds of the object.
   */
  method Replay(thread: PrecisionThread, ops: seq<Op>) returns (running: Option<Running>)
    requires thread.Valid()
    modifies thread
    ensures thread.Valid()
    ensures Machine(thread.View(), running) == Run(Machine(old(thread.View()), None), ops)
  {
    running := None;
    for i := 0 to |ops|
      invariant thread.Valid()
      invariant Machine(thread.View(), running) == Run(Machine(old(thread.View()), None), ops[..i])
    {
      assert Front(ops[..i + 1]) == ops[..i] && Last(ops[..i + 1]) == ops[i];
      running := Perform(thread, running, ops[i]);
    }
    assert ops[..|ops|] == ops;
  }
}
