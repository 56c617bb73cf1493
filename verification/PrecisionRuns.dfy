/**
 * Whole runs of one PrecisionThread: loop passes of the worker interleaved, critical section by critical
 * section, with every call another task can make on the schedule.
 */
module PrecisionRuns {
  import opened Foundations
  import opened PrecisionTiming

  /** An iteration between its two critical sections. */
  datatype Running = Running(start: Nanoseconds, generation: Nanoseconds)

  datatype Machine = Machine(timing: Timing, running: Option<Running>)

  datatype Op =
    | WorkWake                          // a pass that took the work-wake branch
    | Loop(now: Nanoseconds)            // first critical section of a pass
    | Finish(end: Nanoseconds)          // second critical section, after Iterate returned
    | Restart                           // Initialize for a new worker; an abandoned iteration is gone
    | Reset                             // Pause, resume or Initialize while the worker lives
    | BumpTo(now: Nanoseconds)
    | ChangeMode(mode: DeltaMode)
    | ChangePeriod(period: Nanoseconds)
    | ChangeDesired(desired: Nanoseconds)
    | ChangeSampleCount(count: nat)

  /** The operation is a pass that iterates. */
  predicate Runs(m: Machine, op: Op) {
    op.Loop? && m.running.None? && !MustWait(m.timing, op.now)
  }

  /** One operation; an operation the worker cannot perform at this point changes nothing. */
  function Apply(m: Machine, op: Op): Machine {
    match op
    case WorkWake => m
    case Loop(now) =>
      if m.running.Some? then m
      else
        var (timing, decision) := Begin(m.timing, now);
        Machine(timing, if decision.Iterate? then Some(Running(now, decision.generation)) else None)
    case Finish(end) =>
      if m.running.None? then m
      else Machine(Complete(m.timing, m.running.value.generation, m.running.value.start, end), None)
    case Restart => Machine(ResetSchedule(m.timing), None)
    case Reset => m.(timing := ResetSchedule(m.timing))
    case BumpTo(now) => m.(timing := Bump(m.timing, now))
    case ChangeMode(mode) => m.(timing := SetMode(m.timing, mode))
    case ChangePeriod(period) => m.(timing := SetPeriod(m.timing, period))
    case ChangeDesired(desired) => m.(timing := SetDesired(m.timing, desired))
    case ChangeSampleCount(count) => m.(timing := SetSampleCount(m.timing, count))
  }

  function Front(ops: seq<Op>): seq<Op>
    requires ops != []
  {
    ops[..|ops| - 1]
  }

  function Last(ops: seq<Op>): Op
    requires ops != []
  {
    ops[|ops| - 1]
  }

  function Run(m: Machine, ops: seq<Op>): Machine {
    if ops == [] then m else Apply(Run(m, Front(ops)), Last(ops))
  }

  /** A run from construction. */
  function History(ops: seq<Op>): Machine {
    Run(Machine(Fresh(), None), ops)
  }

  // ---------------------------------------------------------------- conservation of slots

  /** Operations that leave the deadline grid alone; a run of them is one epoch. */
  predicate KeepsGrid(op: Op) {
    !op.Restart? && !op.Reset? && !op.BumpTo? && !op.ChangePeriod?
  }

  predicate Epoch(ops: seq<Op>) {
    forall i :: 0 <= i < |ops| ==> KeepsGrid(ops[i])
  }

  function Iterations(m: Machine, ops: seq<Op>): nat {
    if ops == [] then 0
    else Iterations(m, Front(ops)) + if Runs(Run(m, Front(ops)), Last(ops)) then 1 else 0
  }

  /** The sum of the skip counts handed to Iterate. */
  function Skips(m: Machine, ops: seq<Op>): nat {
    if ops == [] then 0
    else
      var before := Run(m, Front(ops));
      Skips(m, Front(ops)) +
      if Runs(before, Last(ops)) then Begin(before.timing, Last(ops).now).1.skipped else 0
  }

  function Slots(m: Machine, ops: seq<Op>): nat {
    Iterations(m, ops) + Skips(m, ops)
  }

  lemma GridStep(first: Nanoseconds, slots: nat, period: Nanoseconds, now: Nanoseconds)
    requires period > 0
    requires now >= Min(MAX_UINT64, first + slots * period)
    ensures var next := Min(MAX_UINT64, first + slots * period);
            && GridSkips(next, period, now) == (now - next) / period <= MAX_UINT64
            && Min(MAX_UINT64, GridDeadline(next, period, now))
               == Min(MAX_UINT64, first + (slots + 1 + GridSkips(next, period, now)) * period)
  {
    var point := first + slots * period;
    var next := Min(MAX_UINT64, point);
    var skips := GridSkips(next, period, now);
    GridClosedForm(next, period, now);
    DivisionBounds(now - next, period);
    Distribute(slots, skips + 1, period);
    MultiplyMonotone(1, skips + 1, period);
    assert first + (slots + 1 + skips) * period == point + (skips + 1) * period;
    assert GridDeadline(next, period, now) == next + (skips + 1) * period;
  }

  /** Throughout an epoch the deadline is the grid point after all slots run or skipped, clamped to a word. */
  lemma {:induction false} DeadlineStaysOnGrid(m: Machine, ops: seq<Op>)
    requires m.timing.scheduled && m.timing.period > 0 && Epoch(ops)
    ensures var t := Run(m, ops).timing;
            && t.scheduled
            && t.period == m.timing.period
            && t.next == Min(MAX_UINT64, m.timing.next + Slots(m, ops) * t.period)
  {
    if ops != [] {
      DeadlineStaysOnGrid(m, Front(ops));
      var before := Run(m, Front(ops));
      if Runs(before, Last(ops)) {
        GridStep(m.timing.next, Slots(m, Front(ops)), m.timing.period, Last(ops).now);
      }
    }
  }

  lemma CountsGridPoints(first: Nanoseconds, slots: nat, period: Nanoseconds, now: Nanoseconds)
    requires period > 0
    requires now >= Min(MAX_UINT64, first + slots * period)
    ensures var next := Min(MAX_UINT64, first + slots * period);
            && (first + slots * period <= MAX_UINT64 <==>
                now >= first && slots + 1 + GridSkips(next, period, now) == (now - first) / period + 1)
  {
    MultiplyMonotone(0, slots, period);
    GridStep(first, slots, period, now);
    if first + slots * period <= MAX_UINT64 {
      QuotientAfterWholeSteps(slots, now - first - slots * period, period);
    } else {
      assert now == MAX_UINT64;
      ExceedsQuotient(slots, now - first, period);
    }
  }

  lemma SlotsAfter(m: Machine, ops: seq<Op>, now: Nanoseconds)
    requires Runs(Run(m, ops), Loop(now))
    ensures Slots(m, ops + [Loop(now)])
         == Slots(m, ops) + 1 + Begin(Run(m, ops).timing, now).1.skipped
  {
    assert Front(ops + [Loop(now)]) == ops;
  }

  /**
   * When a pass iterates, iterations and reported skips together number the grid points from the first
   * deadline up to its start, exactly when the deadline it ran against had not been clamped.
   */
  lemma SlotsAreConserved(m: Machine, ops: seq<Op>, now: Nanoseconds, before: nat, after: nat)
    requires m.timing.scheduled && m.timing.period > 0 && Epoch(ops)
    requires Runs(Run(m, ops), Loop(now))
    requires before == Slots(m, ops) && after == Slots(m, ops + [Loop(now)])
    ensures m.timing.next + before * m.timing.period <= MAX_UINT64
            <==> now >= m.timing.next && after == (now - m.timing.next) / m.timing.period + 1
  {
    DeadlineStaysOnGrid(m, ops);
    SlotsAfter(m, ops, now);
    CountsGridPoints(m.timing.next, before, m.timing.period, now);
  }

  /** So an iteration starts inside the slot it stands for, however late the pass is: no drift accumulates. */
  lemma IterationStartsInItsSlot(m: Machine, ops: seq<Op>, now: Nanoseconds, before: nat, after: nat)
    requires m.timing.scheduled && m.timing.period > 0 && Epoch(ops)
    requires Runs(Run(m, ops), Loop(now))
    requires before == Slots(m, ops) && after == Slots(m, ops + [Loop(now)])
    requires m.timing.next + before * m.timing.period <= MAX_UINT64
    ensures m.timing.next + (after - 1) * m.timing.period <= now < m.timing.next + after * m.timing.period
  {
    SlotsAreConserved(m, ops, now, before, after);
    DivisionBounds(now - m.timing.next, m.timing.period);
  }

  /** A pass over an unscheduled thread starts an epoch whose first deadline is that pass. */
  lemma UnscheduledPassOpensEpoch(m: Machine, now: Nanoseconds)
    requires !m.timing.scheduled && m.running.None?
    ensures var epoch := m.(timing := Scheduled(m.timing, now));
            && epoch.timing.next == now
            && Runs(m, Loop(now))
            && Apply(m, Loop(now)) == Apply(epoch, Loop(now))
  {
  }

  /** A reset, a new period or a bump up to now makes the next pass due at once, with nothing skipped by a reset. */
  lemma ChangedScheduleIsDue(m: Machine, op: Op, now: Nanoseconds)
    requires !KeepsGrid(op) && (op.BumpTo? ==> op.now <= now) && (m.running.None? || op.Restart?)
    ensures Runs(Apply(m, op), Loop(now))
    ensures var skipped := Begin(Apply(m, op).timing, now).1.skipped;
            if op.BumpTo? && m.timing.period > 0 then skipped == (now - op.now) / m.timing.period else skipped == 0
  {
    if op.BumpTo? && m.timing.period > 0 {
      GridClosedForm(op.now, m.timing.period, now);
    }
  }

  /** An iteration overtaken by a reset leaves no baseline: the next one is given a zero delta. */
  lemma OvertakenIterationIsForgotten(m: Machine, end: Nanoseconds, now: Nanoseconds)
    requires m.running.Some? && m.running.value.generation == m.timing.generation
    ensures var late := Apply(Apply(m, Reset), Finish(end));
            Runs(late, Loop(now)) && Begin(late.timing, now).1.delta == 0
  {
  }

  // ---------------------------------------------------------------- the settings are those last asked for

  /** The period last asked for; none at first. */
  function LastPeriod(ops: seq<Op>): Nanoseconds {
    if ops == [] then 0 else if Last(ops).ChangePeriod? then Last(ops).period else LastPeriod(Front(ops))
  }

  function LastMode(ops: seq<Op>): DeltaMode {
    if ops == [] then StartToStart else if Last(ops).ChangeMode? then Last(ops).mode else LastMode(Front(ops))
  }

  /** The sample count last asked for; ten at first. */
  function LastCount(ops: seq<Op>): nat {
    if ops == [] then 10 else if Last(ops).ChangeSampleCount? then Last(ops).count else LastCount(Front(ops))
  }

  function Larger(a: Nanoseconds, b: Nanoseconds): Nanoseconds {
    if a < b then b else a
  }

  /** The desired period last asked for, if any, lifted to every period in force since. */
  function LiftedDesired(ops: seq<Op>): Nanoseconds {
    if ops == [] then 0
    else if Last(ops).ChangeDesired? then
      if Last(ops).desired == 0 then 0 else Larger(Last(ops).desired, LastPeriod(Front(ops)))
    else if Last(ops).ChangePeriod? && LiftedDesired(Front(ops)) != 0 then
      Larger(LiftedDesired(Front(ops)), Last(ops).period)
    else LiftedDesired(Front(ops))
  }

  /** What one operation does to the settings. */
  lemma StepsSettings(m: Machine, op: Op, n: Timing)
    requires n == Apply(m, op).timing
    ensures n.period == if op.ChangePeriod? then op.period else m.timing.period
    ensures n.mode == if op.ChangeMode? then op.mode else m.timing.mode
    ensures n.sampleCount == if op.ChangeSampleCount? then op.count else m.timing.sampleCount
    ensures n.desired ==
            if op.ChangeDesired? then if op.desired == 0 then 0 else Larger(op.desired, m.timing.period)
            else if op.ChangePeriod? && m.timing.desired != 0 then Larger(m.timing.desired, op.period)
            else m.timing.desired
  {
  }

  /** Over every run: no call, pass or reset changes a setting but its own setter, which stores what it is given. */
  lemma {:induction false} SettingsAreLastSet(ops: seq<Op>, t: Timing)
    requires t == History(ops).timing
    ensures t.period == LastPeriod(ops) && t.mode == LastMode(ops) && t.sampleCount == LastCount(ops)
    ensures t.desired == LiftedDesired(ops)
  {
    if ops != [] {
      SettingsAreLastSet(Front(ops), History(Front(ops)).timing);
      StepsSettings(History(Front(ops)), Last(ops), t);
    }
  }

  /**
   * After a new period the first pass iterates, and a pass d later, with any wakes and the end of that iteration in
   * between, waits exactly when the period is not over: for the rest of it.
   */
  lemma NewPeriodIsKept(m: Machine, period: Nanoseconds, now: Nanoseconds, end: Nanoseconds, d: Nanoseconds,
                       n: Machine)
    requires m.running.None? && now + Larger(period, d) <= MAX_UINT64
    requires n == Apply(Apply(Apply(m, ChangePeriod(period)), Loop(now)), Finish(end))
    ensures Runs(Apply(m, ChangePeriod(period)), Loop(now))
    ensures Runs(n, Loop(now + d)) <==> period == 0 || d >= period
    ensures period > 0 && d < period ==> Begin(n.timing, now + d).1 == Wait(period - d)
  {
    if period > 0 {
      GridClosedForm(now, period, now);
      QuotientIs(0, period, 0);
    }
  }

  /** After a bump the next pass at or after the bump iterates, and one before it waits for it. */
  lemma BumpIsKept(m: Machine, bump: Nanoseconds, now: Nanoseconds)
    requires m.running.None?
    ensures Runs(Apply(m, BumpTo(bump)), Loop(now)) <==> m.timing.period == 0 || now >= bump
  {
  }

  // ---------------------------------------------------------------- generation guard

  predicate ResetsMeasurements(m: Machine, op: Op) {
    op.Restart? || op.Reset? || (op.ChangeMode? && op.mode != m.timing.mode)
  }

  /** How many operations at or after an index reset the measurements. */
  function Resets(ops: seq<Op>, from: nat): nat {
    if |ops| <= from then 0
    else Resets(Front(ops), from) + if ResetsMeasurements(History(Front(ops)), Last(ops)) then 1 else 0
  }

  /** Where the iteration still in progress began. */
  function InProgress(ops: seq<Op>): (b: Option<nat>)
    ensures b.Some? ==> b.value < |ops| && ops[b.value].Loop?
  {
    if ops == [] then None
    else if Runs(History(Front(ops)), Last(ops)) then Some(|ops| - 1)
    else if Last(ops).Finish? || Last(ops).Restart? then None
    else InProgress(Front(ops))
  }

  /** An iteration that began at operation b, finished at operation e, with no reset from b to the end. */
  ghost predicate CurrentIteration(ops: seq<Op>, b: nat, e: nat) {
    && b < e < |ops|
    && ops[e].Finish?
    && InProgress(ops[..e]) == Some(b)
    && Resets(ops, b + 1) == 0
  }

  /** The latest such iteration, found without looking at any generation counter. */
  function LatestCurrent(ops: seq<Op>): (latest: Option<(nat, nat)>)
    ensures latest.Some? ==>
              && latest.value.0 < latest.value.1 < |ops|
              && ops[latest.value.0].Loop? && ops[latest.value.1].Finish?
  {
    if ops == [] || ResetsMeasurements(History(Front(ops)), Last(ops)) then None
    else
      var b := InProgress(Front(ops));
      if Last(ops).Finish? && b.Some? && Resets(Front(ops), b.value + 1) == 0
      then Some((b.value, |ops| - 1))
      else LatestCurrent(Front(ops))
  }

  /** Fewer than 2^64 resets while any single iteration runs, so the generation word cannot come round. */
  predicate BoundedResets(ops: seq<Op>) {
    ops != [] ==>
      && BoundedResets(Front(ops))
      && (Last(ops).Finish? && InProgress(Front(ops)).Some? ==>
            Resets(Front(ops), InProgress(Front(ops)).value + 1) < TWO_TO_THE_64)
  }

  /** What one operation does to the iteration in progress and to the generation word. */
  lemma StepsGeneration(m: Machine, op: Op)
    ensures var next := Apply(m, op);
            && next.timing.generation == (if ResetsMeasurements(m, op) then NextWord(m.timing.generation)
                                          else m.timing.generation)
            && next.running == (if Runs(m, op) then Some(Running(op.now, m.timing.generation))
                                else if op.Finish? || op.Restart? then None
                                else m.running)
  {
  }

  lemma {:induction false} InProgressIsRunning(ops: seq<Op>, m: Machine)
    requires m == History(ops)
    ensures InProgress(ops).Some? <==> m.running.Some?
    ensures m.running.Some? ==>
              && ops[InProgress(ops).value].now == m.running.value.start
              && m.timing.generation
                 == WordAfter(m.running.value.generation, Resets(ops, InProgress(ops).value + 1))
  {
    if ops != [] {
      InProgressIsRunning(Front(ops), History(Front(ops)));
      StepsGeneration(History(Front(ops)), Last(ops));
    }
  }

  /** Finish is accepted exactly when the resets since its start number a multiple of 2^64. */
  lemma FinishAcceptedIff(ops: seq<Op>, m: Machine, b: nat)
    requires m == History(ops) && InProgress(ops) == Some(b)
    ensures m.running.Some?
    ensures m.running.value.generation == m.timing.generation
            <==> Resets(ops, b + 1) % TWO_TO_THE_64 == 0
    ensures Resets(ops, b + 1) < TWO_TO_THE_64 ==>
              (m.running.value.generation == m.timing.generation <==> Resets(ops, b + 1) == 0)
  {
    InProgressIsRunning(ops, m);
    WordComesRound(m.running.value.generation, Resets(ops, b + 1));
  }

  lemma {:induction false} LatestCurrentIsLatest(ops: seq<Op>, latest: Option<(nat, nat)>)
    requires latest == LatestCurrent(ops)
    ensures latest.None? ==> forall b: nat, e: nat :: !CurrentIteration(ops, b, e)
    ensures latest.Some? ==>
              && CurrentIteration(ops, latest.value.0, latest.value.1)
              && forall b: nat, e: nat :: CurrentIteration(ops, b, e) ==> e <= latest.value.1
  {
    if ops != [] {
      var p := Front(ops);
      LatestCurrentIsLatest(p, LatestCurrent(p));
      forall b: nat, e: nat | b < e < |ops|
        ensures Resets(ops, b + 1) == Resets(p, b + 1) +
                  if ResetsMeasurements(History(p), Last(ops)) then 1 else 0
        ensures p[..e] == ops[..e]
        ensures e < |p| && !ResetsMeasurements(History(p), Last(ops)) ==>
                  (CurrentIteration(ops, b, e) <==> CurrentIteration(p, b, e))
      {
      }
    }
  }

  /** What one operation does to the remembered previous iteration. */
  lemma StepsPrevious(m: Machine, op: Op)
    ensures var t, next := m.timing, Apply(m, op).timing;
            if ResetsMeasurements(m, op) then !next.hasPrevious
            else if op.Finish? && m.running.Some? && m.running.value.generation == t.generation
            then next.hasPrevious && next.previousStart == m.running.value.start && next.previousEnd == op.end
            else next.hasPrevious == t.hasPrevious && next.previousStart == t.previousStart
                 && next.previousEnd == t.previousEnd
  {
  }

  /** The generation counter keeps exactly the latest iteration that lies wholly after the last reset. */
  lemma {:induction false} PreviousIsLatestCurrent(ops: seq<Op>, t: Timing, latest: Option<(nat, nat)>)
    requires BoundedResets(ops)
    requires t == History(ops).timing && latest == LatestCurrent(ops)
    ensures t.hasPrevious <==> latest.Some?
    ensures latest.Some? ==>
              && ops[latest.value.0].now == t.previousStart
              && ops[latest.value.1].end == t.previousEnd
  {
    if ops != [] {
      var p, m := Front(ops), History(Front(ops));
      PreviousIsLatestCurrent(p, m.timing, LatestCurrent(p));
      InProgressIsRunning(p, m);
      StepsPrevious(m, Last(ops));
      if Last(ops).Finish? && InProgress(p).Some? {
        FinishAcceptedIff(p, m, InProgress(p).value);
      }
    }
  }

  /** The delta given to Iterate: zero without a current iteration, else the time since its start or end. */
  lemma DeltaMeasuresLatestCurrent(ops: seq<Op>, t: Timing, latest: Option<(nat, nat)>, now: Nanoseconds)
    requires BoundedResets(ops)
    requires t == History(ops).timing && latest == LatestCurrent(ops)
    requires Runs(History(ops), Loop(now))
    ensures Begin(t, now).1.delta ==
            if latest.None? then 0
            else
              var baseline := if LastMode(ops) == StartToStart then ops[latest.value.0].now
                              else ops[latest.value.1].end;
              if baseline <= now then now - baseline else 0
  {
    SettingsAreLastSet(ops, t);
    PreviousIsLatestCurrent(ops, t, latest);
  }

  // ---------------------------------------------------------------- time available

  /** When the iteration counted as active began: the latest one since the last reset, zero without one. */
  function LatestPass(ops: seq<Op>): Nanoseconds {
    if ops == [] || ResetsMeasurements(History(Front(ops)), Last(ops)) then 0
    else if Runs(History(Front(ops)), Last(ops)) then Last(ops).now
    else LatestPass(Front(ops))
  }

  lemma StepsActive(m: Machine, op: Op, n: Timing)
    requires n == Apply(m, op).timing
    ensures n.activeStart ==
            if ResetsMeasurements(m, op) then 0 else if Runs(m, op) then op.now else m.timing.activeStart
  {
  }

  lemma {:induction false} ActiveStartIsLatestPass(ops: seq<Op>, t: Timing)
    requires t == History(ops).timing
    ensures t.activeStart == LatestPass(ops)
  {
    if ops != [] {
      ActiveStartIsLatestPass(Front(ops), History(Front(ops)).timing);
      StepsActive(History(Front(ops)), Last(ops), t);
    }
  }

  /** The time available is what is left of the desired period, counted from the start of the latest iteration. */
  lemma AvailableTimeIsLeft(ops: seq<Op>, t: Timing, now: Nanoseconds)
    requires t == History(ops).timing
    ensures AvailableTime(t, now) ==
            if LiftedDesired(ops) == 0 || LatestPass(ops) == 0 then 0
            else Clamp(Min(MAX_UINT64, LatestPass(ops) + LiftedDesired(ops)) - now)
  {
    SettingsAreLastSet(ops, t);
    ActiveStartIsLatestPass(ops, t);
  }

  // ---------------------------------------------------------------- sample window

  /** The time from one iteration start to the next. */
  datatype Span = Span(from: Nanoseconds, to: Nanoseconds)

  /** Every nonzero start-to-start span since the samples were last cleared. */
  function Spans(ops: seq<Op>): seq<Span> {
    if ops == [] then []
    else
      var m, latest := History(Front(ops)), LatestCurrent(Front(ops));
      if ResetsMeasurements(m, Last(ops)) || Last(ops).ChangeSampleCount? then []
      else if Runs(m, Last(ops)) && latest.Some? && ops[latest.value.0].now < Last(ops).now
      then Spans(Front(ops)) + [Span(ops[latest.value.0].now, Last(ops).now)]
      else Spans(Front(ops))
  }

  function Length(span: Span): Nanoseconds {
    if span.from <= span.to then span.to - span.from else 0
  }

  function Lengths(spans: seq<Span>): (lengths: seq<Nanoseconds>)
    ensures |lengths| == |spans|
    ensures forall i :: 0 <= i < |spans| ==> lengths[i] == Length(spans[i])
  {
    seq(|spans|, i requires 0 <= i < |spans| => Length(spans[i]))
  }

  /** The samples after an operation, given the state before. */
  function SamplesAfter(m: Machine, op: Op): seq<Nanoseconds> {
    var t := m.timing;
    if ResetsMeasurements(m, op) || op.ChangeSampleCount? then []
    else if Runs(m, op) && t.hasPrevious && op.now > t.previousStart && t.sampleCount > 0
    then Suffix(t.samples + [op.now - t.previousStart], t.sampleCount)
    else t.samples
  }

  lemma StartedSamples(t: Timing, now: Nanoseconds)
    requires !MustWait(t, now)
    ensures Started(t, now).sampleCount == t.sampleCount
    ensures Started(t, now).samples ==
            if t.hasPrevious && now > t.previousStart && t.sampleCount > 0
            then Suffix(t.samples + [now - t.previousStart], t.sampleCount)
            else t.samples
  {
  }

  lemma PassSamples(m: Machine, op: Op)
    requires op.Loop? || op.Finish? || op.WorkWake?
    ensures Apply(m, op).timing.sampleCount == m.timing.sampleCount
    ensures Apply(m, op).timing.samples == SamplesAfter(m, op)
  {
    if Runs(m, op) {
      StartedSamples(m.timing, op.now);
    }
  }

  lemma ChangeSamples(m: Machine, op: Op)
    requires !op.Loop? && !op.Finish? && !op.WorkWake?
    ensures Apply(m, op).timing.sampleCount == if op.ChangeSampleCount? then op.count else m.timing.sampleCount
    ensures Apply(m, op).timing.samples == SamplesAfter(m, op)
  {
  }

  /** What one operation does to the sample window. */
  lemma StepsSamples(m: Machine, op: Op, n: Timing)
    requires n == Apply(m, op).timing
    ensures n.sampleCount == if op.ChangeSampleCount? then op.count else m.timing.sampleCount
    ensures n.samples == SamplesAfter(m, op)
  {
    if op.Loop? || op.Finish? || op.WorkWake? {
      PassSamples(m, op);
    } else {
      ChangeSamples(m, op);
    }
  }

  lemma SlideWindow(spans: seq<Span>, span: Span, n: nat)
    ensures n > 0 ==>
              Lengths(Suffix(spans + [span], n)) == Suffix(Lengths(Suffix(spans, n)) + [Length(span)], n)
    ensures Lengths(Suffix(spans, 0)) == []
  {
  }

  /** The spans an operation adds or drops. */
  lemma StepsSpans(ops: seq<Op>, m: Machine)
    requires ops != [] && m == History(Front(ops)) && BoundedResets(Front(ops))
    ensures Spans(ops) ==
            if ResetsMeasurements(m, Last(ops)) || Last(ops).ChangeSampleCount? then []
            else if Runs(m, Last(ops)) && m.timing.hasPrevious && Last(ops).now > m.timing.previousStart
            then Spans(Front(ops)) + [Span(m.timing.previousStart, Last(ops).now)]
            else Spans(Front(ops))
  {
    PreviousIsLatestCurrent(Front(ops), m.timing, LatestCurrent(Front(ops)));
  }

  /** One operation slides the window as it extends the spans. */
  lemma StepsWindow(m: Machine, op: Op, n: Timing, before: seq<Span>, after: seq<Span>)
    requires m.timing.samples == Lengths(Suffix(before, m.timing.sampleCount))
    requires n == Apply(m, op).timing
    requires after == if ResetsMeasurements(m, op) || op.ChangeSampleCount? then []
                      else if Runs(m, op) && m.timing.hasPrevious && op.now > m.timing.previousStart
                      then before + [Span(m.timing.previousStart, op.now)]
                      else before
    ensures n.samples == Lengths(Suffix(after, n.sampleCount))
  {
    StepsSamples(m, op, n);
    if Runs(m, op) {
      SlideWindow(before, Span(m.timing.previousStart, op.now), m.timing.sampleCount);
    }
  }

  /** The sample deque is always the last sampleCount spans, oldest first. */
  lemma {:induction false} WindowIsLatestSpans(ops: seq<Op>, t: Timing, spans: seq<Span>)
    requires BoundedResets(ops)
    requires t == History(ops).timing && spans == Spans(ops)
    ensures t.samples == Lengths(Suffix(spans, t.sampleCount)) && t.sampleCount == LastCount(ops)
  {
    SettingsAreLastSet(ops, t);
    if ops != [] {
      var p, m := Front(ops), History(Front(ops));
      WindowIsLatestSpans(p, m.timing, Spans(p));
      StepsSpans(ops, m);
      StepsWindow(m, Last(ops), t, Spans(p), spans);
    }
  }

  ghost predicate MonotoneClock(ops: seq<Op>) {
    forall i, j :: 0 <= i < j < |ops| && ops[i].Loop? && ops[j].Loop? ==> ops[i].now <= ops[j].now
  }

  ghost predicate Chained(spans: seq<Span>) {
    && (forall i :: 0 <= i < |spans| ==> spans[i].from < spans[i].to)
    && forall i, j :: 0 <= i < j < |spans| && j == i + 1 ==> spans[i].to == spans[j].from
  }

  /** The start of the iteration in progress, else of the last one completed. */
  function LatestStart(m: Machine): Nanoseconds {
    if m.running.Some? then m.running.value.start else m.timing.previousStart
  }

  lemma {:induction false} SpansChain(ops: seq<Op>, m: Machine, spans: seq<Span>)
    requires BoundedResets(ops) && MonotoneClock(ops)
    requires m == History(ops) && spans == Spans(ops)
    ensures Chained(spans)
    ensures spans != [] ==> m.timing.hasPrevious && spans[|spans| - 1].to == LatestStart(m)
    ensures m.timing.hasPrevious && m.running.Some? ==> m.running.value.generation == m.timing.generation
  {
    if ops != [] {
      var p, before := Front(ops), History(Front(ops));
      SpansChain(p, before, Spans(p));
      PreviousIsLatestCurrent(p, before.timing, LatestCurrent(p));
      StepsGeneration(before, Last(ops));
      StepsPrevious(before, Last(ops));
    }
  }

  lemma {:induction false} ChainTelescopes(spans: seq<Span>)
    requires Chained(spans) && spans != []
    ensures Sum(Lengths(spans)) == spans[|spans| - 1].to - spans[0].from
  {
    var front := spans[..|spans| - 1];
    assert Lengths(spans)[..|spans| - 1] == Lengths(front);
    if front != [] {
      ChainTelescopes(front);
    } else {
      assert Lengths(front) == [];
    }
  }

  lemma TailChained(spans: seq<Span>, k: nat, tail: seq<Span>)
    requires Chained(spans) && k <= |spans| && tail == spans[k..]
    ensures Chained(tail)
  {
    forall i, j | 0 <= i < j < |tail| && j == i + 1
      ensures tail[i].to == tail[j].from
    {
      assert tail[i] == spans[k + i] && tail[j] == spans[k + j];
    }
  }

  lemma SuffixTelescopes(spans: seq<Span>, n: nat, window: seq<Span>)
    requires Chained(spans) && window == Suffix(spans, n) && window != []
    ensures Sum(Lengths(window)) == spans[|spans| - 1].to - spans[|spans| - Min(|spans|, n)].from
  {
    var k := |spans| - |window|;
    assert window == spans[k..];
    TailChained(spans, k, window);
    ChainTelescopes(window);
  }

  /** Under a monotone clock the window adds up to the time from the start just before it to the latest start. */
  lemma WindowTelescopes(ops: seq<Op>, m: Machine, spans: seq<Span>)
    requires BoundedResets(ops) && MonotoneClock(ops)
    requires m == History(ops) && spans == Spans(ops)
    requires m.timing.samples != []
    ensures |m.timing.samples| == Min(|spans|, m.timing.sampleCount)
    ensures Sum(m.timing.samples) == LatestStart(m) - spans[|spans| - |m.timing.samples|].from
  {
    WindowIsLatestSpans(ops, m.timing, spans);
    SpansChain(ops, m, spans);
    SuffixTelescopes(spans, m.timing.sampleCount, Suffix(spans, m.timing.sampleCount));
  }

  // ---------------------------------------------------------------- desired period

  /** No order of setters leaves a desired period shorter than the period itself. */
  lemma {:induction false} DesiredNeverBelowPeriod(ops: seq<Op>)
    ensures var t := History(ops).timing;
            t.desired > 0 && t.period > 0 ==> t.desired >= t.period
  {
    if ops != [] {
      DesiredNeverBelowPeriod(Front(ops));
    }
  }
}
