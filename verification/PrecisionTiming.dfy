/** What one PrecisionThread computes under its timing mutex: a pure reading of every critical section. */
module PrecisionTiming {
  import opened Foundations

  const NANOSECONDS_PER_SECOND: real := 1000000000.0
  const NANOSECONDS_PER_MILLISECOND: int := 1000000

  datatype DeltaMode = StartToStart | EndToStart

  /** The fields guarded by the timing mutex, less the two frequencies, which the samples determine. */
  datatype Timing = Timing(
    mode: DeltaMode,
    period: Nanoseconds,
    desired: Nanoseconds,
    sampleCount: nat,
    samples: seq<Nanoseconds>,
    scheduled: bool,
    hasPrevious: bool,
    previousStart: Nanoseconds,
    previousEnd: Nanoseconds,
    next: Nanoseconds,
    activeStart: Nanoseconds,
    generation: Nanoseconds)

  /** What the first critical section of a loop pass decides. */
  datatype Decision =
    | Wait(remaining: Nanoseconds)
    | Iterate(delta: Nanoseconds, skipped: Nanoseconds, generation: Nanoseconds)

  function Fresh(): Timing {
    Timing(StartToStart, 0, 0, 10, [], false, false, 0, 0, 0, 0, 0)
  }

  // ---------------------------------------------------------------- the deadline grid

  /** The first grid point after now, reached by stepping along the grid. */
  function GridDeadline(next: int, period: int, now: int): (deadline: int)
    requires 0 < period
    ensures deadline > now && deadline >= next
    decreases now - next
  {
    if next > now then next else GridDeadline(next + period, period, now)
  }

  /** How many grid points after next, but not after now, are passed over. */
  function GridSkips(next: int, period: int, now: int): (skips: nat)
    requires 0 < period
    ensures next <= now ==> skips <= now - next
    decreases now - next
  {
    if next + period > now then 0 else 1 + GridSkips(next + period, period, now)
  }

  /** One division and one multiplication land where stepping does. */
  lemma {:induction false} GridClosedForm(next: int, period: int, now: int)
    requires 0 < period && next <= now
    ensures GridSkips(next, period, now) == (now - next) / period
    ensures GridDeadline(next, period, now) == next + ((now - next) / period + 1) * period
    decreases now - next
  {
    if next + period > now {
      QuotientIs(now - next, period, 0);
    } else {
      var periods := (now - next - period) / period;
      GridClosedForm(next + period, period, now);
      QuotientAfterWholeSteps(1, now - next - period, period);
      Distribute(1, periods + 1, period);
      assert (now - next) / period == 1 + periods;
    }
  }

  function AddSaturated(left: uint64, right: uint64): (sum: uint64)
    ensures sum as int == Min(MAX_UINT64, left as int + right as int)
  {
    var maximum: uint64 := 0xFFFF_FFFF_FFFF_FFFF;
    if right > maximum - left then maximum else left + right
  }

  /** The distance a late iteration moves the deadline by; the product is clamped before it can wrap. */
  function Advance(elapsedPeriods: uint64, period: uint64): (advance: uint64)
    requires period > 0
    requires elapsedPeriods as int * period as int <= MAX_UINT64
    ensures advance as int == Min(MAX_UINT64, (elapsedPeriods as int + 1) * period as int)
  {
    var maximum: uint64 := 0xFFFF_FFFF_FFFF_FFFF;
    var periodsToAdvance := if elapsedPeriods == maximum then elapsedPeriods else elapsedPeriods + 1;
    ExceedsQuotient(periodsToAdvance as int, MAX_UINT64, period as int);
    MultiplyMonotone(1, period as int, elapsedPeriods as int + 1);
    if periodsToAdvance > maximum / period then maximum else periodsToAdvance * period
  }

  /** The word-sized deadline update is the unbounded one, clamped at the largest word. */
  function AdvanceDeadline(next: uint64, period: uint64, now: uint64): (deadline: uint64)
    requires period > 0 && now >= next
    ensures deadline as int == Min(MAX_UINT64, GridDeadline(next as int, period as int, now as int))
    ensures deadline > now || now as int == MAX_UINT64
  {
    var behind := now - next;
    DivisionBounds(behind as int, period as int);
    GridClosedForm(next as int, period as int, now as int);
    AddSaturated(next, Advance(behind / period, period))
  }

  // ---------------------------------------------------------------- critical sections

  function Sum(s: seq<Nanoseconds>): nat {
    if s == [] then 0 else Sum(s[..|s| - 1]) + s[|s| - 1]
  }

  /** The last n elements, or all of them when there are fewer. */
  function Suffix<T>(s: seq<T>, n: nat): (r: seq<T>)
    ensures |r| == Min(|s|, n)
  {
    if |s| <= n then s else s[|s| - n..]
  }

  ghost predicate NonZero(samples: seq<Nanoseconds>) {
    forall i :: 0 <= i < |samples| ==> samples[i] > 0
  }

  function FrequencyOf(span: Nanoseconds): real
    requires span > 0
  {
    NANOSECONDS_PER_SECOND / span as real
  }

  /** Frequency of the newest sample; zero once the samples are cleared. */
  ghost function LatestFrequency(samples: seq<Nanoseconds>): real
    requires NonZero(samples)
  {
    if samples == [] then 0.0 else FrequencyOf(samples[|samples| - 1])
  }

  function AverageFrequency(samples: seq<Nanoseconds>): real {
    if Sum(samples) > 0
    then |samples| as real * NANOSECONDS_PER_SECOND / Sum(samples) as real
    else 0.0
  }

  /** The newest sample is the last of the window. */
  lemma WindowEndsWithNewest(samples: seq<Nanoseconds>, delta: Nanoseconds, n: nat)
    requires NonZero(samples) && delta > 0 && n > 0
    ensures var w := Suffix(samples + [delta], n);
            NonZero(w) && 0 < |w| <= n && w[|w| - 1] == delta
  {
  }

  /** A start-to-start delta enters the window unless sampling is off or the delta is zero. */
  function Record(t: Timing, delta: Nanoseconds): Timing {
    if t.sampleCount == 0 || delta == 0 then t
    else t.(samples := Suffix(t.samples + [delta], t.sampleCount))
  }

  function Scheduled(t: Timing, now: Nanoseconds): Timing {
    if t.scheduled then t else t.(scheduled := true, next := now)
  }

  function Baseline(t: Timing): Nanoseconds {
    if t.mode == StartToStart then t.previousStart else t.previousEnd
  }

  function DeltaAt(t: Timing, now: Nanoseconds): Nanoseconds {
    if t.hasPrevious && now >= Baseline(t) then now - Baseline(t) else 0
  }

  predicate MustWait(t: Timing, now: Nanoseconds) {
    t.period > 0 && now < Scheduled(t, now).next
  }

  /** The state a pass leaves when it does iterate: sample recorded, deadline moved, start published. */
  function Started(t: Timing, now: Nanoseconds): Timing
    requires !MustWait(t, now)
  {
    var s := Scheduled(t, now);
    var r := if s.hasPrevious && now >= s.previousStart then Record(s, now - s.previousStart) else s;
    r.(activeStart := now,
    next := if s.period == 0 then s.next else Min(MAX_UINT64, GridDeadline(s.next, s.period, now)))
  }

  /** The skip count handed to Iterate. */
  function SkippedAt(t: Timing, now: Nanoseconds): Nanoseconds
    requires !MustWait(t, now)
  {
    var s := Scheduled(t, now);
    if s.period == 0 then 0
    else GridSkips(s.next, s.period, now)
  }

  /** First critical section of OnLoop. */
  function Begin(t: Timing, now: Nanoseconds): (Timing, Decision) {
    if MustWait(t, now) then (Scheduled(t, now), Wait(Scheduled(t, now).next - now))
    else (Started(t, now), Iterate(DeltaAt(t, now), SkippedAt(t, now), t.generation))
  }

  /** Second critical section of OnLoop: an iteration of an older generation leaves no trace. */
  function Complete(t: Timing, generation: Nanoseconds, start: Nanoseconds, end: Nanoseconds): Timing {
    if generation == t.generation
    then t.(previousStart := start, previousEnd := end, hasPrevious := true)
    else t
  }

  function ClearMeasurements(t: Timing): Timing {
    t.(generation := NextWord(t.generation),
    hasPrevious := false, previousStart := 0, previousEnd := 0, activeStart := 0,
    samples := [])
  }

  function ResetSchedule(t: Timing): Timing {
    ClearMeasurements(t.(scheduled := false, next := 0))
  }

  function Bump(t: Timing, now: Nanoseconds): Timing {
    t.(next := now, scheduled := true)
  }

  function SetMode(t: Timing, mode: DeltaMode): Timing {
    if t.mode != mode then ClearMeasurements(t.(mode := mode)) else t
  }

  function SetPeriod(t: Timing, period: Nanoseconds): Timing {
    t.(period := period, scheduled := false,
    desired := if period > 0 && 0 < t.desired < period then period else t.desired)
  }

  function SetDesired(t: Timing, desired: Nanoseconds): Timing {
    t.(desired := if t.period > 0 && 0 < desired < t.period then t.period else desired)
  }

  function SetSampleCount(t: Timing, count: nat): Timing {
    t.(sampleCount := count, samples := [])
  }

  // ---------------------------------------------------------------- sleeping

  /** Whole milliseconds to block for; zero means the pass only yields. */
  function WaitMilliseconds(remaining: Nanoseconds): nat {
    Min(remaining / NANOSECONDS_PER_MILLISECOND, MAX_UINT32 - 1)
  }

  /** A pass iterates only at or after its deadline, and a pass that waits never asks to sleep beyond it. */
  lemma NeverEarlyNeverOverslept(t: Timing, now: Nanoseconds)
    requires t.scheduled && t.period > 0
    ensures Begin(t, now).1.Iterate? <==> now >= t.next
    ensures Begin(t, now).1.Wait? ==>
              && now + WaitMilliseconds(Begin(t, now).1.remaining) * NANOSECONDS_PER_MILLISECOND <= t.next
              && Begin(t, now).0 == t
  {
  }

  /** Blocking waits made when every wait lasts exactly as long as requested and nothing wakes it. */
  ghost function BlockingWaits(t: Timing, now: Nanoseconds): nat
    decreases t.next - now
  {
    if !t.scheduled || !MustWait(t, now) then 0
    else
      var pause := WaitMilliseconds(Begin(t, now).1.remaining);
      if pause == 0 then 0
      else 1 + BlockingWaits(Begin(t, now).0, now + pause * NANOSECONDS_PER_MILLISECOND)
  }

  function CeilingDivide(a: nat, d: nat): nat
    requires d > 0
  {
    (a + d - 1) / d
  }

  lemma CeilingStep(a: nat, d: nat)
    requires d > 0
    ensures a > d ==> CeilingDivide(a, d) == 1 + CeilingDivide(a - d, d)
    ensures 0 < a <= d ==> CeilingDivide(a, d) == 1
  {
    if a > d {
      QuotientAfterWholeSteps(1, a - d + d - 1, d);
    } else if 0 < a {
      QuotientIs(a + d - 1, d, 1);
    }
  }

  /** The number of blocking waits before the sub-millisecond tail is known exactly. */
  lemma {:induction false} BlockingWaitsAreCeiling(t: Timing, now: Nanoseconds)
    requires t.scheduled && t.period > 0 && now <= t.next
    ensures BlockingWaits(t, now)
         == CeilingDivide((t.next - now) / NANOSECONDS_PER_MILLISECOND, MAX_UINT32 - 1)
    decreases t.next - now
  {
    var left := (t.next - now) / NANOSECONDS_PER_MILLISECOND;
    CeilingStep(left, MAX_UINT32 - 1);
    if left > 0 {
      var pause := WaitMilliseconds(t.next - now);
      var later := now + pause * NANOSECONDS_PER_MILLISECOND;
      BlockingWaitsAreCeiling(t, later);
      assert (t.next - later) / NANOSECONDS_PER_MILLISECOND == left - pause;
    }
  }

  // ---------------------------------------------------------------- averages

  lemma OneMore(n: nat, x: nat)
    ensures (n + 1) * x == n * x + x
  {
  }

  lemma {:induction false} SumBetween(samples: seq<Nanoseconds>, low: Nanoseconds, high: Nanoseconds)
    requires forall i :: 0 <= i < |samples| ==> low <= samples[i] <= high
    ensures |samples| * low <= Sum(samples) <= |samples| * high
  {
    if samples != [] {
      SumBetween(samples[..|samples| - 1], low, high);
      OneMore(|samples| - 1, low);
      OneMore(|samples| - 1, high);
    }
  }

  lemma ProductAsReal(n: nat, x: nat)
    ensures (n * x) as real == n as real * x as real
  {
  }

  lemma CrossMultiply(a: real, b: real, c: real, d: real)
    requires 0.0 < b && 0.0 < d
    ensures a * d <= c * b ==> a / b <= c / d
  {
    if a * d <= c * b {
      assert a == (a / b) * b && c == (c / d) * d;
      var x, y := a / b, c / d;
      assert x * (b * d) <= y * (b * d);
    }
  }

  lemma RatioBetween(n: real, total: real, low: real, high: real)
    requires 0.0 < n && 0.0 < low <= high
    requires n * low <= total <= n * high
    ensures total > 0.0
    ensures NANOSECONDS_PER_SECOND / high
         <= n * NANOSECONDS_PER_SECOND / total
         <= NANOSECONDS_PER_SECOND / low
  {
    var s := NANOSECONDS_PER_SECOND;
    CrossMultiply(s, high, n * s, total);
    CrossMultiply(n * s, total, s, low);
    assert s * total <= (n * s) * high;
    assert (n * s) * low <= s * total;
  }

  lemma RatioOfNats(n: nat, total: nat, low: nat, high: nat)
    requires 0 < n && 0 < low <= high && n * low <= total <= n * high
    ensures total > 0
    ensures NANOSECONDS_PER_SECOND / high as real
         <= n as real * NANOSECONDS_PER_SECOND / total as real
         <= NANOSECONDS_PER_SECOND / low as real
  {
    ProductAsReal(n, low);
    ProductAsReal(n, high);
    RatioBetween(n as real, total as real, low as real, high as real);
  }

  /** The reported average lies between the smallest and the largest per-sample frequency. */
  lemma AverageIsBetween(samples: seq<Nanoseconds>, low: Nanoseconds, high: Nanoseconds)
    requires samples != [] && 0 < low <= high
    requires forall i :: 0 <= i < |samples| ==> low <= samples[i] <= high
    ensures FrequencyOf(high) <= AverageFrequency(samples) <= FrequencyOf(low)
  {
    SumBetween(samples, low, high);
    RatioOfNats(|samples|, Sum(samples), low, high);
  }

  // ---------------------------------------------------------------- available time

  function Clamp(x: int): int {
    if x > MAX_INT64 then MAX_INT64 else if x < MIN_INT64 then MIN_INT64 else x
  }

  /** Time left in the current iteration, clamped into a signed 64-bit word. */
  function AvailableTime(t: Timing, now: Nanoseconds): (available: int)
    ensures t.desired != 0 && t.activeStart != 0 ==>
      available == Clamp(Min(MAX_UINT64, t.activeStart + t.desired) - now)
    ensures t.desired == 0 || t.activeStart == 0 ==> available == 0
  {
    if t.desired == 0 || t.activeStart == 0 then 0
    else
      var deadline := AddSaturated(t.activeStart as uint64, t.desired as uint64) as int;
      if deadline >= now then
        var remaining := deadline - now;
        if remaining > MAX_INT64 then MAX_INT64 else remaining
      else
        var overrun := now - deadline;
        if overrun > MAX_INT64 then MIN_INT64 else -overrun
  }
}
