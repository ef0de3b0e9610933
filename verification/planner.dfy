/**
 The duration planner: turns an audio length into a schedule of clips whose
 lengths stay within `[minClip, maxClip]` and whose overlapped total matches
 the audio. Random draws of `random.uniform` are passed in as a stream of
 unit reals; floating-point rounding is not modelled (durations are reals).
 */
module Planner {
  import opened Common

  /** One scheduled slot of the output video. */
  datatype ClipPlan = ClipPlan(index: nat, duration: real, startTime: real, endTime: real)

  datatype PlanError =
    | MinAboveMax(minClip: real, maxClip: real)   // the ValueError raised at construction
    | FloatDivisionByZero                         // `audio / min_clip` with `min_clip == 0`

  datatype DurationPlanner = DurationPlanner(
    audioDuration: real,
    minClip: real,
    maxClip: real,
    overlap: real,
    tolerance: real)

  const DefaultMinClip: real := 2.0
  const DefaultMaxClip: real := 5.0
  const DefaultOverlap: real := 0.5
  const DefaultTolerance: real := 0.25

  /** Below this size a duration error is left alone. */
  const ErrorThreshold: real := 0.01

  predicate Valid(p: DurationPlanner) {
    p.minClip <= p.maxClip
  }

  /** Construction refuses exactly the bounds with `min > max`. */
  function NewPlanner(audio: real, minClip: real, maxClip: real, overlap: real, tolerance: real)
    : (r: Result<DurationPlanner, PlanError>)
    ensures r.Failure? <==> minClip > maxClip
    ensures r.Failure? ==> r.error == MinAboveMax(minClip, maxClip)
    ensures r.Success? ==> Valid(r.value)
    ensures r.Success? ==>
      && r.value.audioDuration == audio && r.value.minClip == minClip
      && r.value.maxClip == maxClip && r.value.overlap == overlap && r.value.tolerance == tolerance
  {
    if minClip > maxClip then Failure(MinAboveMax(minClip, maxClip))
    else Success(DurationPlanner(audio, minClip, maxClip, overlap, tolerance))
  }

  predicate InBounds(p: DurationPlanner, ds: seq<real>) {
    forall i :: 0 <= i < |ds| ==> p.minClip <= ds[i] <= p.maxClip
  }

  /** The length `n` clips of length `d` cover when each overlaps the next by `o`. */
  function Covered(n: nat, d: real, o: real): real {
    (n as real) * d - ((n as real) - 1.0) * o
  }

  /** Sum of the durations less one overlap per junction. */
  function EffectiveTotal(overlap: real, ds: seq<real>): real {
    Sum(ds) - ((|ds| as real) - 1.0) * overlap
  }

  function AverageClip(p: DurationPlanner): real {
    (p.minClip + p.maxClip) / 2.0
  }

  // ---------------------------------------------------------------------
  // Clip count

  lemma QuotientBounds(q: real, c: real, k: int)
    ensures c > 0.0 && (k as real) <= q / c ==> (k as real) * c <= q
    ensures c > 0.0 && q / c < (k as real) + 1.0 ==> q < ((k as real) + 1.0) * c
  {
    if c > 0.0 {
      QuotientLower(q, c, k as real);
      QuotientUpper(q, c, (k as real) + 1.0);
    }
  }

  lemma QuotientLower(q: real, c: real, lo: real)
    requires c > 0.0
    ensures lo <= q / c ==> lo * c <= q
  {
    DivMul(q, c);
    ScaleMonotone(lo, q / c, c);
  }

  lemma QuotientUpper(q: real, c: real, hi: real)
    requires c > 0.0
    ensures q / c < hi ==> q < hi * c
  {
    DivMul(q, c);
    ScaleMonotone(q / c, hi, c);
  }

  /** `_estimate_clip_count`: the truncated quotient, at least one. */
  function EstimateClipCount(p: DurationPlanner): (r: Result<nat, PlanError>)
    ensures r.Success? ==> r.value >= 1
    ensures r.Failure? <==> AverageClip(p) <= p.overlap && p.minClip == 0.0
    ensures r.Failure? ==> r.error == FloatDivisionByZero
  {
    var avg := AverageClip(p);
    if avg <= p.overlap then
      if p.minClip == 0.0 then Failure(FloatDivisionByZero)
      else Success(MaxInt(1, Trunc(p.audioDuration / p.minClip)) as nat)
    else Success(MaxInt(1, Trunc((p.audioDuration - p.overlap) / (avg - p.overlap))) as nat)
  }

  /** The clip count is the largest `n` whose average-length clips fit the
      audio, at least one; when the overlap is not shorter than the average
      clip it is the number of minimum-length clips that fit, at least one. */
  lemma ClipCountFits(p: DurationPlanner)
    ensures AverageClip(p) > p.overlap ==>
      var n := EstimateClipCount(p).value;
      && (n == 1 || Covered(n, AverageClip(p), p.overlap) <= p.audioDuration)
      && p.audioDuration < Covered(n + 1, AverageClip(p), p.overlap)
    ensures AverageClip(p) <= p.overlap && p.minClip > 0.0 ==>
      var n := EstimateClipCount(p).value;
      && (n == 1 || (n as real) * p.minClip <= p.audioDuration)
      && p.audioDuration < ((n as real) + 1.0) * p.minClip
  {
    if AverageClip(p) > p.overlap {
      CountFitsAverage(p);
    } else if p.minClip > 0.0 {
      CountFitsMinimum(p);
    }
  }

  lemma CountFitsAverage(p: DurationPlanner)
    requires AverageClip(p) > p.overlap
    ensures var n := EstimateClipCount(p).value;
      && (n == 1 || Covered(n, AverageClip(p), p.overlap) <= p.audioDuration)
      && p.audioDuration < Covered(n + 1, AverageClip(p), p.overlap)
  {
    var avg := AverageClip(p);
    var c := avg - p.overlap;
    var q := p.audioDuration - p.overlap;
    var k := Trunc(q / c);
    var n := MaxInt(1, k);
    assert EstimateClipCount(p).value == n;
    QuotientBounds(q, c, k);
    QuotientBounds(q, c, n);
    CoveredForm(n, avg, p.overlap);
    CoveredForm(n + 1, avg, p.overlap);
  }

  lemma CountFitsMinimum(p: DurationPlanner)
    requires AverageClip(p) <= p.overlap && p.minClip > 0.0
    ensures var n := EstimateClipCount(p).value;
      && (n == 1 || (n as real) * p.minClip <= p.audioDuration)
      && p.audioDuration < ((n as real) + 1.0) * p.minClip
  {
    var k := Trunc(p.audioDuration / p.minClip);
    assert EstimateClipCount(p).value == MaxInt(1, k);
    QuotientBounds(p.audioDuration, p.minClip, k);
    QuotientBounds(p.audioDuration, p.minClip, MaxInt(1, k));
  }

  /** `n` clips of length `d` overlapping by `o` cover `n` steps of `d - o` plus one overlap. */
  lemma CoveredForm(n: nat, d: real, o: real)
    ensures Covered(n, d, o) == (n as real) * (d - o) + o
  {
    var x := n as real;
    assert (x - 1.0) * o == x * o - o;
    assert x * (d - o) == x * d - x * o;
  }

  // ---------------------------------------------------------------------
  // Single clip

  /** One clip as long as the audio, pulled into the bounds. */
  function PlanSingleClip(p: DurationPlanner): (plans: seq<ClipPlan>)
    ensures |plans| == 1
    ensures plans[0].index == 0 && plans[0].startTime == 0.0
    ensures plans[0].endTime == plans[0].duration
    ensures Valid(p) ==> plans[0].duration == Clamp(p.audioDuration, p.minClip, p.maxClip)
    ensures p.minClip <= p.audioDuration <= p.maxClip ==> plans[0].duration == p.audioDuration
  {
    var d :=
      if p.audioDuration < p.minClip then p.minClip
      else if p.audioDuration > p.maxClip then p.maxClip
      else p.audioDuration;
    [ClipPlan(0, d, 0.0, d)]
  }

  // ---------------------------------------------------------------------
  // Initial draws

  /** The average clip length that makes `n` clips cover the audio exactly. */
  function TargetAverage(p: DurationPlanner, n: nat): real
    requires n >= 1
  {
    (p.audioDuration + ((n as real) - 1.0) * p.overlap) / (n as real)
  }

  /** The range each initial duration is drawn from: the tolerance band
      around the target average cut to the bounds, or the whole bounds when
      that cut is empty. */
  function Window(p: DurationPlanner, n: nat): (w: (real, real))
    requires n >= 1
    ensures Valid(p) ==> p.minClip <= w.0 <= w.1 <= p.maxClip
    ensures w.0 <= w.1 && (w.0, w.1) != (p.minClip, p.maxClip) ==>
      var t := TargetAverage(p, n);
      t * (1.0 - p.tolerance) <= w.0 && w.1 <= t * (1.0 + p.tolerance)
    // The window itself, which the draws in InitialDurations rely on.
    ensures
      var t := TargetAverage(p, n);
      var lo := Max(p.minClip, t * (1.0 - p.tolerance));
      var hi := Min(p.maxClip, t * (1.0 + p.tolerance));
      w == if lo <= hi then (lo, hi) else (p.minClip, p.maxClip)
  {
    var t := TargetAverage(p, n);
    var lo := Max(p.minClip, t * (1.0 - p.tolerance));
    var hi := Min(p.maxClip, t * (1.0 + p.tolerance));
    if lo > hi then (p.minClip, p.maxClip) else (lo, hi)
  }

  function InitialDurations(p: DurationPlanner, n: nat, draws: nat -> Unit): (ds: seq<real>)
    requires n >= 1
    ensures |ds| == n
    ensures Valid(p) ==> forall i :: 0 <= i < n ==> Window(p, n).0 <= ds[i] <= Window(p, n).1
    ensures Valid(p) ==> InBounds(p, ds)
  {
    var w := Window(p, n);
    var ds := seq(n, i requires 0 <= i < n => Uniform(w.0, w.1, draws(i)));
    assert forall i :: 0 <= i < n ==> ds[i] == Uniform(w.0, w.1, draws(i));
    ds
  }

  // ---------------------------------------------------------------------
  // Soft budgeting

  /** One smoothing step: a pair further apart than half its mean is pulled
      together 70/30 and clamped; a closer pair is left alone. */
  function SmoothPair(p: DurationPlanner, a: real, b: real): (r: (real, real))
    ensures !(Abs(a - b) > (a + b) / 2.0 * 0.5) ==> r == (a, b)
    ensures Valid(p) && p.minClip <= a <= p.maxClip && p.minClip <= b <= p.maxClip ==>
      && p.minClip <= r.0 <= p.maxClip && p.minClip <= r.1 <= p.maxClip
      && r.0 + r.1 == a + b
    ensures (Valid(p) && p.minClip <= a <= p.maxClip && p.minClip <= b <= p.maxClip
      && Abs(a - b) > (a + b) / 2.0 * 0.5) ==> Abs(r.0 - r.1) == 0.4 * Abs(a - b)
  {
    var diff := Abs(a - b);
    var avg := (a + b) / 2.0;
    if diff > avg * 0.5 then
      (Clamp(a * 0.7 + b * 0.3, p.minClip, p.maxClip), Clamp(a * 0.3 + b * 0.7, p.minClip, p.maxClip))
    else (a, b)
  }

  /** The left-to-right smoothing pass: pair `i` sees the already smoothed
      element `i`. Within bounds it keeps every duration in bounds and the
      total unchanged. */
  function SoftBudget(p: DurationPlanner, ds: seq<real>): (r: seq<real>)
    ensures |r| == |ds|
    ensures Valid(p) && InBounds(p, ds) ==> InBounds(p, r) && Sum(r) == Sum(ds)
    decreases |ds|
  {
    if |ds| <= 1 then ds
    else
      var pair := SmoothPair(p, ds[0], ds[1]);
      var rest := [pair.1] + ds[2..];
      var tail := SoftBudget(p, rest);
      SmoothStep(p, ds, tail);
      [pair.0] + tail
  }

  /** What one step of the pass hands to the rest of it: in-bounds input
      stays in bounds and the pair's sum is carried over. */
  lemma SmoothStep(p: DurationPlanner, ds: seq<real>, tail: seq<real>)
    requires |ds| >= 2
    ensures var pair := SmoothPair(p, ds[0], ds[1]);
      var rest := [pair.1] + ds[2..];
      && (Valid(p) && InBounds(p, ds) ==> InBounds(p, rest))
      && (Valid(p) && InBounds(p, ds) && Sum(tail) == Sum(rest) ==> Sum([pair.0] + tail) == Sum(ds))
  {
    var pair := SmoothPair(p, ds[0], ds[1]);
    SumCons(pair.0, tail);
    SumCons(pair.1, ds[2..]);
    SumCons(ds[0], ds[1..]);
    SumCons(ds[1], ds[2..]);
    assert ds[1..] == [ds[1]] + ds[2..];
    assert ds == [ds[0]] + ds[1..];
  }

  // ---------------------------------------------------------------------
  // Error absorption

  /** Every duration moved by the same share of the error, then clamped. */
  function AbsorbError(p: DurationPlanner, ds: seq<real>, error: real): (r: seq<real>)
    ensures |r| == |ds|
    ensures Valid(p) ==> InBounds(p, r)
    // Each element, which AbsorbErrorExact relies on.
    ensures forall i :: 0 <= i < |ds| ==>
      r[i] == Clamp(ds[i] + error / (|ds| as real), p.minClip, p.maxClip)
  {
    if |ds| == 0 then ds
    else
      var share := error / (|ds| as real);
      seq(|ds|, i requires 0 <= i < |ds| => Clamp(ds[i] + share, p.minClip, p.maxClip))
  }

  lemma {:induction false} SumShift(ds: seq<real>, c: real, r: seq<real>)
    requires |r| == |ds|
    requires forall i :: 0 <= i < |ds| ==> r[i] == ds[i] + c
    ensures Sum(r) == Sum(ds) + (|ds| as real) * c
    decreases |ds|
  {
    if |ds| > 0 {
      var k := |ds| - 1;
      SumShift(ds[..k], c, r[..k]);
      assert (k as real + 1.0) * c == (k as real) * c + c;
    }
  }

  /** When no clamp binds, absorption adds exactly the error to the total. */
  lemma AbsorbErrorExact(p: DurationPlanner, ds: seq<real>, error: real)
    requires |ds| >= 1
    requires forall i :: 0 <= i < |ds| ==>
      p.minClip <= ds[i] + error / (|ds| as real) <= p.maxClip
    ensures Sum(AbsorbError(p, ds, error)) == Sum(ds) + error
  {
    var share := error / (|ds| as real);
    var r := AbsorbError(p, ds, error);
    assert forall i :: 0 <= i < |ds| ==> r[i] == ds[i] + share;
    ShareTotal(error, |ds|);
    SpreadTotal(ds, r, share, error);
  }

  /** Adding the same share to every element adds `|ds|` shares to the sum. */
  lemma SpreadTotal(ds: seq<real>, r: seq<real>, share: real, total: real)
    requires |r| == |ds|
    requires (|ds| as real) * share == total
    requires forall i :: 0 <= i < |ds| ==> r[i] == ds[i] + share
    ensures Sum(r) == Sum(ds) + total
  {
    SumShift(ds, share, r);
  }

  lemma ShareTotal(error: real, k: nat)
    requires k >= 1
    ensures (k as real) * (error / (k as real)) == error
  {
  }

  // ---------------------------------------------------------------------
  // Residual correction of the last clip

  function ResidualError(p: DurationPlanner, ds: seq<real>): real {
    p.audioDuration - EffectiveTotal(p.overlap, ds)
  }

  /** A residual above the threshold goes whole onto the last clip, which is
      then clamped; nothing else moves. */
  function CorrectLastClip(p: DurationPlanner, ds: seq<real>): (r: seq<real>)
    requires |ds| >= 1
    ensures |r| == |ds|
    ensures r[..|ds| - 1] == ds[..|ds| - 1]
    ensures Abs(ResidualError(p, ds)) <= ErrorThreshold ==> r == ds
    ensures Valid(p) && InBounds(p, ds) ==> InBounds(p, r)
    ensures Abs(ResidualError(p, ds)) > ErrorThreshold ==>
      r[|ds| - 1] == Clamp(ds[|ds| - 1] + ResidualError(p, ds), p.minClip, p.maxClip)
    ensures (Abs(ResidualError(p, ds)) > ErrorThreshold
      && p.minClip <= ds[|ds| - 1] + ResidualError(p, ds) <= p.maxClip) ==>
      EffectiveTotal(p.overlap, r) == p.audioDuration
    ensures Abs(ResidualError(p, r)) <= ErrorThreshold
      || r[|ds| - 1] == p.minClip || r[|ds| - 1] == p.maxClip
  {
    var e := ResidualError(p, ds);
    var k := |ds| - 1;
    if Abs(e) > ErrorThreshold then
      var last := Clamp(ds[k] + e, p.minClip, p.maxClip);
      var r := ds[k := last];
      SumUpdate(ds, k, last);
      assert r[..k] == ds[..k];
      r
    else ds
  }

  // ---------------------------------------------------------------------
  // Timeline

  /** Clip `i + 1` starts `overlap` before clip `i` ends. */
  predicate Chained(plans: seq<ClipPlan>, overlap: real, i: nat)
    requires i + 1 < |plans|
  {
    plans[i + 1].startTime == plans[i].startTime + plans[i].duration - overlap
  }

  /** Lays durations end to end, each clip starting `overlap` before the
      previous one ends. */
  function Timeline(ds: seq<real>, overlap: real, start: real, first: nat): (plans: seq<ClipPlan>)
    ensures |plans| == |ds|
    ensures forall i :: 0 <= i < |ds| ==> plans[i].index == first + i && plans[i].duration == ds[i]
    ensures forall i :: 0 <= i < |ds| ==> plans[i].endTime == plans[i].startTime + ds[i]
    ensures |ds| > 0 ==> plans[0].startTime == start
    ensures forall i: nat :: i + 1 < |ds| ==> Chained(plans, overlap, i)
    decreases |ds|
  {
    if |ds| == 0 then []
    else
      var rest := Timeline(ds[1..], overlap, start + ds[0] - overlap, first + 1);
      var plans := [ClipPlan(first, ds[0], start, start + ds[0])] + rest;
      assert forall i: nat :: 1 <= i && i + 1 < |ds| ==> Chained(rest, overlap, i - 1) ==> Chained(plans, overlap, i);
      plans
  }

  function Durations(plans: seq<ClipPlan>): (ds: seq<real>)
    ensures |ds| == |plans|
    ensures forall i :: 0 <= i < |plans| ==> ds[i] == plans[i].duration
  {
    seq(|plans|, i requires 0 <= i < |plans| => plans[i].duration)
  }

  /** Closed form of the timeline: clip `i` starts after the first `i`
      durations less `i` overlaps. */
  lemma TimelineStarts(ds: seq<real>, overlap: real, i: nat)
    requires i < |ds|
    ensures Timeline(ds, overlap, 0.0, 0)[i].startTime == Sum(ds[..i]) - (i as real) * overlap
  {
    var plans := Timeline(ds, overlap, 0.0, 0);
    var starts := seq(|ds|, j requires 0 <= j < |ds| => plans[j].startTime);
    forall j: nat | j + 1 < |ds|
      ensures starts[j + 1] == starts[j] + ds[j] - overlap
    {
      assert Chained(plans, overlap, j);
    }
    LaidStarts(starts, ds, overlap, i);
  }

  /** Starts laid from zero, each `overlap` before the previous one's end. */
  predicate Laid(starts: seq<real>, ds: seq<real>, overlap: real) {
    && |starts| == |ds| && (|ds| > 0 ==> starts[0] == 0.0)
    && forall j: nat :: j + 1 < |ds| ==> starts[j + 1] == starts[j] + ds[j] - overlap
  }

  lemma {:induction false} LaidStarts(starts: seq<real>, ds: seq<real>, overlap: real, i: nat)
    requires Laid(starts, ds, overlap) && i < |ds|
    ensures starts[i] == Sum(ds[..i]) - (i as real) * overlap
    decreases i
  {
    if i > 0 {
      LaidStarts(starts, ds, overlap, i - 1);
      SumStep(ds, i - 1);
      StartStep(starts[i - 1], Sum(ds[..i - 1]), ds[i - 1], overlap, i);
    } else {
      assert ds[..0] == [];
    }
  }

  /** One step of the closed form: a start after `k` durations and overlaps,
      moved on by one more duration less one overlap. */
  lemma StartStep(start: real, before: real, d: real, overlap: real, i: nat)
    requires i >= 1 && start == before - ((i - 1) as real) * overlap
    ensures start + d - overlap == (before + d) - (i as real) * overlap
  {
    var k := (i - 1) as real;
    assert i as real == k + 1.0;
    MulSucc(k, overlap);
  }

  /** The last clip ends exactly at the overlapped total. */
  lemma TimelineEnd(ds: seq<real>, overlap: real)
    requires |ds| >= 1
    ensures Timeline(ds, overlap, 0.0, 0)[|ds| - 1].endTime == EffectiveTotal(overlap, ds)
  {
    var k := |ds| - 1;
    TimelineStarts(ds, overlap, k);
    assert ds[..k] == ds[..|ds| - 1];
  }

  // ---------------------------------------------------------------------
  // Whole plan

  /** The durations the multi-clip path settles on, before the timeline. */
  function MultiClipDurations(p: DurationPlanner, n: nat, draws: nat -> Unit): (ds: seq<real>)
    requires n >= 2
    ensures |ds| == n
    ensures Valid(p) ==> InBounds(p, ds)
    ensures Abs(ResidualError(p, ds)) <= ErrorThreshold
      || ds[n - 1] == p.minClip || ds[n - 1] == p.maxClip
  {
    var initial := InitialDurations(p, n, draws);
    var smoothed := SoftBudget(p, initial);
    var error := ResidualError(p, smoothed);
    var absorbed := if Abs(error) > ErrorThreshold then AbsorbError(p, smoothed, error) else smoothed;
    CorrectLastClip(p, absorbed)
  }

  function PlanMultipleClips(p: DurationPlanner, n: nat, draws: nat -> Unit): (plans: seq<ClipPlan>)
    requires n >= 2
    ensures |plans| == n
  {
    Timeline(MultiClipDurations(p, n, draws), p.overlap, 0.0, 0)
  }

  /** `plan_clips`: one clip, or the multi-clip schedule. */
  function PlanClips(p: DurationPlanner, draws: nat -> Unit): (r: Result<seq<ClipPlan>, PlanError>)
    ensures r.Failure? <==> EstimateClipCount(p).Failure?
    ensures r.Failure? ==> r.error == FloatDivisionByZero
    ensures r.Success? ==> |r.value| == EstimateClipCount(p).value >= 1
  {
    match EstimateClipCount(p)
    case Failure(e) => Failure(e)
    case Success(n) => if n == 1 then Success(PlanSingleClip(p)) else Success(PlanMultipleClips(p, n, draws))
  }

  /** Every planned duration lies within the bounds, the single clip included. */
  lemma PlanWithinBounds(p: DurationPlanner, draws: nat -> Unit)
    requires Valid(p)
    requires EstimateClipCount(p).Success?
    ensures InBounds(p, Durations(PlanClips(p, draws).value))
  {
    var plans := PlanClips(p, draws).value;
    var n := EstimateClipCount(p).value;
    if n >= 2 {
      var ds := MultiClipDurations(p, n, draws);
      assert plans == Timeline(ds, p.overlap, 0.0, 0);
      TimelineDurations(ds, p.overlap);
    } else {
      assert plans == PlanSingleClip(p);
      assert Durations(plans) == [plans[0].duration];
    }
  }

  /** The timeline keeps the durations it was given. */
  lemma TimelineDurations(ds: seq<real>, overlap: real)
    ensures Durations(Timeline(ds, overlap, 0.0, 0)) == ds
  {
    var plans := Timeline(ds, overlap, 0.0, 0);
    assert forall i :: 0 <= i < |ds| ==> Durations(plans)[i] == ds[i];
  }

  /** The timeline laws of every plan. */
  lemma PlanTimeline(p: DurationPlanner, draws: nat -> Unit)
    requires EstimateClipCount(p).Success?
    ensures TimelineLaws(PlanClips(p, draws).value, p.overlap)
  {
    var plans := PlanClips(p, draws).value;
    var n := EstimateClipCount(p).value;
    if n >= 2 {
      var ds := MultiClipDurations(p, n, draws);
      assert plans == Timeline(ds, p.overlap, 0.0, 0);
      TimelineFromZero(ds, p.overlap);
    } else {
      assert plans == PlanSingleClip(p);
      SingleClipLaws(p);
    }
  }

  /** The timeline laws: the plans start at 0, are indexed in order, each
      ends its duration after its start, each next one starts an overlap
      before the previous end, and the last one ends at the overlapped total. */
  predicate TimelineLaws(plans: seq<ClipPlan>, overlap: real) {
    && |plans| >= 1
    && plans[0].startTime == 0.0
    && (forall i :: 0 <= i < |plans| ==> plans[i].index == i)
    && (forall i :: 0 <= i < |plans| ==> plans[i].endTime == plans[i].startTime + plans[i].duration)
    && (forall i: nat :: i + 1 < |plans| ==> Chained(plans, overlap, i))
    && plans[|plans| - 1].endTime == EffectiveTotal(overlap, Durations(plans))
  }

  /** A timeline from 0 has the timeline laws. */
  lemma TimelineFromZero(ds: seq<real>, overlap: real)
    requires |ds| >= 1
    ensures TimelineLaws(Timeline(ds, overlap, 0.0, 0), overlap)
  {
    assert Durations(Timeline(ds, overlap, 0.0, 0)) == ds;
    TimelineEnd(ds, overlap);
  }

  /** The single clip's plan has the timeline laws. */
  lemma SingleClipLaws(p: DurationPlanner)
    ensures TimelineLaws(PlanSingleClip(p), p.overlap)
  {
    var plans := PlanSingleClip(p);
    assert Durations(plans) == [plans[0].duration];
    assert Sum([plans[0].duration]) == plans[0].duration by {
      assert [plans[0].duration][..0] == [];
    }
  }

  /** Duration conservation: with several clips the overlapped total is within
      the threshold of the audio, unless the last clip's clamp bound. */
  lemma PlanConservation(p: DurationPlanner, draws: nat -> Unit)
    requires EstimateClipCount(p).Success? && EstimateClipCount(p).value >= 2
    ensures Conserved(p, PlanClips(p, draws).value)
  {
    var n := EstimateClipCount(p).value;
    var ds := MultiClipDurations(p, n, draws);
    assert PlanClips(p, draws).value == Timeline(ds, p.overlap, 0.0, 0);
    TimelineConservation(p, ds);
  }

  /** The overlapped total of the plans is within the threshold of the
      audio, or the last clip sits at a bound. */
  predicate Conserved(p: DurationPlanner, plans: seq<ClipPlan>)
    requires |plans| >= 1
  {
    var last := plans[|plans| - 1].duration;
    || Abs(p.audioDuration - EffectiveTotal(p.overlap, Durations(plans))) <= ErrorThreshold
    || last == p.minClip || last == p.maxClip
  }

  /** The timeline of durations whose residual is small or whose last one
      is at a bound satisfies the conservation law. */
  lemma TimelineConservation(p: DurationPlanner, ds: seq<real>)
    requires |ds| >= 1
    requires Abs(ResidualError(p, ds)) <= ErrorThreshold || ds[|ds| - 1] == p.minClip || ds[|ds| - 1] == p.maxClip
    ensures Conserved(p, Timeline(ds, p.overlap, 0.0, 0))
  {
    TimelineDurations(ds, p.overlap);
  }

  /** With one clip the plan is the clamped audio, whatever its length. */
  lemma SingleClipPlan(p: DurationPlanner, draws: nat -> Unit)
    requires EstimateClipCount(p) == Success(1)
    ensures PlanClips(p, draws) == Success(PlanSingleClip(p))
  {
  }

  // ---------------------------------------------------------------------
  // Auxiliary operations

  /** Lengthens the last clip, moving its end and nothing else. */
  function ExtendLastClip(plans: seq<ClipPlan>, extension: real): (r: seq<ClipPlan>)
    ensures |r| == |plans|
    ensures |plans| == 0 ==> r == plans
    ensures |plans| > 0 ==>
      var k := |plans| - 1;
      && r[..k] == plans[..k]
      && r[k].index == plans[k].index && r[k].startTime == plans[k].startTime
      && r[k].duration == plans[k].duration + extension
      && r[k].endTime == plans[k].endTime + extension
  {
    if |plans| == 0 then plans
    else
      var k := |plans| - 1;
      var last := plans[k];
      plans[k := last.(duration := last.duration + extension, endTime := last.endTime + extension)]
  }

  /** Extending keeps the timeline laws and adds the extension to the total. */
  lemma ExtendLastClipTotal(plans: seq<ClipPlan>, extension: real, overlap: real)
    requires |plans| >= 1
    ensures EffectiveTotal(overlap, Durations(ExtendLastClip(plans, extension)))
      == EffectiveTotal(overlap, Durations(plans)) + extension
    ensures forall i :: 0 <= i < |plans| && plans[i].endTime == plans[i].startTime + plans[i].duration ==>
      var r := ExtendLastClip(plans, extension);
      r[i].endTime == r[i].startTime + r[i].duration
  {
    var k := |plans| - 1;
    var r := ExtendLastClip(plans, extension);
    assert Durations(r) == Durations(plans)[k := plans[k].duration + extension];
    SumUpdate(Durations(plans), k, plans[k].duration + extension);
  }

  datatype Verdict =
    | PlanValid
    | NoClips
    | BelowMinimum(clip: nat)
    | AboveMaximum(clip: nat)
    | TotalMismatch(error: real)

  predicate WithinTolerance(p: DurationPlanner, d: real) {
    p.minClip * 0.9 <= d <= p.maxClip * 1.1
  }

  /** The first clip, in order, whose duration leaves the 10% tolerance band. */
  function FirstOutOfTolerance(p: DurationPlanner, plans: seq<ClipPlan>): (r: Option<nat>)
    ensures r.None? <==> forall i :: 0 <= i < |plans| ==> WithinTolerance(p, plans[i].duration)
    ensures r.Some? ==>
      && r.value < |plans| && !WithinTolerance(p, plans[r.value].duration)
      && (forall i :: 0 <= i < r.value ==> WithinTolerance(p, plans[i].duration))
    decreases |plans|
  {
    if |plans| == 0 then None
    else if !WithinTolerance(p, plans[0].duration) then Some(0)
    else match FirstOutOfTolerance(p, plans[1..])
      case None => None
      case Some(k) => Some(k + 1)
  }

  /** `validate_plan`: a diagnostic verdict, passing exactly the non-empty
      plans whose clips are within 10% of the bounds and whose total is within
      one second of the audio. */
  function ValidatePlan(p: DurationPlanner, plans: seq<ClipPlan>): (v: Verdict)
    ensures v.PlanValid? <==>
      && |plans| > 0
      && (forall i :: 0 <= i < |plans| ==> WithinTolerance(p, plans[i].duration))
      && Abs(EffectiveTotal(p.overlap, Durations(plans)) - p.audioDuration) <= 1.0
    ensures v.NoClips? <==> |plans| == 0
    ensures v.BelowMinimum? ==>
      exists i :: 0 <= i < |plans| && plans[i].index == v.clip && plans[i].duration < p.minClip * 0.9
    ensures v.AboveMaximum? ==>
      exists i :: 0 <= i < |plans| && plans[i].index == v.clip && plans[i].duration > p.maxClip * 1.1
  {
    if |plans| == 0 then NoClips
    else match FirstOutOfTolerance(p, plans)
      case Some(k) =>
        if plans[k].duration < p.minClip * 0.9 then BelowMinimum(plans[k].index)
        else AboveMaximum(plans[k].index)
      case None =>
        var error := Abs(EffectiveTotal(p.overlap, Durations(plans)) - p.audioDuration);
        if error > 1.0 then TotalMismatch(error) else PlanValid
  }

  /** A conserved multi-clip plan with non-negative bounds passes validation. */
  lemma ConservedPlanIsValid(p: DurationPlanner, draws: nat -> Unit, plans: seq<ClipPlan>)
    requires Valid(p) && p.minClip >= 0.0
    requires EstimateClipCount(p).Success? && EstimateClipCount(p).value >= 2
    requires PlanClips(p, draws) == Success(plans)
    requires p.minClip < plans[|plans| - 1].duration < p.maxClip
    ensures ValidatePlan(p, plans) == PlanValid
  {
    PlanConservation(p, draws);
    PlanWithinBounds(p, draws);
    ConservedBoundedIsValid(p, plans);
  }

  /** A bounded plan whose last clip is strictly inside the bounds: conservation
      puts its total within the correction threshold, so it passes. */
  lemma ConservedBoundedIsValid(p: DurationPlanner, plans: seq<ClipPlan>)
    requires Valid(p) && p.minClip >= 0.0 && |plans| >= 1
    requires Conserved(p, plans) && InBounds(p, Durations(plans))
    requires p.minClip < plans[|plans| - 1].duration < p.maxClip
    ensures ValidatePlan(p, plans) == PlanValid
  {
    assert Abs(p.audioDuration - EffectiveTotal(p.overlap, Durations(plans))) <= ErrorThreshold;
    BoundedPlanIsValid(p, plans);
  }

  /** Durations inside the bounds are inside the tolerance band. */
  lemma BoundedPlanIsValid(p: DurationPlanner, plans: seq<ClipPlan>)
    requires Valid(p) && p.minClip >= 0.0 && |plans| > 0
    requires InBounds(p, Durations(plans))
    requires Abs(p.audioDuration - EffectiveTotal(p.overlap, Durations(plans))) <= 1.0
    ensures ValidatePlan(p, plans) == PlanValid
  {
    var ds := Durations(plans);
    assert forall i :: 0 <= i < |plans| ==> WithinTolerance(p, plans[i].duration) by {
      forall i | 0 <= i < |plans| ensures WithinTolerance(p, plans[i].duration) {
        assert ds[i] == plans[i].duration;
      }
    }
  }

  datatype Summary = Summary(
    numClips: nat,
    totalDuration: real,
    effectiveDuration: real,
    minDuration: real,
    maxDuration: real,
    avgDuration: real,
    targetDuration: real,
    error: real)

  function ShortestDuration(plans: seq<ClipPlan>): (m: real)
    requires |plans| > 0
    ensures forall i :: 0 <= i < |plans| ==> m <= plans[i].duration
    ensures exists i :: 0 <= i < |plans| && m == plans[i].duration
  {
    if |plans| == 1 then plans[0].duration
    else
      var rest := ShortestDuration(plans[1..]);
      assert forall i :: 1 <= i < |plans| ==> plans[1..][i - 1] == plans[i];
      if plans[0].duration <= rest then plans[0].duration else rest
  }

  function LongestDuration(plans: seq<ClipPlan>): (m: real)
    requires |plans| > 0
    ensures forall i :: 0 <= i < |plans| ==> m >= plans[i].duration
    ensures exists i :: 0 <= i < |plans| && m == plans[i].duration
  {
    if |plans| == 1 then plans[0].duration
    else
      var rest := LongestDuration(plans[1..]);
      assert forall i :: 1 <= i < |plans| ==> plans[1..][i - 1] == plans[i];
      if plans[0].duration >= rest then plans[0].duration else rest
  }

  /** `get_summary`: nothing for an empty plan, otherwise the plan's totals
      and extremes and its error against the audio. */
  function GetSummary(p: DurationPlanner, plans: seq<ClipPlan>): (r: Option<Summary>)
    ensures r.None? <==> |plans| == 0
    ensures r.Some? ==>
      var s := r.value;
      && s.numClips == |plans|
      && s.totalDuration == Sum(Durations(plans))
      && s.effectiveDuration == EffectiveTotal(p.overlap, Durations(plans))
      && s.minDuration == ShortestDuration(plans) && s.maxDuration == LongestDuration(plans)
      && s.avgDuration == s.totalDuration / (|plans| as real)
      && s.targetDuration == p.audioDuration
      && s.error == s.effectiveDuration - p.audioDuration
  {
    if |plans| == 0 then None
    else
      var ds := Durations(plans);
      var total := Sum(ds);
      var effective := EffectiveTotal(p.overlap, ds);
      Some(Summary(
        |plans|, total, effective, ShortestDuration(plans), LongestDuration(plans),
        total / (|plans| as real), p.audioDuration, effective - p.audioDuration))
  }

  /** The summary's average is the mean: `n` of it make the total. */
  lemma SummaryMean(p: DurationPlanner, plans: seq<ClipPlan>)
    requires |plans| > 0
    ensures var s := GetSummary(p, plans).value;
      s.avgDuration * (s.numClips as real) == s.totalDuration
  {
    var s := GetSummary(p, plans).value;
    var n := |plans| as real;
    assert s.avgDuration == s.totalDuration / n && s.numClips as real == n;
    DivMul(s.totalDuration, n);
  }

  /** The summary's extremes are durations of the plan, bounding all the others. */
  lemma SummaryExtremes(p: DurationPlanner, plans: seq<ClipPlan>)
    requires |plans| > 0
    ensures var s := GetSummary(p, plans).value;
      && (forall i :: 0 <= i < |plans| ==> s.minDuration <= plans[i].duration <= s.maxDuration)
      && (exists i :: 0 <= i < |plans| && s.minDuration == plans[i].duration)
      && (exists i :: 0 <= i < |plans| && s.maxDuration == plans[i].duration)
  {
    var s := GetSummary(p, plans).value;
    var lo := ShortestDuration(plans);
    var hi := LongestDuration(plans);
    assert s.minDuration == lo && s.maxDuration == hi;
    var i :| 0 <= i < |plans| && lo == plans[i].duration;
    var j :| 0 <= j < |plans| && hi == plans[j].duration;
  }

}
