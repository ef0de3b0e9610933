/**
 Used stretches of a video and the search for a stretch not used yet.
 A segment is a `(start, end)` pair; Python sorts such pairs
 lexicographically, which `SegmentLe` spells out.
 */
module Segments {
  import opened Common

  datatype Segment = Segment(start: real, end: real)

  /** Lexicographic order on `(start, end)` tuples. */
  predicate SegmentLe(a: Segment, b: Segment) {
    a.start < b.start || (a.start == b.start && a.end <= b.end)
  }

  predicate Sorted(s: seq<Segment>) {
    forall i, j :: 0 <= i < j < |s| ==> SegmentLe(s[i], s[j])
  }

  function Insert(x: Segment, s: seq<Segment>): (r: seq<Segment>)
    requires Sorted(s)
    ensures Sorted(r)
    ensures multiset(r) == multiset(s) + multiset{x}
    ensures |r| == |s| + 1
    decreases |s|
  {
    if |s| == 0 then [x]
    else if SegmentLe(x, s[0]) then [x] + s
    else
      var tail := Insert(x, s[1..]);
      assert s == [s[0]] + s[1..];
      assert forall k :: 0 <= k < |tail| ==> SegmentLe(s[0], tail[k]) by {
        forall k | 0 <= k < |tail| ensures SegmentLe(s[0], tail[k]) {
          assert tail[k] in multiset(tail);
          if tail[k] != x {
            assert tail[k] in multiset(s[1..]);
            var j :| 0 <= j < |s[1..]| && s[1..][j] == tail[k];
            assert s[j + 1] == tail[k];
          }
        }
      }
      [s[0]] + tail
  }

  /** `sorted(segments)`. */
  function SortSegments(s: seq<Segment>): (r: seq<Segment>)
    ensures Sorted(r)
    ensures multiset(r) == multiset(s)
    ensures |r| == |s|
    decreases |s|
  {
    if |s| == 0 then []
    else
      assert s == [s[0]] + s[1..];
      Insert(s[0], SortSegments(s[1..]))
  }

  /** A stretch `[at, at + needed]` shares no interior with `seg`. */
  predicate ClearOf(seg: Segment, at: real, needed: real) {
    seg.end <= at || at + needed <= seg.start
  }

  /** A stretch `[at, at + needed]` that ends within the video and shares no
      interior with any of `segs`. */
  predicate FitsAt(segs: seq<Segment>, at: real, total: real, needed: real) {
    at + needed <= total && forall i :: 0 <= i < |segs| ==> ClearOf(segs[i], at, needed)
  }

  /** The gap search with the furthest end reached so far: the first gap of
      at least `needed` between the reach and the next start, or after the
      last segment if the video is long enough. What it returns is the
      earliest fitting start from the reach on; when it returns nothing,
      nothing from the reach on fits. */
  function FirstFit(segs: seq<Segment>, reach: real, total: real, needed: real): (r: Option<real>)
    requires Sorted(segs)
    ensures r.Some? ==> r.value >= reach
    ensures r.Some? ==> forall i :: 0 <= i < |segs| ==> ClearOf(segs[i], r.value, needed)
    ensures r.Some? && (forall i :: 0 <= i < |segs| ==> segs[i].start <= total) ==>
      r.value + needed <= total
    ensures r.Some? ==> r.value == reach || exists i :: 0 <= i < |segs| && r.value == segs[i].end
    ensures r.Some? ==> forall x :: reach <= x < r.value ==> !FitsAt(segs, x, total, needed)
    ensures r.None? ==> forall x :: reach <= x ==> !FitsAt(segs, x, total, needed)
    decreases |segs|
  {
    if |segs| == 0 then
      if total - reach >= needed then Some(reach) else None
    else if segs[0].start - reach >= needed then
      assert forall i :: 0 <= i < |segs| ==> segs[0].start <= segs[i].start by {
        forall i | 0 < i < |segs| ensures segs[0].start <= segs[i].start {
          assert SegmentLe(segs[0], segs[i]);
        }
      }
      Some(reach)
    else
      var rest := segs[1..];
      var reach' := Max(reach, segs[0].end);
      var r := FirstFit(rest, reach', total, needed);
      assert forall i :: 1 <= i < |segs| ==> rest[i - 1] == segs[i];
      assert forall x :: reach <= x && (r.Some? ==> x < r.value) ==> !FitsAt(segs, x, total, needed) by {
        forall x | reach <= x && (r.Some? ==> x < r.value)
          ensures !FitsAt(segs, x, total, needed)
        {
          if x >= reach' {
            assert !FitsAt(rest, x, total, needed);
            if x + needed <= total {
              var i :| 0 <= i < |rest| && !ClearOf(rest[i], x, needed);
              assert rest[i] == segs[i + 1];
            }
          } else {
            assert !ClearOf(segs[0], x, needed);
          }
        }
      }
      r
  }

  /** The gap search as the selector writes it: the reach is the end of the
      previous segment in sorted order, not the furthest end so far. It
      returns where the first gap that holds `needed` opens, the gap after
      the last segment included, and returns nothing exactly when no gap
      holds it. */
  function FirstFitAsWritten(segs: seq<Segment>, last: real, total: real, needed: real): (r: Option<real>)
    ensures r.Some? ==> r.value == last || exists i :: 0 <= i < |segs| && r.value == segs[i].end
    ensures r.None? <==> forall k :: 0 <= k <= |segs| ==> !GapHolds(segs, last, total, needed, k)
    ensures r.Some? ==> exists k :: 0 <= k <= |segs| && FirstGap(segs, last, total, needed, k)
                                    && r.value == GapStart(segs, last, k)
    decreases |segs|
  {
    if |segs| == 0 then
      assert GapStart(segs, last, 0) == last && GapEnd(segs, total, 0) == total;
      if total - last >= needed then
        assert FirstGap(segs, last, total, needed, 0);
        Some(last)
      else None
    else if segs[0].start - last >= needed then
      assert FirstGap(segs, last, total, needed, 0);
      Some(last)
    else
      var rest := segs[1..];
      var last' := segs[0].end;
      var r := FirstFitAsWritten(rest, last', total, needed);
      assert forall i :: 1 <= i < |segs| ==> rest[i - 1] == segs[i];
      assert !GapHolds(segs, last, total, needed, 0);
      assert forall k :: 0 <= k <= |rest| ==>
        (GapHolds(rest, last', total, needed, k) <==> GapHolds(segs, last, total, needed, k + 1)) by {
        forall k | 0 <= k <= |rest|
          ensures GapHolds(rest, last', total, needed, k) <==> GapHolds(segs, last, total, needed, k + 1)
        {
          assert GapStart(rest, last', k) == GapStart(segs, last, k + 1);
          assert GapEnd(rest, total, k) == GapEnd(segs, total, k + 1);
        }
      }
      if r.None? then
        assert forall k :: 0 <= k <= |segs| ==> !GapHolds(segs, last, total, needed, k) by {
          forall k | 0 <= k <= |segs| ensures !GapHolds(segs, last, total, needed, k) {
            if k > 0 {
              assert !GapHolds(rest, last', total, needed, k - 1);
            }
          }
        }
        r
      else
        var k :| 0 <= k <= |rest| && FirstGap(rest, last', total, needed, k) && r.value == GapStart(rest, last', k);
        assert GapStart(rest, last', k) == GapStart(segs, last, k + 1);
        assert forall j :: 0 <= j < k + 1 ==> !GapHolds(segs, last, total, needed, j) by {
          forall j | 0 <= j < k + 1 ensures !GapHolds(segs, last, total, needed, j) {
            if j > 0 {
              assert !GapHolds(rest, last', total, needed, j - 1);
            }
          }
        }
        assert FirstGap(segs, last, total, needed, k + 1);
        r
  }

  /** Where gap `k` of the list opens, as the written loop measures it: at
      `last` before the first segment, at the previous segment's end after. */
  function GapStart(segs: seq<Segment>, last: real, k: nat): real
    requires k <= |segs|
  {
    if k == 0 then last else segs[k - 1].end
  }

  /** Where gap `k` closes: at the next segment's start, or at the end of
      the video after the last segment. */
  function GapEnd(segs: seq<Segment>, total: real, k: nat): real
    requires k <= |segs|
  {
    if k < |segs| then segs[k].start else total
  }

  /** Gap `k` holds at least `needed`. */
  predicate GapHolds(segs: seq<Segment>, last: real, total: real, needed: real, k: nat)
    requires k <= |segs|
  {
    GapEnd(segs, total, k) - GapStart(segs, last, k) >= needed
  }

  /** Gap `k` is the first gap that holds `needed`. */
  predicate FirstGap(segs: seq<Segment>, last: real, total: real, needed: real, k: nat)
    requires k <= |segs|
  {
    GapHolds(segs, last, total, needed, k) && forall j :: 0 <= j < k ==> !GapHolds(segs, last, total, needed, j)
  }

  /** Ends that never go backwards in sorted order. */
  predicate EndsAscending(segs: seq<Segment>) {
    forall i, j :: 0 <= i < j < |segs| ==> segs[i].end <= segs[j].end
  }

  /** When no segment is nested in an earlier one the two searches agree. */
  lemma {:induction false} FirstFitAgrees(segs: seq<Segment>, reach: real, total: real, needed: real)
    requires Sorted(segs) && EndsAscending(segs)
    requires |segs| > 0 ==> reach <= segs[0].end
    ensures FirstFitAsWritten(segs, reach, total, needed) == FirstFit(segs, reach, total, needed)
    decreases |segs|
  {
    if |segs| > 0 && segs[0].start - reach < needed {
      var rest := segs[1..];
      assert Sorted(rest) && EndsAscending(rest) by {
        assert forall i :: 0 <= i < |rest| ==> rest[i] == segs[i + 1];
      }
      if |rest| > 0 {
        assert rest[0] == segs[1];
      }
      FirstFitAgrees(rest, segs[0].end, total, needed);
      assert Max(reach, segs[0].end) == segs[0].end;
    }
  }

  /** Whether a stretch fits depends on which segments are used, not on the
      order they are listed in. */
  lemma FitsAtReordered(a: seq<Segment>, b: seq<Segment>, at: real, total: real, needed: real)
    requires multiset(a) == multiset(b)
    ensures FitsAt(a, at, total, needed) <==> FitsAt(b, at, total, needed)
  {
    forall i | 0 <= i < |a| ensures a[i] in b {
      assert a[i] in multiset(a);
    }
    forall i | 0 <= i < |b| ensures b[i] in a {
      assert b[i] in multiset(b);
    }
  }

  /** The selector's search: the earliest start that fits if there is one,
      else a random start in `[0, max(0, total - needed)]`. */
  function FindAvailableSegment(total: real, needed: real, used: seq<Segment>, draw: Unit): (r: real)
    ensures r >= 0.0
    ensures FirstFit(SortSegments(used), 0.0, total, needed).Some? ==>
      forall i :: 0 <= i < |used| ==> ClearOf(used[i], r, needed)
    ensures FirstFit(SortSegments(used), 0.0, total, needed).None? ==> r <= Max(0.0, total - needed)
    ensures (exists x :: 0.0 <= x && FitsAt(used, x, total, needed)) ==>
      && FitsAt(used, r, total, needed)
      && forall x :: 0.0 <= x < r ==> !FitsAt(used, x, total, needed)
    ensures ((forall x :: 0.0 <= x ==> !FitsAt(used, x, total, needed))
             && (forall i :: 0 <= i < |used| ==> used[i].start <= total)) ==>
      r <= Max(0.0, total - needed)
  {
    var sorted := SortSegments(used);
    match FirstFit(sorted, 0.0, total, needed)
    case Some(at) =>
      assert forall i :: 0 <= i < |used| ==> used[i] in multiset(sorted) by {
        forall i | 0 <= i < |used| ensures used[i] in multiset(sorted) {
          assert used[i] in multiset(used);
        }
      }
      assert forall i :: 0 <= i < |used| ==> ClearOf(used[i], at, needed) by {
        forall i | 0 <= i < |used| ensures ClearOf(used[i], at, needed) {
          var j :| 0 <= j < |sorted| && sorted[j] == used[i];
        }
      }
      assert forall x :: 0.0 <= x < at ==> !FitsAt(used, x, total, needed) by {
        forall x | 0.0 <= x < at ensures !FitsAt(used, x, total, needed) {
          FitsAtReordered(sorted, used, x, total, needed);
        }
      }
      assert (forall i :: 0 <= i < |used| ==> used[i].start <= total) ==> at + needed <= total by {
        if forall i :: 0 <= i < |used| ==> used[i].start <= total {
          forall j | 0 <= j < |sorted| ensures sorted[j].start <= total {
            assert sorted[j] in multiset(used);
          }
        }
      }
      at
    case None =>
      assert forall x :: 0.0 <= x ==> !FitsAt(used, x, total, needed) by {
        forall x | 0.0 <= x ensures !FitsAt(used, x, total, needed) {
          FitsAtReordered(sorted, used, x, total, needed);
        }
      }
      Uniform(0.0, Max(0.0, total - needed), draw)
  }

  /** `_find_available_video_segment` as written. */
  function FindAvailableSegmentAsWritten(total: real, needed: real, used: seq<Segment>, draw: Unit): (r: real)
    ensures FirstFitAsWritten(SortSegments(used), 0.0, total, needed).None? ==>
      0.0 <= r <= Max(0.0, total - needed)
    ensures FirstFitAsWritten(SortSegments(used), 0.0, total, needed).Some? ==>
      r == 0.0 || exists i :: 0 <= i < |used| && r == used[i].end
    ensures var sorted := SortSegments(used);
      (exists k :: 0 <= k <= |sorted| && GapHolds(sorted, 0.0, total, needed, k)) ==>
      exists k :: 0 <= k <= |sorted| && FirstGap(sorted, 0.0, total, needed, k) && r == GapStart(sorted, 0.0, k)
    ensures var sorted := SortSegments(used);
      (forall k :: 0 <= k <= |sorted| ==> !GapHolds(sorted, 0.0, total, needed, k)) ==>
      0.0 <= r <= Max(0.0, total - needed)
  {
    var sorted := SortSegments(used);
    match FirstFitAsWritten(sorted, 0.0, total, needed)
    case Some(at) =>
      assert at == 0.0 || exists i :: 0 <= i < |used| && at == used[i].end by {
        if at != 0.0 {
          var j :| 0 <= j < |sorted| && at == sorted[j].end;
          assert sorted[j] in multiset(used);
          var i :| 0 <= i < |used| && used[i] == sorted[j];
        }
      }
      at
    case None => Uniform(0.0, Max(0.0, total - needed), draw)
  }

  /** A stretch nested inside an earlier one makes the written search return
      a start inside a used stretch: with `(0, 10)` and `(2, 3)` used in a
      30-second video, a 1-second request gets start 3. */
  lemma AsWrittenReturnsUsedTime(draw: Unit)
    ensures var used := [Segment(0.0, 10.0), Segment(2.0, 3.0)];
      && FindAvailableSegmentAsWritten(30.0, 1.0, used, draw) == 3.0
      && !ClearOf(used[0], 3.0, 1.0)
  {
    var used := [Segment(0.0, 10.0), Segment(2.0, 3.0)];
    assert used[1..] == [Segment(2.0, 3.0)];
    assert SortSegments(used[1..]) == [Segment(2.0, 3.0)] by {
      assert used[1..][1..] == [];
    }
    assert SortSegments(used) == used;
    var sorted := used;
    assert sorted[1..] == [Segment(2.0, 3.0)];
    assert sorted[1..][1..] == [];
    assert FirstFitAsWritten([], 3.0, 30.0, 1.0) == Some(3.0);
    assert FirstFitAsWritten(sorted[1..], 10.0, 30.0, 1.0) == Some(3.0);
  }

  /** The corrected search returns a clear start for the same request. */
  lemma CorrectedAvoidsUsedTime(draw: Unit)
    ensures var used := [Segment(0.0, 10.0), Segment(2.0, 3.0)];
      && FindAvailableSegment(30.0, 1.0, used, draw) == 10.0
      && ClearOf(used[0], 10.0, 1.0) && ClearOf(used[1], 10.0, 1.0)
  {
    var used := [Segment(0.0, 10.0), Segment(2.0, 3.0)];
    assert used[1..] == [Segment(2.0, 3.0)];
    assert SortSegments(used[1..]) == [Segment(2.0, 3.0)] by {
      assert used[1..][1..] == [];
    }
    assert SortSegments(used) == used;
    var sorted := used;
    assert sorted[1..] == [Segment(2.0, 3.0)];
    assert sorted[1..][1..] == [];
    assert FirstFit([], 10.0, 30.0, 1.0) == Some(10.0);
    assert FirstFit(sorted[1..], 10.0, 30.0, 1.0) == Some(10.0);
  }

  /** Total length of the used stretches. */
  function UsedLength(used: seq<Segment>): real
    decreases |used|
  {
    if |used| == 0 then 0.0 else UsedLength(used[..|used| - 1]) + (used[|used| - 1].end - used[|used| - 1].start)
  }
}
