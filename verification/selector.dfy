/**
 The media selector: the pool of images and videos found for one audio file,
 the choice of the next file (sequential cursor or random retry, both
 avoiding an immediate repeat when asked), reuse bookkeeping, variations for
 reused files and the planning of which stretch of a video to use.

 Files are referred to by their index in the pool; the pool holds distinct
 paths, so comparing files is comparing indices. Every random draw is a
 parameter: `random.choice` is a natural number taken modulo the pool size,
 `random.uniform` and `random.random` are unit reals.
 */
module Selector {
  import opened Common
  import Text
  import Paths
  import opened Segments

  datatype MediaKind = Image | Video

  datatype SelectionMode = Sequential | Random

  datatype MediaFile = MediaFile(
    path: string,
    kind: MediaKind,
    duration: Option<real>,
    usedSegments: seq<Segment>,
    reuseCount: nat)

  /** The parameters attached to a reused file so that it does not look the same twice. */
  datatype Variation = Variation(
    zoom: real,
    offsetX: real,
    offsetY: real,
    brightness: real,
    flipHorizontal: bool,
    flipVertical: bool)

  datatype MediaSelection = MediaSelection(
    file: nat,
    duration: real,
    startTime: Option<real>,
    endTime: Option<real>,
    variation: Option<Variation>)

  datatype MediaSelector = MediaSelector(
    files: seq<MediaFile>,
    mode: SelectionMode,
    antiConsecutive: bool,
    cursor: nat,
    lastSelected: Option<nat>)

  /** One entry of the media folder, in the sorted order the scan visits. */
  datatype DirEntry = DirEntry(path: string, isFile: bool)

  const DefaultImageFormats: seq<string> := [".jpg", ".jpeg", ".png", ".bmp", ".webp"]
  const DefaultVideoFormats: seq<string> := [".mp4", ".mov", ".avi", ".mkv", ".webm"]

  /** Length assumed for a video whose length is unknown or zero. */
  const DefaultVideoLength: real := 30.0

  /** Draws rejected before random selection gives up avoiding a repeat. */
  const MaxRandomAttempts: nat := 50

  /** The cursor points into a non-empty pool. */
  predicate Wf(s: MediaSelector) {
    |s.files| == 0 || s.cursor < |s.files|
  }

  // ---------------------------------------------------------------------
  // Loading

  /** `formats or defaults`: an empty list means the defaults. */
  function FormatsOr(formats: seq<string>, defaults: seq<string>): (r: seq<string>)
    ensures |formats| > 0 ==> r == formats
    ensures |formats| == 0 ==> r == defaults
  {
    if |formats| == 0 then defaults else formats
  }

  /** The lower-cased suffix of the entry's file name. */
  function Extension(path: string): string {
    Text.Lower(Paths.Suffix(Paths.Name(path)))
  }

  /** What the scan makes of one folder entry: image formats win over video formats. */
  function Classify(e: DirEntry, imageFormats: seq<string>, videoFormats: seq<string>): (k: Option<MediaKind>)
    ensures k == Some(Image) <==> e.isFile && Extension(e.path) in imageFormats
    ensures k == Some(Video) <==>
      e.isFile && Extension(e.path) !in imageFormats && Extension(e.path) in videoFormats
  {
    if !e.isFile then None
    else if Extension(e.path) in imageFormats then Some(Image)
    else if Extension(e.path) in videoFormats then Some(Video)
    else None
  }

  /** The scan over the folder: each entry the classifier accepts becomes an
      unused file of that kind, in folder order. */
  function Scan(entries: seq<DirEntry>, classify: DirEntry -> Option<MediaKind>): (files: seq<MediaFile>)
    ensures |files| <= |entries|
    ensures forall k :: 0 <= k < |files| ==>
      files[k].duration.None? && files[k].usedSegments == [] && files[k].reuseCount == 0
    decreases |entries|
  {
    if |entries| == 0 then []
    else
      var rest := Scan(entries[1..], classify);
      match classify(entries[0])
      case None => rest
      case Some(kind) => [MediaFile(entries[0].path, kind, None, [], 0)] + rest
  }

  /** `f` is some folder entry, loaded with the kind the classifier gives it. */
  predicate FromEntry(entries: seq<DirEntry>, classify: DirEntry -> Option<MediaKind>, f: MediaFile) {
    exists i :: 0 <= i < |entries| && entries[i].path == f.path && classify(entries[i]) == Some(f.kind)
  }

  /** The entry is loaded, with the kind the classifier gives it. */
  predicate Loaded(files: seq<MediaFile>, e: DirEntry, kind: MediaKind) {
    exists k :: 0 <= k < |files| && files[k].path == e.path && files[k].kind == kind
  }

  /** Every loaded file is a folder entry of the kind the classifier gives it. */
  lemma {:induction false} ScanSound(entries: seq<DirEntry>, classify: DirEntry -> Option<MediaKind>)
    ensures forall k :: 0 <= k < |Scan(entries, classify)| ==> FromEntry(entries, classify, Scan(entries, classify)[k])
    decreases |entries|
  {
    if |entries| > 0 {
      var files := Scan(entries, classify);
      var tail := entries[1..];
      var rest := Scan(tail, classify);
      ScanSound(tail, classify);
      var offset := if classify(entries[0]).Some? then 1 else 0;
      assert |files| == |rest| + offset;
      forall k | 0 <= k < |files|
        ensures FromEntry(entries, classify, files[k])
      {
        if k < offset {
          assert entries[0].path == files[0].path && classify(entries[0]) == Some(files[0].kind);
        } else {
          assert files[k] == rest[k - offset];
          assert FromEntry(tail, classify, rest[k - offset]);
          var i :| 0 <= i < |tail| && tail[i].path == files[k].path && classify(tail[i]) == Some(files[k].kind);
          assert entries[i + 1] == tail[i];
        }
      }
    }
  }

  /** Every entry the classifier accepts is loaded with that kind. */
  lemma {:induction false} ScanComplete(entries: seq<DirEntry>, classify: DirEntry -> Option<MediaKind>)
    ensures forall i :: 0 <= i < |entries| && classify(entries[i]).Some? ==>
      Loaded(Scan(entries, classify), entries[i], classify(entries[i]).value)
    decreases |entries|
  {
    if |entries| > 0 {
      var files := Scan(entries, classify);
      var tail := entries[1..];
      var rest := Scan(tail, classify);
      ScanComplete(tail, classify);
      var offset := if classify(entries[0]).Some? then 1 else 0;
      assert |files| == |rest| + offset;
      forall i | 0 <= i < |entries| && classify(entries[i]).Some?
        ensures Loaded(files, entries[i], classify(entries[i]).value)
      {
        if i == 0 {
          assert files[0].path == entries[0].path && files[0].kind == classify(entries[0]).value;
        } else {
          assert tail[i - 1] == entries[i];
          assert Loaded(rest, tail[i - 1], classify(tail[i - 1]).value);
          var k :| 0 <= k < |rest| && rest[k].path == entries[i].path && rest[k].kind == classify(entries[i]).value;
          assert files[k + offset] == rest[k];
        }
      }
    }
  }

  /** `_load_media`: no folder gives an empty pool; otherwise the scan with
      the given formats, an empty list standing for the defaults. */
  function LoadMedia(folder: Option<seq<DirEntry>>, imageFormats: seq<string>, videoFormats: seq<string>)
    : (files: seq<MediaFile>)
    ensures folder.None? ==> files == []
  {
    match folder
    case None => []
    case Some(entries) =>
      var images := FormatsOr(imageFormats, DefaultImageFormats);
      var videos := FormatsOr(videoFormats, DefaultVideoFormats);
      Scan(entries, e => Classify(e, images, videos))
  }

  /** The loaded pool is exactly the regular files with a recognised
      extension, each with the kind its extension names. */
  lemma LoadMediaClassifies(entries: seq<DirEntry>, imageFormats: seq<string>, videoFormats: seq<string>)
    ensures var images := FormatsOr(imageFormats, DefaultImageFormats);
      var videos := FormatsOr(videoFormats, DefaultVideoFormats);
      var files := LoadMedia(Some(entries), imageFormats, videoFormats);
      && (forall k :: 0 <= k < |files| ==> FromEntry(entries, e => Classify(e, images, videos), files[k]))
      && (forall i :: 0 <= i < |entries| && Classify(entries[i], images, videos).Some? ==>
            Loaded(files, entries[i], Classify(entries[i], images, videos).value))
  {
    var images := FormatsOr(imageFormats, DefaultImageFormats);
    var videos := FormatsOr(videoFormats, DefaultVideoFormats);
    var classify := e => Classify(e, images, videos);
    ScanSound(entries, classify);
    ScanComplete(entries, classify);
  }

  /** A selector over a freshly loaded pool. */
  function NewSelector(folder: Option<seq<DirEntry>>, mode: SelectionMode, antiConsecutive: bool,
                       imageFormats: seq<string>, videoFormats: seq<string>): (s: MediaSelector)
    ensures Wf(s) && s.cursor == 0 && s.lastSelected.None?
    ensures s.files == LoadMedia(folder, imageFormats, videoFormats)
    ensures s.mode == mode && s.antiConsecutive == antiConsecutive
  {
    MediaSelector(LoadMedia(folder, imageFormats, videoFormats), mode, antiConsecutive, 0, None)
  }

  /** The files whose stem is all decimal digits. */
  function NumericCount(files: seq<MediaFile>): (c: nat)
    ensures c <= |files|
  {
    if |files| == 0 then 0
    else (if Text.AllDigits(Paths.Stem(Paths.Name(files[0].path))) then 1 else 0) + NumericCount(files[1..])
  }

  /** `_is_numeric_naming`: more than 70% of the pool is numerically named. */
  function IsNumericNaming(files: seq<MediaFile>): (b: bool)
    ensures b <==> |files| > 0 && 10 * NumericCount(files) > 7 * |files|
  {
    if |files| == 0 then false
    else
      var ratio := (NumericCount(files) as real) / (|files| as real);
      RatioThreshold(NumericCount(files), |files|);
      ratio > 0.7
  }

  lemma RatioThreshold(c: nat, n: nat)
    requires n > 0
    ensures (c as real) / (n as real) > 0.7 <==> 10 * c > 7 * n
  {
    var x := (c as real) / (n as real);
    DivMul(c as real, n as real);
    ScaleMonotone(0.7, x, n as real);
    ScaleMonotone(x, 0.7, n as real);
  }

  // ---------------------------------------------------------------------
  // Choosing the next file

  /** The sequential choice in closed form: the file under the cursor, or the
      next one when the cursor's file must be avoided and there is another. */
  function SequentialPick(n: nat, cursor: nat, anti: bool, avoid: Option<nat>): (r: (nat, nat))
    requires cursor < n
    ensures r.0 < n && r.1 < n
    ensures r.1 == (r.0 + 1) % n
    ensures r.0 == cursor || (r.0 == (cursor + 1) % n && anti && avoid == Some(cursor))
    ensures anti && avoid.Some? && n >= 2 ==> r.0 != avoid.value
  {
    var chosen := if anti && avoid == Some(cursor) && n >= 2 then (cursor + 1) % n else cursor;
    (chosen, (chosen + 1) % n)
  }

  /** The sequential loop as written: skip the avoided file, at most `n`
      attempts, and fall back to the file under the cursor. */
  method SequentialLoop(n: nat, cursor: nat, anti: bool, avoid: Option<nat>) returns (chosen: nat, next: nat)
    requires cursor < n
    ensures (chosen, next) == SequentialPick(n, cursor, anti, avoid)
  {
    var index := cursor;
    var attempts := 0;
    var selected: Option<nat> := None;
    while attempts < n && selected.None?
      invariant index < n
      invariant attempts <= 1 && attempts <= n
      invariant selected.None? && attempts == 0 ==> index == cursor
      invariant selected.None? && attempts == 1 ==> index == (cursor + 1) % n && anti && avoid == Some(cursor)
      invariant selected.Some? ==> attempts <= 1
      invariant selected.Some? && attempts == 0 ==> selected == Some(cursor) && !(anti && avoid == Some(cursor))
      invariant selected.Some? && attempts == 1 ==>
        selected == Some((cursor + 1) % n) && anti && avoid == Some(cursor) && n >= 2
      invariant selected.Some? ==> index == (selected.value + 1) % n
      decreases n - attempts, if selected.None? then 1 else 0
    {
      if anti && avoid == Some(index) {
        index := (index + 1) % n;
        attempts := attempts + 1;
      } else {
        selected := Some(index);
        index := (index + 1) % n;
      }
    }
    if selected.None? {
      chosen := index;
      next := (index + 1) % n;
    } else {
      chosen := selected.value;
      next := index;
    }
  }

  /** The random retry: the first of 50 draws that is not the avoided file,
      else one more draw taken as it comes. */
  function RandomRetry(n: nat, anti: bool, avoid: Option<nat>, choices: nat -> nat, attempt: nat): (r: nat)
    requires n >= 1 && attempt <= MaxRandomAttempts
    ensures r < n
    ensures anti && avoid == Some(r) ==>
      forall k :: attempt <= k < MaxRandomAttempts ==> choices(k) % n == r
    ensures (exists k :: attempt <= k <= MaxRandomAttempts && choices(k) % n == r)
    decreases MaxRandomAttempts - attempt
  {
    if attempt == MaxRandomAttempts then choices(MaxRandomAttempts) % n
    else
      var candidate := choices(attempt) % n;
      if anti && avoid == Some(candidate) then RandomRetry(n, anti, avoid, choices, attempt + 1)
      else candidate
  }

  /** The random choice: a one-file pool gives that file. */
  function RandomPick(n: nat, anti: bool, avoid: Option<nat>, choices: nat -> nat): (r: nat)
    requires n >= 1
    ensures r < n
    ensures n == 1 ==> r == 0
    ensures n >= 2 && anti && avoid == Some(r) ==>
      forall k :: 0 <= k < MaxRandomAttempts ==> choices(k) % n == r
  {
    if n == 1 then 0 else RandomRetry(n, anti, avoid, choices, 0)
  }

  // ---------------------------------------------------------------------
  // Variations and video segments

  datatype VariationDraws = VariationDraws(zoom: Unit, offsetX: Unit, offsetY: Unit, brightness: Unit, flip: Unit)

  /** `_generate_variation`: the ranges of each parameter; never a vertical flip. */
  function GenerateVariation(d: VariationDraws): (v: Variation)
    ensures 0.95 <= v.zoom <= 1.15
    ensures -0.1 <= v.offsetX <= 0.1 && -0.1 <= v.offsetY <= 0.1
    ensures -0.1 <= v.brightness <= 0.1
    ensures v.flipHorizontal <==> d.flip < 0.2
    ensures !v.flipVertical
  {
    Variation(
      Uniform(0.95, 1.15, d.zoom),
      Uniform(-0.1, 0.1, d.offsetX),
      Uniform(-0.1, 0.1, d.offsetY),
      Uniform(-0.1, 0.1, d.brightness),
      d.flip < 0.2,
      false)
  }

  /** `duration or 30.0`: unknown and zero lengths fall back to the default. */
  function VideoLength(f: MediaFile): (len: real)
    ensures f.duration.Some? && f.duration.value != 0.0 ==> len == f.duration.value
    ensures f.duration.None? || f.duration.value == 0.0 ==> len == DefaultVideoLength
  {
    match f.duration
    case Some(d) => if d == 0.0 then DefaultVideoLength else d
    case None => DefaultVideoLength
  }

  datatype SegmentPlan = SegmentPlan(start: real, end: real, file: MediaFile)

  /** `_plan_video_segment`: a start for the stretch, its end cut at the video
      length, and the stretch recorded on the file. */
  function PlanVideoSegment(f: MediaFile, needed: real, draw: Unit): (r: SegmentPlan)
    ensures r.end == Min(r.start + needed, VideoLength(f))
    ensures r.start >= 0.0
    ensures r.file == f.(usedSegments := f.usedSegments + [Segment(r.start, r.end)])
    ensures |f.usedSegments| == 0 ==> r.start <= Max(0.0, VideoLength(f) - needed)
    ensures |f.usedSegments| == 0 && VideoLength(f) - needed <= 0.0 ==> r.start == 0.0
    ensures |f.usedSegments| > 0 && VideoLength(f) - UsedLength(f.usedSegments) < needed ==>
      r.start <= Max(0.0, VideoLength(f) - needed)
    ensures (|f.usedSegments| > 0 && VideoLength(f) - UsedLength(f.usedSegments) >= needed
      && FirstFit(SortSegments(f.usedSegments), 0.0, VideoLength(f), needed).Some?) ==>
      forall i :: 0 <= i < |f.usedSegments| ==> ClearOf(f.usedSegments[i], r.start, needed)
    ensures (|f.usedSegments| > 0 && VideoLength(f) - UsedLength(f.usedSegments) >= needed
      && exists x :: 0.0 <= x && FitsAt(f.usedSegments, x, VideoLength(f), needed)) ==>
      && FitsAt(f.usedSegments, r.start, VideoLength(f), needed)
      && forall x :: 0.0 <= x < r.start ==> !FitsAt(f.usedSegments, x, VideoLength(f), needed)
  {
    var total := VideoLength(f);
    var start :=
      if |f.usedSegments| == 0 then
        var maxStart := Max(0.0, total - needed);
        if maxStart > 0.0 then Uniform(0.0, maxStart, draw) else 0.0
      else if total - UsedLength(f.usedSegments) >= needed then
        FindAvailableSegment(total, needed, f.usedSegments, draw)
      else Uniform(0.0, Max(0.0, total - needed), draw);
    var end := Min(start + needed, total);
    SegmentPlan(start, end, f.(usedSegments := f.usedSegments + [Segment(start, end)]))
  }

  /** `_plan_video_segment` on the gap search as the selector writes it. When
      a gap is found the start is where the first gap in sorted order that
      holds the stretch opens: 0 or the end of some used stretch, which need
      not be clear of the others. */
  function PlanVideoSegmentAsWritten(f: MediaFile, needed: real, draw: Unit): (r: SegmentPlan)
    ensures r.end == Min(r.start + needed, VideoLength(f))
    ensures r.file == f.(usedSegments := f.usedSegments + [Segment(r.start, r.end)])
    ensures |f.usedSegments| == 0 ==> 0.0 <= r.start <= Max(0.0, VideoLength(f) - needed)
    ensures |f.usedSegments| > 0 && VideoLength(f) - UsedLength(f.usedSegments) < needed ==>
      0.0 <= r.start <= Max(0.0, VideoLength(f) - needed)
    ensures (|f.usedSegments| > 0 && VideoLength(f) - UsedLength(f.usedSegments) >= needed
      && FirstFitAsWritten(SortSegments(f.usedSegments), 0.0, VideoLength(f), needed).Some?) ==>
      r.start == 0.0 || exists i :: 0 <= i < |f.usedSegments| && r.start == f.usedSegments[i].end
    ensures var sorted := SortSegments(f.usedSegments);
      (|f.usedSegments| > 0 && VideoLength(f) - UsedLength(f.usedSegments) >= needed
       && exists k :: 0 <= k <= |sorted| && GapHolds(sorted, 0.0, VideoLength(f), needed, k)) ==>
      exists k :: 0 <= k <= |sorted| && FirstGap(sorted, 0.0, VideoLength(f), needed, k) && r.start == GapStart(sorted, 0.0, k)
  {
    var total := VideoLength(f);
    var start :=
      if |f.usedSegments| == 0 then
        var maxStart := Max(0.0, total - needed);
        if maxStart > 0.0 then Uniform(0.0, maxStart, draw) else 0.0
      else if total - UsedLength(f.usedSegments) >= needed then
        FindAvailableSegmentAsWritten(total, needed, f.usedSegments, draw)
      else Uniform(0.0, Max(0.0, total - needed), draw);
    var end := Min(start + needed, total);
    SegmentPlan(start, end, f.(usedSegments := f.usedSegments + [Segment(start, end)]))
  }

  /** Three uses of one 30-second video that the selector can reach: a 1-second
      stretch at 9.5, a 20-second request that finds no gap and falls back to
      0, then a 1-second request. The written search starts the third stretch
      at 10.5, inside the used (0, 20); the corrected one starts it at 20. */
  lemma AsWrittenPlanReusesTime(f: MediaFile, late: Unit)
    requires f.kind == Video && f.duration == Some(30.0) && |f.usedSegments| == 0
    ensures var a := PlanVideoSegmentAsWritten(f, 1.0, 9.5 / 29.0);
      var b := PlanVideoSegmentAsWritten(a.file, 20.0, 0.0);
      var c := PlanVideoSegmentAsWritten(b.file, 1.0, late);
      && a.start == 9.5 && b.start == 0.0 && b.end == 20.0
      && c.start == 10.5 && !ClearOf(Segment(0.0, 20.0), c.start, 1.0)
    ensures var a := PlanVideoSegment(f, 1.0, 9.5 / 29.0);
      var b := PlanVideoSegment(a.file, 20.0, 0.0);
      var c := PlanVideoSegment(b.file, 1.0, late);
      && a.start == 9.5 && b.start == 0.0 && b.end == 20.0
      && c.start == 20.0 && ClearOf(Segment(0.0, 20.0), c.start, 1.0)
  {
    var u := Segment(9.5, 10.5);
    var v := Segment(0.0, 20.0);
    FirstUseAt(f);
    var f1 := f.(usedSegments := [u]);
    SecondUseFallsBack(f1);
    var f2 := f.(usedSegments := [u, v]);
    ThirdUseSearches(f2, late);
  }

  /** The first use of the fresh video: the draw puts it at 9.5. */
  lemma FirstUseAt(f: MediaFile)
    requires f.kind == Video && f.duration == Some(30.0) && |f.usedSegments| == 0
    ensures PlanVideoSegmentAsWritten(f, 1.0, 9.5 / 29.0).file == f.(usedSegments := [Segment(9.5, 10.5)])
    ensures PlanVideoSegment(f, 1.0, 9.5 / 29.0).file == f.(usedSegments := [Segment(9.5, 10.5)])
    ensures PlanVideoSegmentAsWritten(f, 1.0, 9.5 / 29.0).start == 9.5
    ensures PlanVideoSegment(f, 1.0, 9.5 / 29.0).start == 9.5
  {
    assert VideoLength(f) == 30.0;
    assert Uniform(0.0, 29.0, 9.5 / 29.0) == 9.5;
  }

  /** The 20-second request finds no gap either way and falls back to 0. */
  lemma SecondUseFallsBack(f: MediaFile)
    requires f.kind == Video && f.duration == Some(30.0) && f.usedSegments == [Segment(9.5, 10.5)]
    ensures PlanVideoSegmentAsWritten(f, 20.0, 0.0).file == f.(usedSegments := [Segment(9.5, 10.5), Segment(0.0, 20.0)])
    ensures PlanVideoSegment(f, 20.0, 0.0).file == f.(usedSegments := [Segment(9.5, 10.5), Segment(0.0, 20.0)])
    ensures PlanVideoSegmentAsWritten(f, 20.0, 0.0).start == 0.0
    ensures PlanVideoSegment(f, 20.0, 0.0).start == 0.0
  {
    var u := Segment(9.5, 10.5);
    assert VideoLength(f) == 30.0;
    assert [u][1..] == [];
    assert SortSegments([u]) == [u];
    assert [u][..0] == [];
    assert UsedLength([u]) == 1.0;
    assert FirstFitAsWritten([u], 0.0, 30.0, 20.0) == None by {
      assert FirstFitAsWritten([], 10.5, 30.0, 20.0) == None;
    }
    assert FirstFit([u], 0.0, 30.0, 20.0) == None by {
      assert FirstFit([], 10.5, 30.0, 20.0) == None;
    }
  }

  /** The third request: the written search restarts at 10.5 after the
      nested stretch, the corrected one keeps the reach at 20. */
  lemma ThirdUseSearches(f: MediaFile, late: Unit)
    requires f.kind == Video && f.duration == Some(30.0)
    requires f.usedSegments == [Segment(9.5, 10.5), Segment(0.0, 20.0)]
    ensures PlanVideoSegmentAsWritten(f, 1.0, late).start == 10.5
    ensures PlanVideoSegment(f, 1.0, late).start == 20.0
  {
    var u := Segment(9.5, 10.5);
    var v := Segment(0.0, 20.0);
    var used := [u, v];
    assert VideoLength(f) == 30.0;
    assert used[..1] == [u];
    assert [u][..0] == [];
    assert UsedLength([u]) == 1.0;
    assert UsedLength(used) == 21.0;
    assert used[1..] == [v];
    assert SortSegments(used) == [v, u] by {
      assert used[1..][1..] == [];
      assert SortSegments(used[1..]) == [v];
    }
    var sorted := [v, u];
    assert sorted[1..] == [u];
    assert [u][1..] == [];
    assert FirstFitAsWritten(sorted, 0.0, 30.0, 1.0) == Some(10.5) by {
      assert FirstFitAsWritten([], 10.5, 30.0, 1.0) == Some(10.5);
      assert FirstFitAsWritten([u], 20.0, 30.0, 1.0) == Some(10.5);
    }
    assert FirstFit(sorted, 0.0, 30.0, 1.0) == Some(20.0) by {
      assert FirstFit([], 20.0, 30.0, 1.0) == Some(20.0);
      assert FirstFit([u], 20.0, 30.0, 1.0) == Some(20.0);
    }
  }

  // ---------------------------------------------------------------------
  // select_next

  datatype SelectDraws = SelectDraws(choices: nat -> nat, segment: Unit, variation: VariationDraws)

  datatype Step = Step(selector: MediaSelector, selection: MediaSelection)

  /** Which file `select_next` takes and where the cursor goes. */
  function Pick(s: MediaSelector, avoid: Option<nat>, choices: nat -> nat): (r: (nat, nat))
    requires Wf(s) && |s.files| > 0
    ensures r.0 < |s.files| && r.1 < |s.files|
  {
    match s.mode
    case Sequential => SequentialPick(|s.files|, s.cursor, s.antiConsecutive, avoid)
    case Random => (RandomPick(|s.files|, s.antiConsecutive, avoid, choices), s.cursor)
  }

  /** One use of a file: its reuse count goes up by one, a stretch is
      planned when it is a video, and a variation is drawn exactly when it
      has been used before. */
  datatype Use = Use(file: MediaFile, startTime: Option<real>, endTime: Option<real>, variation: Option<Variation>)

  function UseFile(f: MediaFile, duration: real, segment: Unit, variation: VariationDraws): (u: Use)
    ensures u.file.reuseCount == f.reuseCount + 1
    ensures u.file.path == f.path && u.file.kind == f.kind && u.file.duration == f.duration
    ensures u.variation.Some? <==> f.reuseCount >= 1
    ensures f.kind == Image ==>
      u.startTime.None? && u.endTime.None? && u.file.usedSegments == f.usedSegments
    ensures f.kind == Video ==>
      && u.startTime.Some? && u.endTime.Some?
      && u.file.usedSegments == f.usedSegments + [Segment(u.startTime.value, u.endTime.value)]
  {
    var counted := f.(reuseCount := f.reuseCount + 1);
    var v := if counted.reuseCount > 1 then Some(GenerateVariation(variation)) else None;
    if counted.kind == Video then
      var p := PlanVideoSegment(counted, duration, segment);
      Use(p.file, Some(p.start), Some(p.end), v)
    else Use(counted, None, None, v)
  }

  /** `select_next`: fails on an empty pool; otherwise one file of the pool
      is used, the others are untouched, and it becomes the last selected file. */
  function SelectNext(s: MediaSelector, duration: real, avoid: Option<nat>, draws: SelectDraws)
    : (r: Result<Step, string>)
    requires Wf(s)
    ensures r.Failure? <==> |s.files| == 0
    ensures r.Failure? ==> r.error == "No media files available"
    ensures r.Success? ==>
      var s' := r.value.selector;
      var sel := r.value.selection;
      var i := sel.file;
      && Wf(s')
      && i < |s.files| && |s'.files| == |s.files|
      && s'.mode == s.mode && s'.antiConsecutive == s.antiConsecutive
      && s'.lastSelected == Some(i)
      && sel.duration == duration
      && (forall j :: 0 <= j < |s.files| && j != i ==> s'.files[j] == s.files[j])
      && var u := UseFile(s.files[i], duration, draws.segment, draws.variation);
        && s'.files[i] == u.file
        && sel.startTime == u.startTime && sel.endTime == u.endTime && sel.variation == u.variation
    ensures r.Success? && s.mode == Sequential ==>
      var i := r.value.selection.file;
      && (i == s.cursor || (i == (s.cursor + 1) % |s.files| && s.antiConsecutive && avoid == Some(s.cursor)))
      && r.value.selector.cursor == (i + 1) % |s.files|
      && (s.antiConsecutive && avoid.Some? && |s.files| >= 2 ==> i != avoid.value)
    ensures r.Success? && s.mode == Random ==>
      var i := r.value.selection.file;
      && r.value.selector.cursor == s.cursor
      && (|s.files| == 1 ==> i == 0)
      && (|s.files| >= 2 && s.antiConsecutive && avoid == Some(i) ==>
            forall k :: 0 <= k < MaxRandomAttempts ==> draws.choices(k) % |s.files| == i)
  {
    if |s.files| == 0 then Failure("No media files available")
    else
      var pick := Pick(s, avoid, draws.choices);
      assert s.mode == Sequential ==> pick == SequentialPick(|s.files|, s.cursor, s.antiConsecutive, avoid);
      var i := pick.0;
      var u := UseFile(s.files[i], duration, draws.segment, draws.variation);
      var files := s.files[i := u.file];
      assert |files| == |s.files|;
      Success(Step(
        s.(files := files, cursor := pick.1, lastSelected := Some(i)),
        MediaSelection(i, duration, u.startTime, u.endTime, u.variation)))
  }

  /** Statistics of the pool: counts by kind and the reuse count of each file
      used at least once, keyed by file name. */
  datatype Statistics = Statistics(totalFiles: nat, images: nat, videos: nat, reuse: map<string, nat>)

  function CountKind(files: seq<MediaFile>, kind: MediaKind): (c: nat)
    ensures c <= |files|
  {
    if |files| == 0 then 0
    else (if files[0].kind == kind then 1 else 0) + CountKind(files[1..], kind)
  }

  lemma {:induction false} KindsPartition(files: seq<MediaFile>)
    ensures CountKind(files, Image) + CountKind(files, Video) == |files|
  {
    if |files| > 0 {
      KindsPartition(files[1..]);
    }
  }

  /** The reuse table built file by file; a later file of the same name overwrites. */
  /** File `k` is used, is named `name` and has reuse count `count`. */
  predicate UsedAs(files: seq<MediaFile>, k: nat, name: string, count: nat) {
    0 <= k < |files| && Paths.Name(files[k].path) == name
    && files[k].reuseCount > 0 && count == files[k].reuseCount
  }

  /** No file after `k` named `name` has been used. */
  predicate UnusedAfter(files: seq<MediaFile>, k: nat, name: string) {
    forall j :: k < j < |files| && Paths.Name(files[j].path) == name ==> files[j].reuseCount == 0
  }

  /** `count` is the reuse count of the last used file named `name`: a later
      file of that name overwrites an earlier one in the dict comprehension. */
  ghost predicate LastUsedCount(files: seq<MediaFile>, name: string, count: nat) {
    exists k: nat :: UsedAs(files, k, name, count) && UnusedAfter(files, k, name)
  }

  /** A later file that is unused or has another name keeps the last count. */
  lemma LastUsedCountGrows(files: seq<MediaFile>, name: string, count: nat)
    requires |files| > 0 && LastUsedCount(files[..|files| - 1], name, count)
    requires Paths.Name(files[|files| - 1].path) != name || files[|files| - 1].reuseCount == 0
    ensures LastUsedCount(files, name, count)
  {
    var prefix := files[..|files| - 1];
    var k: nat :| UsedAs(prefix, k, name, count) && UnusedAfter(prefix, k, name);
    assert files[k] == prefix[k];
    assert UsedAs(files, k, name, count);
    UnusedAfterGrows(files, k, name);
  }

  lemma UnusedAfterGrows(files: seq<MediaFile>, k: nat, name: string)
    requires |files| > 0 && UnusedAfter(files[..|files| - 1], k, name)
    requires Paths.Name(files[|files| - 1].path) != name || files[|files| - 1].reuseCount == 0
    ensures UnusedAfter(files, k, name)
  {
    var n := |files| - 1;
    forall j | k < j < |files| && Paths.Name(files[j].path) == name
      ensures files[j].reuseCount == 0
    {
      if j < n {
        assert files[j] == files[..n][j];
      }
    }
  }

  /** One file's entry in the reuse dict: used files overwrite their name. */
  function AddUse(m: map<string, nat>, f: MediaFile): map<string, nat> {
    if f.reuseCount > 0 then m[Paths.Name(f.path) := f.reuseCount] else m
  }

  /** Adding the last file keeps both properties of the reuse table. */
  lemma AddUseKeepsTable(files: seq<MediaFile>, m: map<string, nat>)
    requires |files| > 0
    requires forall k :: 0 <= k < |files| - 1 && files[k].reuseCount > 0 ==> Paths.Name(files[k].path) in m
    requires forall name :: name in m ==> LastUsedCount(files[..|files| - 1], name, m[name])
    ensures var grown := AddUse(m, files[|files| - 1]);
      forall k :: 0 <= k < |files| && files[k].reuseCount > 0 ==> Paths.Name(files[k].path) in grown
    ensures var grown := AddUse(m, files[|files| - 1]);
      forall name :: name in grown ==> LastUsedCount(files, name, grown[name])
  {
    var k := |files| - 1;
    var last := Paths.Name(files[k].path);
    forall other | other in m && (other != last || files[k].reuseCount == 0)
      ensures LastUsedCount(files, other, m[other])
    {
      LastUsedCountGrows(files, other, m[other]);
    }
    if files[k].reuseCount > 0 {
      assert UsedAs(files, k, last, files[k].reuseCount);
      assert UnusedAfter(files, k, last);
    }
  }

  function ReuseTable(files: seq<MediaFile>): (m: map<string, nat>)
    ensures forall k :: 0 <= k < |files| && files[k].reuseCount > 0 ==> Paths.Name(files[k].path) in m
    ensures forall name :: name in m ==> LastUsedCount(files, name, m[name])
    decreases |files|
  {
    if |files| == 0 then map[]
    else
      var k := |files| - 1;
      var m := ReuseTable(files[..k]);
      assert forall j :: 0 <= j < k ==> files[..k][j] == files[j];
      AddUseKeepsTable(files, m);
      AddUse(m, files[k])
  }

  function GetStatistics(s: MediaSelector): (st: Statistics)
    ensures st.totalFiles == |s.files| && st.images + st.videos == |s.files|
    ensures st.images == CountKind(s.files, Image) && st.videos == CountKind(s.files, Video)
    ensures forall name :: name in st.reuse ==> st.reuse[name] > 0 && LastUsedCount(s.files, name, st.reuse[name])
    ensures forall k :: 0 <= k < |s.files| && s.files[k].reuseCount > 0 ==> Paths.Name(s.files[k].path) in st.reuse
  {
    KindsPartition(s.files);
    Statistics(|s.files|, CountKind(s.files, Image), CountKind(s.files, Video), ReuseTable(s.files))
  }

  /** `reset`: cursor back to the start, nothing selected, every file unused. */
  function Reset(s: MediaSelector): (r: MediaSelector)
    ensures Wf(r) && r.cursor == 0 && r.lastSelected.None?
    ensures r.mode == s.mode && r.antiConsecutive == s.antiConsecutive
    ensures |r.files| == |s.files|
    ensures forall i :: 0 <= i < |s.files| ==>
      r.files[i] == s.files[i].(reuseCount := 0, usedSegments := [])
  {
    var files := seq(|s.files|, i requires 0 <= i < |s.files| => s.files[i].(reuseCount := 0, usedSegments := []));
    s.(files := files, cursor := 0, lastSelected := None)
  }

  // ---------------------------------------------------------------------
  // A run of selections

  /** The engine's loop over the selector: each call avoids the last
      selected file when anti-consecutive selection is on. */
  function SelectRun(s: MediaSelector, durations: seq<real>, draws: seq<SelectDraws>)
    : (r: Result<(MediaSelector, seq<MediaSelection>), string>)
    requires Wf(s) && |draws| == |durations|
    ensures r.Success? ==> Wf(r.value.0) && |r.value.0.files| == |s.files| && |r.value.1| == |durations|
    ensures r.Success? ==> forall k :: 0 <= k < |r.value.1| ==> r.value.1[k].file < |s.files|
    ensures r.Failure? <==> |s.files| == 0 && |durations| > 0
    decreases |durations|
  {
    if |durations| == 0 then Success((s, []))
    else
      var avoid := if s.antiConsecutive then s.lastSelected else None;
      match SelectNext(s, durations[0], avoid, draws[0])
      case Failure(e) => Failure(e)
      case Success(step) =>
        match SelectRun(step.selector, durations[1..], draws[1..])
        case Failure(e) => Failure(e)
        case Success(rest) => Success((rest.0, [step.selection] + rest.1))
  }

  function Occurrences(sels: seq<MediaSelection>, i: nat): nat {
    if |sels| == 0 then 0 else (if sels[0].file == i then 1 else 0) + Occurrences(sels[1..], i)
  }

  /** After a run every file's reuse count has risen by the number of times it was chosen. */
  lemma {:induction false} RunCountsSelections(s: MediaSelector, durations: seq<real>, draws: seq<SelectDraws>)
    requires Wf(s) && |draws| == |durations|
    requires |s.files| > 0 || |durations| == 0
    ensures var r := SelectRun(s, durations, draws).value;
      forall i :: 0 <= i < |s.files| ==>
        r.0.files[i].reuseCount == s.files[i].reuseCount + Occurrences(r.1, i)
    decreases |durations|
  {
    if |durations| > 0 {
      var avoid := if s.antiConsecutive then s.lastSelected else None;
      var step := SelectNext(s, durations[0], avoid, draws[0]).value;
      RunCountsSelections(step.selector, durations[1..], draws[1..]);
      var rest := SelectRun(step.selector, durations[1..], draws[1..]).value;
      assert SelectRun(s, durations, draws).value == (rest.0, [step.selection] + rest.1);
      assert ([step.selection] + rest.1)[1..] == rest.1;
    }
  }

  /** In sequential mode with anti-consecutive selection and two or more
      files, no file is chosen twice in a row. */
  lemma {:induction false} RunNeverRepeats(s: MediaSelector, durations: seq<real>, draws: seq<SelectDraws>)
    requires Wf(s) && |draws| == |durations|
    requires s.mode == Sequential && s.antiConsecutive && |s.files| >= 2
    requires |s.files| > 0 || |durations| == 0
    ensures var sels := SelectRun(s, durations, draws).value.1;
      && (|sels| > 0 && s.lastSelected.Some? ==> sels[0].file != s.lastSelected.value)
      && forall k :: 0 <= k < |sels| - 1 ==> sels[k].file != sels[k + 1].file
    decreases |durations|
  {
    if |durations| > 0 {
      var step := SelectNext(s, durations[0], s.lastSelected, draws[0]).value;
      RunNeverRepeats(step.selector, durations[1..], draws[1..]);
      var rest := SelectRun(step.selector, durations[1..], draws[1..]).value;
      var sels := [step.selection] + rest.1;
      assert SelectRun(s, durations, draws).value.1 == sels;
      assert forall k :: 1 <= k < |sels| ==> sels[k] == rest.1[k - 1];
    }
  }

  /** One selection raises only the chosen file's reuse count, and carries a
      variation exactly when that file had been used before. */
  lemma StepCounts(s: MediaSelector, duration: real, avoid: Option<nat>, draws: SelectDraws)
    requires Wf(s) && |s.files| > 0
    ensures var step := SelectNext(s, duration, avoid, draws).value;
      var i := step.selection.file;
      && (step.selection.variation.Some? <==> s.files[i].reuseCount >= 1)
      && forall j :: 0 <= j < |s.files| ==>
           step.selector.files[j].reuseCount == s.files[j].reuseCount + (if j == i then 1 else 0)
  {
  }

  /** A non-empty run is its first selection followed by the run from there. */
  lemma SelectRunStep(s: MediaSelector, durations: seq<real>, draws: seq<SelectDraws>)
    requires Wf(s) && |draws| == |durations| && |durations| > 0
    requires |s.files| > 0 || |durations| == 0
    ensures var avoid := if s.antiConsecutive then s.lastSelected else None;
      var first := SelectNext(s, durations[0], avoid, draws[0]);
      && first.Success?
      && SelectRun(first.value.selector, durations[1..], draws[1..]).Success?
      && SelectRun(s, durations, draws).value.1
         == [first.value.selection] + SelectRun(first.value.selector, durations[1..], draws[1..]).value.1
  {
  }

  /** Moving the first selection of a run from the earlier choices into the
      starting reuse count. */
  lemma VariationShift(first: MediaSelection, rest: seq<MediaSelection>, k: nat, before: nat, after: nat)
    requires 0 < k <= |rest|
    requires after == before + (if first.file == rest[k - 1].file then 1 else 0)
    requires rest[k - 1].variation.Some? <==> after + Occurrences(rest[..k - 1], rest[k - 1].file) >= 1
    ensures var sels := [first] + rest;
      sels[k].variation.Some? <==> before + Occurrences(sels[..k], sels[k].file) >= 1
  {
    var sels := [first] + rest;
    assert sels[k] == rest[k - 1];
    assert sels[..k][1..] == rest[..k - 1];
  }

  /** A selection carries a variation exactly when its file was used before
      the run or chosen earlier in it. */
  lemma {:induction false} VariationMeansReuse(s: MediaSelector, durations: seq<real>, draws: seq<SelectDraws>, k: nat)
    requires Wf(s) && |draws| == |durations|
    requires |s.files| > 0 && k < |durations|
    ensures var sels := SelectRun(s, durations, draws).value.1;
      sels[k].variation.Some? <==> s.files[sels[k].file].reuseCount + Occurrences(sels[..k], sels[k].file) >= 1
    decreases k
  {
    var avoid := if s.antiConsecutive then s.lastSelected else None;
    assert SelectRun(s, durations, draws).Success?;
    SelectRunStep(s, durations, draws);
    var step := SelectNext(s, durations[0], avoid, draws[0]).value;
    StepCounts(s, durations[0], avoid, draws[0]);
    var rest := SelectRun(step.selector, durations[1..], draws[1..]).value;
    var sels := [step.selection] + rest.1;
    if k > 0 {
      assert |step.selector.files| == |s.files|;
      VariationMeansReuse(step.selector, durations[1..], draws[1..], k - 1);
      var i := rest.1[k - 1].file;
      assert step.selector.files[i].reuseCount == s.files[i].reuseCount + (if step.selection.file == i then 1 else 0);
      VariationShift(step.selection, rest.1, k, s.files[i].reuseCount, step.selector.files[i].reuseCount);
    } else {
      assert sels[..0] == [];
    }
  }
}
