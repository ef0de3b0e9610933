/**
 The video engine's job pipeline: one audio file is validated, probed,
 planned, encoded clip by clip and concatenated, the job's status moving
 forward through the phases and ending in exactly one of COMPLETED, FAILED
 or CANCELLED. Everything the pipeline asks of the outside world (whether
 files exist, the media folder's entries, the user's answer, the probed
 duration, random draws, FFmpeg's outcomes, the clock) is an input.
 */
module Engine {
  import opened Common
  import Text
  import Paths
  import Planner
  import Selector
  import Orchestrator

  // ---------------------------------------------------------------------
  // Job status and result

  datatype JobStatus =
    | Pending | Validating | Planning | Processing | Finalizing
    | Completed | Failed | Cancelled

  /** The enum values. */
  function StatusValue(s: JobStatus): string {
    match s
    case Pending => "pending"
    case Validating => "validating"
    case Planning => "planning"
    case Processing => "processing"
    case Finalizing => "finalizing"
    case Completed => "completed"
    case Failed => "failed"
    case Cancelled => "cancelled"
  }

  predicate Terminal(s: JobStatus) {
    s.Completed? || s.Failed? || s.Cancelled?
  }

  /** Position in the phase order; the three outcomes share the last place. */
  function Rank(s: JobStatus): nat {
    match s
    case Pending => 0
    case Validating => 1
    case Planning => 2
    case Processing => 3
    case Finalizing => 4
    case _ => 5
  }

  /** The working phases, in the order a job passes through them. */
  const Phases: seq<JobStatus> := [Pending, Validating, Planning, Processing, Finalizing]

  /** Every status in the trace is strictly later than the ones before it. */
  predicate Advancing(trace: seq<JobStatus>) {
    forall i, j :: 0 <= i < j < |trace| ==> Rank(trace[i]) < Rank(trace[j])
  }

  /** The statuses of a job that got through `reached` phases and ended in `last`. */
  function Trace(reached: nat, last: JobStatus): (t: seq<JobStatus>)
    requires 2 <= reached <= |Phases| && Terminal(last)
    ensures |t| == reached + 1 && t[0] == Pending && t[reached] == last
    ensures forall i :: 0 <= i < reached ==> !Terminal(t[i])
    ensures Advancing(t)
  {
    var t := Phases[..reached] + [last];
    assert forall i :: 0 <= i < reached ==> Rank(t[i]) == i && !Terminal(t[i]);
    t
  }

  /** What `str(e)` of an error gives: a literal message, or one of the
      planner's errors (whose text formats floats, not modelled). */
  datatype ErrorMessage = NoError | Says(text: string) | PlannerRaised(error: Planner.PlanError)

  datatype Metrics = Metrics(
    audioDuration: real,
    clipsCount: nat,
    mediaStats: Selector.Statistics,
    planSummary: Option<Planner.Summary>)

  datatype JobResult = JobResult(
    audioFile: string,
    outputFile: string,
    status: JobStatus,
    duration: real,
    clipsProcessed: nat,
    errorMessage: ErrorMessage,
    warnings: seq<string>,
    metrics: Option<Metrics>,
    startTime: real,
    endTime: real)

  /** `processing_time`: zero while no end time has been recorded. */
  function ProcessingTime(r: JobResult): (t: real)
    ensures r.endTime <= 0.0 ==> t == 0.0
    ensures r.endTime > 0.0 ==> r.startTime + t == r.endTime
  {
    if r.endTime > 0.0 then r.endTime - r.startTime else 0.0
  }

  // ---------------------------------------------------------------------
  // Configuration and per-job overrides

  /** The configuration fields the pipeline reads. */
  datatype JobConfig = JobConfig(
    audioDir: string,
    mediaDir: string,
    outputDir: string,
    tempDir: string,
    minClip: real,
    maxClip: real,
    overlap: real,
    tolerance: real,
    selectionMode: string,
    antiConsecutive: bool,
    warnInsufficientMedia: bool,
    minMediaFiles: int,
    promptOnShortage: bool)

  /** The defaults of the configuration dataclass. */
  const DefaultConfig := JobConfig(
    "examples/audio", "examples/media", "output", "temp",
    2.0, 5.0, 0.5, 0.25, "sequential", true, true, 3, true)

  datatype Field =
    | AudioDir | MediaDir | OutputDir | TempDir
    | MinClip | MaxClip | Overlap | Tolerance
    | SelectionMode | AntiConsecutive | WarnInsufficientMedia | MinMediaFiles | PromptOnShortage

  /** An override value. */
  datatype Value = Str(s: string) | Num(r: real) | Int(i: int) | Bool(b: bool)

  /** The attribute name of each field. */
  function FieldName(f: Field): string {
    match f
    case AudioDir => "audio_dir"
    case MediaDir => "media_dir"
    case OutputDir => "output_dir"
    case TempDir => "temp_dir"
    case MinClip => "min_clip_duration"
    case MaxClip => "max_clip_duration"
    case Overlap => "overlap_duration"
    case Tolerance => "soft_budget_tolerance"
    case SelectionMode => "selection_mode"
    case AntiConsecutive => "anti_consecutive"
    case WarnInsufficientMedia => "warn_insufficient_media"
    case MinMediaFiles => "min_media_files"
    case PromptOnShortage => "prompt_on_shortage"
  }

  /** The field an override key names, if any. */
  function FieldOf(key: string): (r: Option<Field>)
    ensures r.Some? ==> FieldName(r.value) == key
  {
    if key == "audio_dir" then Some(AudioDir)
    else if key == "media_dir" then Some(MediaDir)
    else if key == "output_dir" then Some(OutputDir)
    else if key == "temp_dir" then Some(TempDir)
    else if key == "min_clip_duration" then Some(MinClip)
    else if key == "max_clip_duration" then Some(MaxClip)
    else if key == "overlap_duration" then Some(Overlap)
    else if key == "soft_budget_tolerance" then Some(Tolerance)
    else if key == "selection_mode" then Some(SelectionMode)
    else if key == "anti_consecutive" then Some(AntiConsecutive)
    else if key == "warn_insufficient_media" then Some(WarnInsufficientMedia)
    else if key == "min_media_files" then Some(MinMediaFiles)
    else if key == "prompt_on_shortage" then Some(PromptOnShortage)
    else None
  }

  /** Every field is found again from its own name. */
  lemma FieldOfName(f: Field)
    ensures FieldOf(FieldName(f)) == Some(f)
  {
  }

  /** The value has the type the field holds. */
  predicate Fits(f: Field, v: Value) {
    match f
    case AudioDir | MediaDir | OutputDir | TempDir | SelectionMode => v.Str?
    case MinClip | MaxClip | Overlap | Tolerance => v.Num?
    case AntiConsecutive | WarnInsufficientMedia | PromptOnShortage => v.Bool?
    case MinMediaFiles => v.Int?
  }

  function Get(c: JobConfig, f: Field): (v: Value)
    ensures Fits(f, v)
  {
    match f
    case AudioDir => Str(c.audioDir)
    case MediaDir => Str(c.mediaDir)
    case OutputDir => Str(c.outputDir)
    case TempDir => Str(c.tempDir)
    case MinClip => Num(c.minClip)
    case MaxClip => Num(c.maxClip)
    case Overlap => Num(c.overlap)
    case Tolerance => Num(c.tolerance)
    case SelectionMode => Str(c.selectionMode)
    case AntiConsecutive => Bool(c.antiConsecutive)
    case WarnInsufficientMedia => Bool(c.warnInsufficientMedia)
    case MinMediaFiles => Int(c.minMediaFiles)
    case PromptOnShortage => Bool(c.promptOnShortage)
  }

  /** `setattr` on one field: that field takes the value, the others keep theirs. */
  function Set(c: JobConfig, f: Field, v: Value): (r: JobConfig)
    requires Fits(f, v)
    ensures Get(r, f) == v
    ensures forall g :: g != f ==> Get(r, g) == Get(c, g)
  {
    match f
    case AudioDir => c.(audioDir := v.s)
    case MediaDir => c.(mediaDir := v.s)
    case OutputDir => c.(outputDir := v.s)
    case TempDir => c.(tempDir := v.s)
    case MinClip => c.(minClip := v.r)
    case MaxClip => c.(maxClip := v.r)
    case Overlap => c.(overlap := v.r)
    case Tolerance => c.(tolerance := v.r)
    case SelectionMode => c.(selectionMode := v.s)
    case AntiConsecutive => c.(antiConsecutive := v.b)
    case WarnInsufficientMedia => c.(warnInsufficientMedia := v.b)
    case MinMediaFiles => c.(minMediaFiles := v.i)
    case PromptOnShortage => c.(promptOnShortage := v.b)
  }

  /** One override: keys that name no field are ignored. */
  function Apply(c: JobConfig, key: string, v: Value): JobConfig {
    match FieldOf(key)
    case Some(f) => if Fits(f, v) then Set(c, f, v) else c
    case None => c
  }

  /** `_merge_config`: the overrides applied in order to a copy. */
  function MergeConfig(c: JobConfig, overrides: seq<(string, Value)>): JobConfig
    decreases |overrides|
  {
    if |overrides| == 0 then c
    else
      var last := overrides[|overrides| - 1];
      Apply(MergeConfig(c, overrides[..|overrides| - 1]), last.0, last.1)
  }

  /** The value the last applicable override gives `f`, if any. */
  function LastSetting(overrides: seq<(string, Value)>, f: Field): (r: Option<Value>)
    ensures r.Some? ==> Fits(f, r.value)
    decreases |overrides|
  {
    if |overrides| == 0 then None
    else
      var last := overrides[|overrides| - 1];
      if FieldOf(last.0) == Some(f) && Fits(f, last.1) then Some(last.1)
      else LastSetting(overrides[..|overrides| - 1], f)
  }

  /** After merging, each field holds the value of the last override that
      names it, or its configured value when none does. */
  lemma {:induction false} MergeLastWins(c: JobConfig, overrides: seq<(string, Value)>, f: Field)
    ensures Get(MergeConfig(c, overrides), f) == LastSetting(overrides, f).GetOr(Get(c, f))
    decreases |overrides|
  {
    if |overrides| > 0 {
      MergeLastWins(c, overrides[..|overrides| - 1], f);
    }
  }

  /** Overrides that name no field leave the configuration as it was. */
  lemma {:induction false} MergeUnknownKeys(c: JobConfig, overrides: seq<(string, Value)>)
    requires forall k :: 0 <= k < |overrides| ==> FieldOf(overrides[k].0).None?
    ensures MergeConfig(c, overrides) == c
    decreases |overrides|
  {
    if |overrides| > 0 {
      MergeUnknownKeys(c, overrides[..|overrides| - 1]);
    }
  }

  // ---------------------------------------------------------------------
  // Input validation

  /** What `_validate_inputs` returns. */
  datatype Validation = Validation(valid: bool, message: string, promptUser: bool, warnings: seq<string>)

  /** The number of regular files among a folder's entries. */
  function CountFiles(entries: seq<Selector.DirEntry>): (n: nat)
    ensures n <= |entries|
  {
    if |entries| == 0 then 0 else (if entries[0].isFile then 1 else 0) + CountFiles(entries[1..])
  }

  function ShortageWarning(count: nat, minimum: int): string {
    "Warning: Only " + Text.NatToString(count) + " media file(s) found. "
    + "Recommended minimum: " + Text.IntToString(minimum) + ". "
    + "Media will be reused with variations."
  }

  const ContinuePrompt := "\n\nDo you want to continue?"

  /** Fewer media files than recommended, with the warning enabled. */
  predicate Shortage(count: nat, c: JobConfig) {
    c.warnInsufficientMedia && count < c.minMediaFiles
  }

  /** `_validate_inputs`, given whether the audio file exists and the media
      folder's entries (`None` when it does not exist). */
  function ValidateInputs(audioPath: string, audioExists: bool, folderPath: string,
                          folder: Option<seq<Selector.DirEntry>>, c: JobConfig): (v: Validation)
    ensures !audioExists ==> v == Validation(false, "Audio file not found: " + audioPath, false, [])
    ensures audioExists && folder.None? ==>
      v == Validation(false, "Media folder not found: " + folderPath, false, [])
    ensures audioExists && folder.Some? && CountFiles(folder.value) == 0 ==>
      v == Validation(false, "No media files found in: " + folderPath, false, [])
    ensures v.valid <==>
      audioExists && folder.Some? && CountFiles(folder.value) > 0
      && !(Shortage(CountFiles(folder.value), c) && c.promptOnShortage)
    ensures v.promptUser ==> !v.valid && |v.warnings| == 1 && v.message == v.warnings[0] + ContinuePrompt
    ensures |v.warnings| > 0 ==>
      folder.Some? && Shortage(CountFiles(folder.value), c)
      && v.warnings == [ShortageWarning(CountFiles(folder.value), c.minMediaFiles)]
  {
    if !audioExists then Validation(false, "Audio file not found: " + audioPath, false, [])
    else if folder.None? then Validation(false, "Media folder not found: " + folderPath, false, [])
    else
      var count := CountFiles(folder.value);
      if count == 0 then Validation(false, "No media files found in: " + folderPath, false, [])
      else if Shortage(count, c) then
        var warning := ShortageWarning(count, c.minMediaFiles);
        if c.promptOnShortage then Validation(false, warning + ContinuePrompt, true, [warning])
        else Validation(true, "", false, [warning])
      else Validation(true, "", false, [])
  }

  /** How the job goes on after validation. */
  datatype Admission =
    | Proceed(warnings: seq<string>)  // carrying these warnings
    | Refused(message: string)        // FAILED with this message
    | Declined                        // the user said no: CANCELLED

  /** The decision after validation: an invalid result is only put to the
      user when it asks for a prompt and a callback was given. */
  function Admit(v: Validation, confirm: Option<string -> bool>): (a: Admission)
    ensures a.Declined? <==> !v.valid && v.promptUser && confirm.Some? && !confirm.value(v.message)
    ensures a.Refused? <==> !v.valid && !(v.promptUser && confirm.Some?)
    ensures a.Refused? ==> a.message == v.message
    ensures a.Proceed? ==> a.warnings == (if v.valid then [] else [v.message]) + v.warnings
  {
    if !v.valid then
      if v.promptUser && confirm.Some? then
        if !confirm.value(v.message) then Declined
        else Proceed([v.message] + v.warnings)
      else Refused(v.message)
    else Proceed(v.warnings)
  }

  /** A media shortage with prompting enabled but no callback fails the job
      with the prompt text; it is not taken as consent. */
  lemma ShortageWithoutCallbackRefuses(audioPath: string, folderPath: string,
                                       entries: seq<Selector.DirEntry>, c: JobConfig)
    requires CountFiles(entries) > 0 && Shortage(CountFiles(entries), c) && c.promptOnShortage
    ensures Admit(ValidateInputs(audioPath, true, folderPath, Some(entries), c), None) ==
      Refused(ShortageWarning(CountFiles(entries), c.minMediaFiles) + ContinuePrompt)
  {
  }

  /** Accepting the prompt keeps the prompt text and then the plain warning. */
  lemma ShortageAcceptedKeepsBoth(audioPath: string, folderPath: string,
                                  entries: seq<Selector.DirEntry>, c: JobConfig, confirm: string -> bool)
    requires CountFiles(entries) > 0 && Shortage(CountFiles(entries), c) && c.promptOnShortage
    requires confirm(ShortageWarning(CountFiles(entries), c.minMediaFiles) + ContinuePrompt)
    ensures var w := ShortageWarning(CountFiles(entries), c.minMediaFiles);
      Admit(ValidateInputs(audioPath, true, folderPath, Some(entries), c), Some(confirm)) ==
        Proceed([w + ContinuePrompt, w])
  {
  }

  /** Without prompting a shortage only leaves its warning behind, callback or not. */
  lemma ShortageWithoutPromptWarns(audioPath: string, folderPath: string,
                                   entries: seq<Selector.DirEntry>, c: JobConfig,
                                   confirm: Option<string -> bool>)
    requires CountFiles(entries) > 0 && Shortage(CountFiles(entries), c) && !c.promptOnShortage
    ensures Admit(ValidateInputs(audioPath, true, folderPath, Some(entries), c), confirm) ==
      Proceed([ShortageWarning(CountFiles(entries), c.minMediaFiles)])
  {
  }

  // ---------------------------------------------------------------------
  // One clip

  /** What the engine asks FFmpeg to encode for one clip. */
  datatype EncodeRequest =
    | EncodeImage(source: string, output: string, duration: real)
    | EncodeVideo(source: string, output: string, start: real, duration: real)

  /** The inputs one job draws on. */
  datatype World = World(
    audioExists: bool,
    mediaFolder: Option<seq<Selector.DirEntry>>,  // sorted entries; None if the folder is missing
    confirm: Option<string -> bool>,             // the user_confirm_callback, if given
    probedDuration: real,                        // the probe's duration, 0 when unknown
    planDraws: nat -> Unit,
    selectDraws: nat -> Selector.SelectDraws,    // the draws of the i-th clip's selection
    encode: EncodeRequest -> bool,               // whether FFmpeg's encode succeeds
    simpleConcatOk: bool,
    listConcatOk: bool,
    startClock: real,
    endClock: real)

  /** `clip_{index:04d}.mp4`. */
  function ClipName(i: nat): (n: string)
    ensures '/' !in n
  {
    var digits := Text.PadNat(i, 4);
    assert forall k :: 0 <= k < |digits| ==> digits[k] != '/';
    "clip_" + digits + ".mp4"
  }

  /** Different clips never share a file name. */
  lemma ClipNamesDistinct(i: nat, j: nat)
    requires ClipName(i) == ClipName(j)
    ensures i == j
  {
    var a := Text.PadNat(i, 4);
    var b := Text.PadNat(j, 4);
    var n := ClipName(i);
    assert |a| == |b|;
    assert n[5..5 + |a|] == a;
    assert ClipName(j)[5..5 + |b|] == b;
  }

  function ClipPath(tempDir: string, i: nat): string {
    Paths.Join(tempDir, ClipName(i))
  }

  /** The request for the file a selection picked. */
  function RequestFor(f: Selector.MediaFile, sel: Selector.MediaSelection, output: string): (q: EncodeRequest)
    ensures q.output == output && q.duration == sel.duration && q.source == f.path
    ensures q.EncodeImage? <==> f.kind == Selector.Image
  {
    match f.kind
    case Image => EncodeImage(f.path, output, sel.duration)
    case Video => EncodeVideo(f.path, output, sel.startTime.GetOr(0.0), sel.duration)
  }

  /** The file the engine asks the selector to avoid. */
  function AvoidFor(c: JobConfig, s: Selector.MediaSelector): (r: Option<nat>)
    ensures !c.antiConsecutive ==> r.None?
    ensures c.antiConsecutive ==> r == s.lastSelected
  {
    if c.antiConsecutive then s.lastSelected else None
  }

  datatype ClipOutcome = ClipOutcome(
    selector: Selector.MediaSelector,
    chosen: Option<nat>,
    request: Option<EncodeRequest>,
    file: Option<string>)

  /** `_process_clip`: select a file, encode it, and name the output after
      the clip's index; an empty pool or a failed encode gives no file. */
  function ProcessClip(s: Selector.MediaSelector, plan: Planner.ClipPlan, i: nat,
                       c: JobConfig, w: World): (o: ClipOutcome)
    requires Selector.Wf(s)
    ensures Selector.Wf(o.selector) && |o.selector.files| == |s.files|
    ensures |s.files| == 0 ==> o == ClipOutcome(s, None, None, None)
    ensures |s.files| > 0 ==> o.chosen.Some? && o.chosen.value < |s.files| && o.request.Some?
    ensures o.file.Some? <==> o.request.Some? && w.encode(o.request.value)
    ensures o.file.Some? ==> o.file.value == ClipPath(c.tempDir, i)
    ensures o.request.Some? ==>
      o.request.value == RequestFor(s.files[o.chosen.value], SelectedBy(s, plan, i, c, w), ClipPath(c.tempDir, i))
    ensures (o.chosen.Some? && c.antiConsecutive && s.antiConsecutive && s.mode == Selector.Sequential
             && |s.files| >= 2 && s.lastSelected.Some?) ==> o.chosen.value != s.lastSelected.value
  {
    match Selector.SelectNext(s, plan.duration, AvoidFor(c, s), w.selectDraws(i))
    case Failure(_) => ClipOutcome(s, None, None, None)
    case Success(step) =>
      var sel := step.selection;
      var output := ClipPath(c.tempDir, i);
      var request := RequestFor(s.files[sel.file], sel, output);
      ClipOutcome(step.selector, Some(sel.file), Some(request),
                  if w.encode(request) then Some(output) else None)
  }

  /** The selection `select_next` makes for clip `i`. */
  function SelectedBy(s: Selector.MediaSelector, plan: Planner.ClipPlan, i: nat,
                      c: JobConfig, w: World): Selector.MediaSelection
    requires Selector.Wf(s) && |s.files| > 0
  {
    Selector.SelectNext(s, plan.duration, AvoidFor(c, s), w.selectDraws(i)).value.selection
  }

  predicate Ascending(xs: seq<nat>) {
    forall a, b :: 0 <= a < b < |xs| ==> xs[a] < xs[b]
  }

  /** Putting a smaller index in front keeps the indices ascending. */
  lemma PrependAscending(x: nat, xs: seq<nat>)
    requires Ascending(xs) && forall k :: 0 <= k < |xs| ==> x < xs[k]
    ensures Ascending([x] + xs)
  {
    var ys := [x] + xs;
    forall a, b | 0 <= a < b < |ys|
      ensures ys[a] < ys[b]
    {
      assert ys[b] == xs[b - 1];
      if a > 0 {
        assert ys[a] == xs[a - 1];
      }
    }
  }

  /** Putting clip `from`'s file in front of the later clips' files keeps
      the loop's invariants. */
  lemma PrependClip(from: nat, n: nat, tempDir: string, f: string, done: seq<nat>, files: seq<string>)
    requires f == ClipPath(tempDir, from) && |files| == |done|
    requires forall k :: 0 <= k < |done| ==> from + 1 <= done[k] < from + 1 + n
    requires forall k :: 0 <= k < |done| ==> files[k] == ClipPath(tempDir, done[k])
    requires Ascending(done)
    ensures var d := [from] + done;
      && (forall k :: 0 <= k < |d| ==> from <= d[k] < from + 1 + n)
      && (forall k :: 0 <= k < |d| ==> ([f] + files)[k] == ClipPath(tempDir, d[k]))
      && Ascending(d)
  {
    PrependAscending(from, done);
  }

  datatype ClipsOutcome = ClipsOutcome(selector: Selector.MediaSelector, done: seq<nat>, files: seq<string>)

  /** The loop over the planned clips, starting at index `from`: the
      successful clips' files, in plan order. */
  function ProcessClips(s: Selector.MediaSelector, plans: seq<Planner.ClipPlan>, from: nat,
                        c: JobConfig, w: World): (o: ClipsOutcome)
    requires Selector.Wf(s)
    ensures Selector.Wf(o.selector) && |o.selector.files| == |s.files|
    ensures |o.files| == |o.done| <= |plans|
    ensures forall k :: 0 <= k < |o.done| ==> from <= o.done[k] < from + |plans|
    ensures forall k :: 0 <= k < |o.done| ==> o.files[k] == ClipPath(c.tempDir, o.done[k])
    ensures Ascending(o.done)
    decreases |plans|
  {
    if |plans| == 0 then ClipsOutcome(s, [], [])
    else
      var first := ProcessClip(s, plans[0], from, c, w);
      var rest := ProcessClips(first.selector, plans[1..], from + 1, c, w);
      match first.file
      case Some(f) =>
        PrependClip(from, |plans| - 1, c.tempDir, f, rest.done, rest.files);
        ClipsOutcome(rest.selector, [from] + rest.done, [f] + rest.files)
      case None => rest
  }

  /** With an empty pool no clip is produced. */
  lemma {:induction false} EmptyPoolProducesNothing(s: Selector.MediaSelector, plans: seq<Planner.ClipPlan>,
                                                    from: nat, c: JobConfig, w: World)
    requires Selector.Wf(s) && |s.files| == 0
    ensures ProcessClips(s, plans, from, c, w).files == []
    decreases |plans|
  {
    if |plans| > 0 {
      EmptyPoolProducesNothing(s, plans[1..], from + 1, c, w);
    }
  }

  /** The indices `from`, `from + 1`, ... in order. */
  predicate CountsUp(xs: seq<nat>, from: nat) {
    forall k :: 0 <= k < |xs| ==> xs[k] == from + k
  }

  lemma CountsUpCons(from: nat, xs: seq<nat>)
    requires CountsUp(xs, from + 1)
    ensures CountsUp([from] + xs, from)
  {
    assert forall k :: 1 <= k <= |xs| ==> ([from] + xs)[k] == xs[k - 1];
  }

  /** When every encode succeeds and the pool is not empty, every planned
      clip yields its file. */
  lemma {:induction false} EveryClipEncoded(s: Selector.MediaSelector, plans: seq<Planner.ClipPlan>,
                                            from: nat, c: JobConfig, w: World)
    requires Selector.Wf(s) && |s.files| > 0
    requires forall q :: w.encode(q)
    ensures |ProcessClips(s, plans, from, c, w).done| == |plans|
    ensures CountsUp(ProcessClips(s, plans, from, c, w).done, from)
    decreases |plans|
  {
    if |plans| > 0 {
      var first := ProcessClip(s, plans[0], from, c, w);
      assert first.file.Some?;
      EveryClipEncoded(first.selector, plans[1..], from + 1, c, w);
      var rest := ProcessClips(first.selector, plans[1..], from + 1, c, w).done;
      assert ProcessClips(s, plans, from, c, w).done == [from] + rest;
      CountsUpCons(from, rest);
    }
  }

  // ---------------------------------------------------------------------
  // process_audio_file

  datatype Job = Job(result: JobResult, trace: seq<JobStatus>)

  /** The job ended in an outcome after passing through the first phases in order. */
  predicate WellTraced(j: Job) {
    Terminal(j.result.status) && 3 <= |j.trace| <= |Phases| + 1
    && j.trace == Trace(|j.trace| - 1, j.result.status)
  }

  /** The fields no later phase changes. */
  predicate Keeps(r: JobResult, r': JobResult) {
    r'.audioFile == r.audioFile && r'.startTime == r.startTime && r'.warnings == r.warnings
  }

  /** The planner's schedule for the probed duration. */
  function PlanFor(duration: real, c: JobConfig, w: World): (r: Result<(Planner.DurationPlanner, seq<Planner.ClipPlan>), Planner.PlanError>)
    ensures r.Success? ==> |r.value.1| >= 1 && r.value.0.audioDuration == duration
  {
    match Planner.NewPlanner(duration, c.minClip, c.maxClip, c.overlap, c.tolerance)
    case Failure(e) => Failure(e)
    case Success(p) =>
      match Planner.PlanClips(p, w.planDraws)
      case Failure(e) => Failure(e)
      case Success(plans) => Success((p, plans))
  }

  function AudioName(audioPath: string): string {
    Paths.Stem(Paths.Name(audioPath))
  }

  function OutputPath(c: JobConfig, audioPath: string): string {
    Paths.Join(c.outputDir, AudioName(audioPath) + "_final.mp4")
  }

  /** The selector the job starts from: the media folder, in the mode the
      configuration names, with the default formats. */
  function SelectorFor(c: JobConfig, w: World): (s: Selector.MediaSelector)
    ensures Selector.Wf(s) && s.antiConsecutive == c.antiConsecutive
    ensures s.mode == (if c.selectionMode == "sequential" then Selector.Sequential else Selector.Random)
  {
    var mode := if c.selectionMode == "sequential" then Selector.Sequential else Selector.Random;
    Selector.NewSelector(w.mediaFolder, mode, c.antiConsecutive, [], [])
  }

  /** The clip loop of a job whose plan succeeded. */
  function ClipsOf(c: JobConfig, w: World, plans: seq<Planner.ClipPlan>): ClipsOutcome {
    ProcessClips(SelectorFor(c, w), plans, 0, c, w)
  }

  /** The job's validation against the merged configuration. */
  function ValidationOf(audioPath: string, c: JobConfig, w: World): Validation {
    ValidateInputs(audioPath, w.audioExists, Paths.Join(c.mediaDir, AudioName(audioPath)), w.mediaFolder, c)
  }

  /** The admission decision of a job. */
  function AdmissionOf(audioPath: string, config: JobConfig, overrides: seq<(string, Value)>, w: World): Admission {
    Admit(ValidationOf(audioPath, MergeConfig(config, overrides), w), w.confirm)
  }

  /** Ends a job in `status` at the end clock, after `reached` phases. */
  function Finish(r: JobResult, reached: nat, status: JobStatus, message: ErrorMessage, w: World): (j: Job)
    requires 2 <= reached <= |Phases| && Terminal(status)
    ensures WellTraced(j) && |j.trace| == reached + 1
    ensures j.result == r.(status := status, errorMessage := message, endTime := w.endClock)
  {
    Job(r.(status := status, errorMessage := message, endTime := w.endClock), Trace(reached, status))
  }

  /** The finalising phase: the output is named after the audio and the
      encoded clips are joined without a transition. */
  function Finalize(r: JobResult, files: seq<string>, c: JobConfig, audioPath: string,
                    metrics: Metrics, w: World): (j: Job)
    ensures WellTraced(j) && |j.trace| == |Phases| + 1 && Keeps(r, j.result)
    ensures j.result.clipsProcessed == r.clipsProcessed && j.result.duration == r.duration
    ensures j.result.endTime == w.endClock && j.result.outputFile == OutputPath(c, audioPath)
    ensures j.result.status == Completed <==>
      Orchestrator.ConcatenateClips(files, 0.0, w.simpleConcatOk, w.listConcatOk)
    ensures j.result.status == Completed ==> j.result.errorMessage == NoError && j.result.metrics == Some(metrics)
    ensures j.result.status != Completed ==>
      j.result.status == Failed && j.result.errorMessage == Says("Failed to concatenate clips")
  {
    var finalizing := r.(outputFile := OutputPath(c, audioPath));
    if !Orchestrator.ConcatenateClips(files, 0.0, w.simpleConcatOk, w.listConcatOk) then
      Finish(finalizing, 5, Failed, Says("Failed to concatenate clips"), w)
    else Finish(finalizing.(metrics := Some(metrics)), 5, Completed, NoError, w)
  }

  /** The processing phase and what follows it: with no clip encoded the
      job fails, otherwise it is finalised. */
  function EncodeAndFinalize(r: JobResult, plan: (Planner.DurationPlanner, seq<Planner.ClipPlan>),
                             c: JobConfig, audioPath: string, w: World): (j: Job)
    ensures WellTraced(j) && |j.trace| >= 5 && Keeps(r, j.result)
    ensures j.result.clipsProcessed == r.clipsProcessed && j.result.duration == r.duration
    ensures j.result.endTime == w.endClock
    ensures |ClipsOf(c, w, plan.1).files| == 0 ==>
      && j.result.status == Failed && |j.trace| == 5
      && j.result.errorMessage == Says("No clips were successfully processed")
    ensures j.result.status == Completed <==>
      |ClipsOf(c, w, plan.1).files| > 0
      && Orchestrator.ConcatenateClips(ClipsOf(c, w, plan.1).files, 0.0, w.simpleConcatOk, w.listConcatOk)
    ensures j.result.status == Completed ==>
      && |j.trace| == 6 && j.result.outputFile == OutputPath(c, audioPath)
      && j.result.errorMessage == NoError && j.result.metrics.Some?
  {
    var clips := ClipsOf(c, w, plan.1);
    if |clips.files| == 0 then Finish(r, 4, Failed, Says("No clips were successfully processed"), w)
    else
      var metrics := Metrics(r.duration, |plan.1|, Selector.GetStatistics(clips.selector),
                             Planner.GetSummary(plan.0, plan.1));
      Finalize(r, clips.files, c, audioPath, metrics, w)
  }

  /** Everything after admission: probe, plan, encode, finalise. */
  function RunAdmitted(r: JobResult, audioPath: string, c: JobConfig, w: World): (j: Job)
    ensures WellTraced(j) && Keeps(r, j.result) && !j.result.status.Cancelled?
    ensures j.result.endTime == w.endClock
    ensures w.probedDuration == 0.0 ==>
      && j.result.status == Failed && |j.trace| == 3
      && j.result.errorMessage == Says("Could not determine audio duration")
    ensures w.probedDuration != 0.0 ==> j.result.duration == w.probedDuration && |j.trace| >= 4
    ensures w.probedDuration != 0.0 && PlanFor(w.probedDuration, c, w).Failure? ==>
      && j.result.status == Failed && |j.trace| == 4
      && j.result.errorMessage == PlannerRaised(PlanFor(w.probedDuration, c, w).error)
    ensures w.probedDuration != 0.0 && PlanFor(w.probedDuration, c, w).Success? ==>
      && j.result.clipsProcessed == |PlanFor(w.probedDuration, c, w).value.1|
      && j == EncodeAndFinalize(r.(duration := w.probedDuration, clipsProcessed := j.result.clipsProcessed),
                                PlanFor(w.probedDuration, c, w).value, c, audioPath, w)
  {
    if w.probedDuration == 0.0 then Finish(r, 2, Failed, Says("Could not determine audio duration"), w)
    else
      var probed := r.(duration := w.probedDuration);
      match PlanFor(w.probedDuration, c, w)
      case Failure(e) => Finish(probed, 3, Failed, PlannerRaised(e), w)
      case Success(plan) => EncodeAndFinalize(probed.(clipsProcessed := |plan.1|), plan, c, audioPath, w)
  }

  /** A fresh result, PENDING, stamped with the start clock. */
  function Started(audioPath: string, w: World): JobResult {
    JobResult(audioPath, "", Pending, 0.0, 0, NoError, [], None, w.startClock, 0.0)
  }

  /** `process_audio_file` once `Path(audio_path)` has put the path in the
      form it prints in: every outcome is returned, none raised. */
  function ProcessPath(audioPath: string, config: JobConfig, overrides: seq<(string, Value)>, w: World)
    : (j: Job)
    ensures WellTraced(j) && j.trace[0] == Pending && Advancing(j.trace)
    ensures j.result.audioFile == audioPath && j.result.startTime == w.startClock
    ensures j.result.status.Cancelled? ==> j.result.endTime == 0.0
    ensures !j.result.status.Cancelled? ==> j.result.endTime == w.endClock
  {
    var start := Started(audioPath, w);
    var c := MergeConfig(config, overrides);
    var j :=
      match Admit(ValidationOf(audioPath, c, w), w.confirm)
      case Declined =>
        Job(start.(status := Cancelled, errorMessage := Says("User cancelled due to validation warning")),
            Trace(2, Cancelled))
      case Refused(message) => Finish(start, 2, Failed, Says(message), w)
      case Proceed(warnings) => RunAdmitted(start.(warnings := warnings), audioPath, c, w);
    TracedAdvances(j);
    j
  }

  /** `process_audio_file`: the path is normalised by `Path` first, and the
      result records it as `str` prints it. */
  function ProcessAudioFile(audioPath: string, config: JobConfig, overrides: seq<(string, Value)>, w: World)
    : (j: Job)
    ensures WellTraced(j) && j.trace[0] == Pending && Advancing(j.trace)
    ensures j.result.audioFile == Paths.Normalise(audioPath) && j.result.startTime == w.startClock
    ensures j.result.status.Cancelled? ==> j.result.endTime == 0.0
    ensures !j.result.status.Cancelled? ==> j.result.endTime == w.endClock
  {
    ProcessPath(Paths.Normalise(audioPath), config, overrides, w)
  }

  /** A caller's `./song.mp3` is recorded as `song.mp3`. */
  lemma RecordsNormalisedPath(name: string, config: JobConfig, overrides: seq<(string, Value)>, w: World)
    requires name != "" && name != "." && '/' !in name
    ensures ProcessAudioFile("./" + name, config, overrides, w).result.audioFile == name
  {
    Paths.NormaliseDropsCurrent(name);
  }

  /** A well-traced job starts PENDING and only moves forward. */
  lemma TracedAdvances(j: Job)
    requires WellTraced(j)
    ensures j.trace[0] == Pending && Advancing(j.trace)
  {
  }

  // ---------------------------------------------------------------------
  // What a job ends in. Apart from the validation messages, these are stated
  // for a path already as `Path` prints it; `ProcessAudioFile` hands
  // `ProcessPath` exactly such a path.

  /** The validation failures for a path already as `Path` prints it. */
  lemma ValidationFailuresAt(audioPath: string, config: JobConfig, overrides: seq<(string, Value)>, w: World)
    ensures var c := MergeConfig(config, overrides);
      var folder := Paths.Join(c.mediaDir, AudioName(audioPath));
      var j := ProcessPath(audioPath, config, overrides, w);
      && (!w.audioExists ==>
            j.result.errorMessage == Says("Audio file not found: " + audioPath))
      && (w.audioExists && w.mediaFolder.None? ==>
            j.result.errorMessage == Says("Media folder not found: " + folder))
      && (w.audioExists && w.mediaFolder.Some? && CountFiles(w.mediaFolder.value) == 0 ==>
            j.result.errorMessage == Says("No media files found in: " + folder))
      && (!w.audioExists || w.mediaFolder.None? || CountFiles(w.mediaFolder.value) == 0 ==>
            j.result.status == Failed && j.trace == [Pending, Validating, Failed])
  {
    assert Trace(2, Failed) == [Pending, Validating, Failed];
  }

  /** A missing audio file, then a missing media folder, then an empty one:
      each fails the job during validation with its own message. */
  lemma ValidationFailures(audioPath: string, config: JobConfig, overrides: seq<(string, Value)>, w: World)
    ensures var c := MergeConfig(config, overrides);
      var p := Paths.Normalise(audioPath);
      var folder := Paths.Join(c.mediaDir, AudioName(p));
      var j := ProcessAudioFile(audioPath, config, overrides, w);
      && (!w.audioExists ==>
            j.result.errorMessage == Says("Audio file not found: " + p))
      && (w.audioExists && w.mediaFolder.None? ==>
            j.result.errorMessage == Says("Media folder not found: " + folder))
      && (w.audioExists && w.mediaFolder.Some? && CountFiles(w.mediaFolder.value) == 0 ==>
            j.result.errorMessage == Says("No media files found in: " + folder))
      && (!w.audioExists || w.mediaFolder.None? || CountFiles(w.mediaFolder.value) == 0 ==>
            j.result.status == Failed && j.trace == [Pending, Validating, Failed])
  {
    ValidationFailuresAt(Paths.Normalise(audioPath), config, overrides, w);
  }

  /** A job is cancelled exactly when the user declines the prompt; a
      cancelled job records no end time and so no processing time. */
  lemma CancelledExactlyWhenDeclined(audioPath: string, config: JobConfig, overrides: seq<(string, Value)>, w: World)
    ensures var j := ProcessPath(audioPath, config, overrides, w);
      && (j.result.status == Cancelled <==> AdmissionOf(audioPath, config, overrides, w).Declined?)
      && (j.result.status == Cancelled ==>
            && j.result.errorMessage == Says("User cancelled due to validation warning")
            && ProcessingTime(j.result) == 0.0
            && j.trace == [Pending, Validating, Cancelled])
  {
    assert Trace(2, Cancelled) == [Pending, Validating, Cancelled];
  }

  /** A shortage with prompting on but no callback fails the job with the
      prompt text. */
  lemma ShortageWithoutCallbackFailsJob(audioPath: string, config: JobConfig, overrides: seq<(string, Value)>, w: World)
    requires var c := MergeConfig(config, overrides);
      && w.audioExists && w.mediaFolder.Some? && CountFiles(w.mediaFolder.value) > 0
      && Shortage(CountFiles(w.mediaFolder.value), c) && c.promptOnShortage && w.confirm.None?
    ensures var c := MergeConfig(config, overrides);
      var j := ProcessPath(audioPath, config, overrides, w);
      && j.result.status == Failed
      && j.result.errorMessage ==
           Says(ShortageWarning(CountFiles(w.mediaFolder.value), c.minMediaFiles) + ContinuePrompt)
      && j.trace == [Pending, Validating, Failed]
  {
    var c := MergeConfig(config, overrides);
    var folder := Paths.Join(c.mediaDir, AudioName(audioPath));
    ShortageWithoutCallbackRefuses(audioPath, folder, w.mediaFolder.value, c);
    var message := ShortageWarning(CountFiles(w.mediaFolder.value), c.minMediaFiles) + ContinuePrompt;
    assert ValidationOf(audioPath, c, w) == ValidateInputs(audioPath, true, folder, Some(w.mediaFolder.value), c);
    RefusedJob(audioPath, config, overrides, w, message);
  }

  /** A refused job fails during validation with the refusal's message. */
  lemma RefusedJob(audioPath: string, config: JobConfig, overrides: seq<(string, Value)>, w: World, message: string)
    requires AdmissionOf(audioPath, config, overrides, w) == Refused(message)
    ensures var j := ProcessPath(audioPath, config, overrides, w);
      && j.result.status == Failed && j.result.errorMessage == Says(message)
      && j.trace == [Pending, Validating, Failed]
  {
    assert Trace(2, Failed) == [Pending, Validating, Failed];
  }

  /** An admitted job whose probe reports no duration fails before planning,
      keeping the warnings it was admitted with. */
  lemma UnknownDurationFails(audioPath: string, config: JobConfig, overrides: seq<(string, Value)>, w: World)
    requires AdmissionOf(audioPath, config, overrides, w).Proceed? && w.probedDuration == 0.0
    ensures var j := ProcessPath(audioPath, config, overrides, w);
      && j.result.status == Failed
      && j.result.errorMessage == Says("Could not determine audio duration")
      && j.result.warnings == AdmissionOf(audioPath, config, overrides, w).warnings
      && j.trace == [Pending, Validating, Failed]
  {
    assert Trace(2, Failed) == [Pending, Validating, Failed];
  }

  /** An error raised by the planner fails the job with that error. */
  lemma PlannerErrorFails(audioPath: string, config: JobConfig, overrides: seq<(string, Value)>, w: World)
    requires AdmissionOf(audioPath, config, overrides, w).Proceed? && w.probedDuration != 0.0
    requires PlanFor(w.probedDuration, MergeConfig(config, overrides), w).Failure?
    ensures var j := ProcessPath(audioPath, config, overrides, w);
      && j.result.status == Failed
      && j.result.errorMessage == PlannerRaised(PlanFor(w.probedDuration, MergeConfig(config, overrides), w).error)
      && j.result.duration == w.probedDuration
      && j.trace == [Pending, Validating, Planning, Failed]
  {
    assert Trace(3, Failed) == [Pending, Validating, Planning, Failed];
  }

  /** Once planned, the job reports the number of planned clips, not the
      number that were encoded; with none encoded it fails. */
  lemma PlannedJobCountsPlans(audioPath: string, config: JobConfig, overrides: seq<(string, Value)>, w: World)
    requires AdmissionOf(audioPath, config, overrides, w).Proceed? && w.probedDuration != 0.0
    requires PlanFor(w.probedDuration, MergeConfig(config, overrides), w).Success?
    ensures var c := MergeConfig(config, overrides);
      var plans := PlanFor(w.probedDuration, c, w).value.1;
      var j := ProcessPath(audioPath, config, overrides, w);
      && j.result.clipsProcessed == |plans|
      && (|ClipsOf(c, w, plans).files| == 0 ==>
            && j.result.status == Failed
            && j.result.errorMessage == Says("No clips were successfully processed")
            && j.trace == [Pending, Validating, Planning, Processing, Failed])
  {
    assert Trace(4, Failed) == [Pending, Validating, Planning, Processing, Failed];
  }

  /** A job completes exactly when it is admitted, the probe reports a
      duration, the plan succeeds, at least one clip is encoded and the
      concatenation (with no transition) succeeds; it then went through
      every phase, and its output is the audio's `_final.mp4`. */
  lemma CompletedExactlyAfterConcat(audioPath: string, config: JobConfig, overrides: seq<(string, Value)>, w: World)
    ensures var c := MergeConfig(config, overrides);
      var j := ProcessPath(audioPath, config, overrides, w);
      var plan := PlanFor(w.probedDuration, c, w);
      (j.result.status == Completed <==>
        && AdmissionOf(audioPath, config, overrides, w).Proceed?
        && w.probedDuration != 0.0
        && plan.Success?
        && |ClipsOf(c, w, plan.value.1).files| > 0
        && Orchestrator.ConcatenateClips(ClipsOf(c, w, plan.value.1).files, 0.0, w.simpleConcatOk, w.listConcatOk))
    ensures var j := ProcessPath(audioPath, config, overrides, w);
      j.result.status == Completed ==>
        && j.trace == Phases + [Completed]
        && j.result.outputFile == OutputPath(MergeConfig(config, overrides), audioPath)
        && j.result.errorMessage == NoError && j.result.metrics.Some?
  {
    assert Trace(5, Completed) == Phases + [Completed];
  }

  /** The concatenation is asked for without a transition, so a single clip
      is copied and several go through the list file. */
  lemma FinalConcatRoute(files: seq<string>, simpleOk: bool, listOk: bool)
    requires |files| > 0
    ensures Orchestrator.ConcatenateClips(files, 0.0, simpleOk, listOk) == if |files| == 1 then simpleOk else listOk
  {
  }

  // ---------------------------------------------------------------------
  // batch_process

  const DefaultAudioFormats: seq<string> := [".mp3", ".wav"]

  /** The paths `audio_dir.glob("*" + ext)` yields: the entries whose name
      ends with `ext`, in directory order. */
  function Matching(dir: string, names: seq<string>, ext: string): (paths: seq<string>)
    ensures |paths| <= |names|
  {
    if |names| == 0 then []
    else (if Text.EndsWith(names[0], ext) then [Paths.Join(dir, names[0])] else []) + Matching(dir, names[1..], ext)
  }

  /** The audio files found: the matches of each format in turn. */
  function AudioFiles(dir: string, names: seq<string>, formats: seq<string>): seq<string> {
    if |formats| == 0 then [] else Matching(dir, names, formats[0]) + AudioFiles(dir, names, formats[1..])
  }

  /** `p` is the path of an entry whose name ends with one of the formats. */
  predicate FoundAudio(dir: string, names: seq<string>, formats: seq<string>, p: string) {
    exists i, k :: 0 <= i < |names| && 0 <= k < |formats|
      && Text.EndsWith(names[i], formats[k]) && p == Paths.Join(dir, names[i])
  }

  /** `p` is the path of an entry whose name ends with `ext`. */
  predicate MatchedEntry(dir: string, names: seq<string>, ext: string, p: string) {
    exists i :: 0 <= i < |names| && Text.EndsWith(names[i], ext) && p == Paths.Join(dir, names[i])
  }

  lemma {:induction false} MatchingSound(dir: string, names: seq<string>, ext: string)
    ensures forall m :: 0 <= m < |Matching(dir, names, ext)| ==>
      MatchedEntry(dir, names, ext, Matching(dir, names, ext)[m])
    decreases |names|
  {
    if |names| > 0 {
      MatchingSound(dir, names[1..], ext);
      var head := if Text.EndsWith(names[0], ext) then [Paths.Join(dir, names[0])] else [];
      var tail := Matching(dir, names[1..], ext);
      var all := Matching(dir, names, ext);
      assert all == head + tail;
      forall m | 0 <= m < |all|
        ensures MatchedEntry(dir, names, ext, all[m])
      {
        if m < |head| {
          assert Text.EndsWith(names[0], ext) && all[m] == Paths.Join(dir, names[0]);
        } else {
          assert all[m] == tail[m - |head|];
          assert MatchedEntry(dir, names[1..], ext, tail[m - |head|]);
          var i :| 0 <= i < |names[1..]| && Text.EndsWith(names[1..][i], ext)
            && tail[m - |head|] == Paths.Join(dir, names[1..][i]);
          assert names[1..][i] == names[i + 1];
          assert Text.EndsWith(names[i + 1], ext) && all[m] == Paths.Join(dir, names[i + 1]);
        }
      }
    }
  }

  /** Every found path belongs to an entry with one of the formats. */
  lemma {:induction false} AudioFilesSound(dir: string, names: seq<string>, formats: seq<string>)
    ensures forall m :: 0 <= m < |AudioFiles(dir, names, formats)| ==>
      FoundAudio(dir, names, formats, AudioFiles(dir, names, formats)[m])
    decreases |formats|
  {
    if |formats| > 0 {
      MatchingSound(dir, names, formats[0]);
      AudioFilesSound(dir, names, formats[1..]);
      var head := Matching(dir, names, formats[0]);
      var tail := AudioFiles(dir, names, formats[1..]);
      var all := AudioFiles(dir, names, formats);
      assert all == head + tail;
      forall m | 0 <= m < |all|
        ensures FoundAudio(dir, names, formats, all[m])
      {
        if m < |head| {
          assert MatchedEntry(dir, names, formats[0], head[m]);
          var i :| 0 <= i < |names| && Text.EndsWith(names[i], formats[0]) && head[m] == Paths.Join(dir, names[i]);
          assert all[m] == head[m];
          assert Text.EndsWith(names[i], formats[0]) && all[m] == Paths.Join(dir, names[i]);
        } else {
          assert all[m] == tail[m - |head|];
          assert FoundAudio(dir, names, formats[1..], tail[m - |head|]);
          var i, k :| 0 <= i < |names| && 0 <= k < |formats[1..]|
            && Text.EndsWith(names[i], formats[1..][k]) && tail[m - |head|] == Paths.Join(dir, names[i]);
          assert formats[1..][k] == formats[k + 1];
        }
      }
    }
  }

  /** Every entry whose name ends with a format is found, once per format it ends with. */
  lemma {:induction false} MatchingComplete(dir: string, names: seq<string>, ext: string, i: nat)
    requires i < |names| && Text.EndsWith(names[i], ext)
    ensures Paths.Join(dir, names[i]) in Matching(dir, names, ext)
    decreases |names|
  {
    if i > 0 {
      MatchingComplete(dir, names[1..], ext, i - 1);
      assert names[1..][i - 1] == names[i];
    }
  }

  lemma {:induction false} AudioFilesComplete(dir: string, names: seq<string>, formats: seq<string>, i: nat, k: nat)
    requires i < |names| && k < |formats| && Text.EndsWith(names[i], formats[k])
    ensures Paths.Join(dir, names[i]) in AudioFiles(dir, names, formats)
    decreases |formats|
  {
    if k == 0 {
      MatchingComplete(dir, names, formats[0], i);
    } else {
      assert formats[1..][k - 1] == formats[k];
      AudioFilesComplete(dir, names, formats[1..], i, k - 1);
    }
  }

  /** What one job of a batch reports. */
  function ResultOf(file: string, config: JobConfig, overrides: seq<(string, Value)>, w: World): JobResult {
    ProcessAudioFile(file, config, overrides, w).result
  }

  /** The jobs of a batch from the `from`-th file on, one after the other;
      `run(f, k)` is what the `k`-th file `f` reports. */
  function RunJobs(files: seq<string>, run: (string, nat) -> JobResult, from: nat): (rs: seq<JobResult>)
    requires from <= |files|
    ensures |rs| == |files| - from
    ensures forall k :: from <= k < |files| ==> rs[k - from] == run(files[k], k)
    decreases |files| - from
  {
    if from == |files| then [] else [run(files[from], from)] + RunJobs(files, run, from + 1)
  }

  /** `batch_process`: no results for a missing directory, otherwise one
      result per audio file found, in order. `listing` holds the directory's
      entry names, `None` when it does not exist; `formats` is the
      configured list of audio formats, if any. */
  function BatchProcess(audioDir: Option<string>, listing: Option<seq<string>>, formats: Option<seq<string>>,
                        config: JobConfig, overrides: seq<(string, Value)>, worlds: nat -> World)
    : (rs: seq<JobResult>)
    ensures listing.None? ==> rs == []
    ensures listing.Some? ==>
      var files := AudioFiles(BatchDir(audioDir, config), listing.value, formats.GetOr(DefaultAudioFormats));
      && |rs| == |files|
      && forall k :: 0 <= k < |files| ==>
           rs[k] == ResultOf(files[k], config, overrides, worlds(k))
  {
    match listing
    case None => []
    case Some(names) =>
      RunJobs(AudioFiles(BatchDir(audioDir, config), names, formats.GetOr(DefaultAudioFormats)),
              (f: string, k: nat) => ResultOf(f, config, overrides, worlds(k)), 0)
  }

  /** `audio_dir or config.audio_dir`. */
  function BatchDir(audioDir: Option<string>, config: JobConfig): string {
    match audioDir
    case Some(d) => if d == "" then config.audioDir else d
    case None => config.audioDir
  }

  function CountStatus(rs: seq<JobResult>, s: JobStatus): nat {
    if |rs| == 0 then 0 else (if rs[0].status == s then 1 else 0) + CountStatus(rs[1..], s)
  }

  /** Every job of a batch ends completed, failed or cancelled, so the
      summary's three tallies add up to the number of results, and each
      result is about the file it was run on. */
  lemma {:induction false} BatchTally(audioDir: Option<string>, listing: Option<seq<string>>,
                                      formats: Option<seq<string>>, config: JobConfig,
                                      overrides: seq<(string, Value)>, worlds: nat -> World)
    ensures var rs := BatchProcess(audioDir, listing, formats, config, overrides, worlds);
      CountStatus(rs, Completed) + CountStatus(rs, Failed) + CountStatus(rs, Cancelled) == |rs|
    ensures listing.Some? ==>
      var files := AudioFiles(BatchDir(audioDir, config), listing.value, formats.GetOr(DefaultAudioFormats));
      var rs := BatchProcess(audioDir, listing, formats, config, overrides, worlds);
      forall k :: 0 <= k < |rs| ==> rs[k].audioFile == Paths.Normalise(files[k])
  {
    var rs := BatchProcess(audioDir, listing, formats, config, overrides, worlds);
    TerminalTally(rs);
  }

  lemma {:induction false} TerminalTally(rs: seq<JobResult>)
    requires forall k :: 0 <= k < |rs| ==> Terminal(rs[k].status)
    ensures CountStatus(rs, Completed) + CountStatus(rs, Failed) + CountStatus(rs, Cancelled) == |rs|
  {
    if |rs| > 0 {
      TerminalTally(rs[1..]);
    }
  }
}
