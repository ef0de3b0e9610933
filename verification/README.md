# mov3 core, modelled in Dafny

mov3 turns an audio track and a folder of images and videos into a music
video. This project models the decision logic at its heart and proves
properties of it:

- **Duration planner** (`Planner`). It turns an audio length into a clip
  schedule. It estimates a clip count, then either builds one clamped clip
  or draws n durations from a tolerance window. It then smooths adjacent
  pairs, spreads the error evenly, corrects the last clip, and lays the
  clips on a timeline where each one overlaps the next.
- **Media selector** (`Selector`, `Segments`). It classifies a folder's
  files by extension. It picks the next file with a sequential cursor or by
  random retry, avoiding an immediate repeat when asked. It keeps reuse
  counts, attaches variations to reused files, and chooses a stretch of a
  video for each use. The program's gap search can return a start inside a
  used stretch (see "## Findings"). The selector here is built on the
  corrected search, which returns the earliest start whose stretch fits in
  the video clear of every stretch used before, whenever there is one. The search as written is modelled alongside it.
- **Job pipeline** (`Engine`). `process_audio_file` drives one job through
  PENDING, VALIDATING, PLANNING, PROCESSING and FINALIZING. It ends in
  COMPLETED, FAILED or CANCELLED. `batch_process` runs one job per audio
  file.
- **Transitions and effects** (`Transitions`, `Effects`, `Weighted`). Each
  is an anti-consecutive pick from a weighted table, plus a map from each
  kind to an abstract FFmpeg filter. Transitions also build the xfade
  filter graph with its offsets and stream labels.
- **Orchestrator decisions** (`Orchestrator`). These cover what the
  capability probe reads from FFmpeg's listings, the encoder choice,
  frame-rate parsing, the route `concatenate_clips` takes, and the
  concat-list file.

`Common`, `Text` and `Paths` hold the helpers: results and options,
clamping, truncation, sums, and the string and `pathlib` operations the
code relies on. Joining a name onto a directory normalises the directory as
`Path` does: empty and "." components and trailing separators go, and a
leading "/" or "//" stays. A job's audio path is normalised the same way
before it is recorded or reported.

Everything the code gets from outside is a parameter:

- **Random draws.** `random.uniform` is a unit real. `random.choice` is a
  natural number taken modulo the pool size. `random.choices` is a natural
  number indexing the support.
- **Filesystem.** Whether the audio file exists, and the media folder's
  sorted entries.
- **User.** The confirmation callback.
- **FFmpeg runs.** The probed duration and the outcome of every FFmpeg run.
- **Clocks.** The start and end readings.

The engine takes all of these as one `World` value. A job returns its
`JobResult` together with the trace of statuses it went through.

The model follows the code in these places:

- A media shortage with prompting on but no callback fails the job with
  the prompt text. It does not ask anyone.
- Accepting the prompt records the prompt text and then the plain warning.
- A shortage is only noticed when `warn_insufficient_media` is set.
- A cancelled job never records an end time, so its processing time is 0.
- Validation counts every regular file. The selector only keeps recognised
  extensions. A folder of unrecognised files therefore passes validation,
  and the job then fails with "No clips were successfully processed".
- `clips_processed` is the number of planned clips, not the number encoded.
- A video length of 0 falls back to 30 seconds, just like an unknown one.
- When the average clip is no longer than the overlap, a zero `min_clip`
  raises a division error. The job fails with that error.

## Model

| member | source | states |
|---|---|---|
| Planner.NewPlanner | src/core/planner.py:53-61 | construction fails exactly when min_clip > max_clip, reporting both bounds; otherwise the planner keeps the given parameters |
| Planner.EstimateClipCount | src/core/planner.py:91-117 | the clip count is at least 1; it fails with a division error exactly when the average clip is not longer than the overlap and min_clip is 0 |
| Planner.ClipCountFits | src/core/planner.py:103-117 | the count is the largest n (at least 1) whose average-length overlapped clips fit the audio; when the overlap is at least the average, it is the number of min-length clips that fit |
| Planner.PlanSingleClip | src/core/planner.py:119-141 | one plan with index 0, start 0 and end equal to its duration; the duration is the audio length clamped into [min, max], and the audio length itself when it is inside the bounds |
| Planner.Window | src/core/planner.py:164-170 | the draw window lies within [min, max]; it is the tolerance band around the target average cut to the bounds, or the whole bounds when that band is empty |
| Planner.InitialDurations | src/core/planner.py:161-173 | n durations, each inside the draw window, so all within bounds |
| Planner.SmoothPair | src/core/planner.py:240-254 | a pair closer than half its mean is left alone; otherwise, within bounds, it stays within bounds, keeps its sum and ends 0.4 times as far apart |
| Planner.SoftBudget | src/core/planner.py:223-256 | the smoothing pass keeps the length; with in-bound input it keeps every duration in bounds and the total unchanged |
| Planner.SmoothStep | src/core/planner.py:239-254 | one step of the pass hands in-bound input to the rest of the pass and carries the pair's sum over |
| Planner.AbsorbError | src/core/planner.py:258-283 | keeps the length; every duration is shifted by error/n and then clamped into [min, max] |
| Planner.AbsorbErrorExact | src/core/planner.py:273-283 | when no clamp binds, absorption adds exactly the error to the total |
| Planner.CorrectLastClip | src/core/planner.py:191-197 | only the last duration changes: it gains the residual and is clamped; a residual within 0.01 changes nothing; when the clamp does not bind, the overlapped total equals the audio exactly |
| Planner.Timeline | src/core/planner.py:199-213 | plan i has index i and duration d_i; it ends at start + d_i; the first clip starts at the given start; each next clip starts one overlap before the previous end |
| Planner.Durations | src/core/planner.py:217 | lists each plan's duration, in order |
| Planner.TimelineStarts | src/core/planner.py:201-213 | clip i starts at the sum of the first i durations less i overlaps |
| Planner.TimelineEnd | src/core/planner.py:200-218 | the last clip ends at the overlapped total |
| Planner.MultiClipDurations | src/core/planner.py:160-197 | the multi-clip path yields n in-bound durations whose residual is within 0.01 |
| Planner.PlanMultipleClips | src/core/planner.py:143-221 | exactly n plans |
| Planner.PlanClips | src/core/planner.py:72-89 | fails exactly when the clip count does; otherwise it gives as many plans as the estimated count |
| Planner.PlanWithinBounds | src/core/planner.py:126-197 | every planned duration, the single clip's included, lies in [min, max] |
| Planner.PlanTimeline | src/core/planner.py:136-141 | every plan starts at 0, indexes its clips in order, chains them with the overlap and ends at the overlapped total |
| Planner.PlanConservation | src/core/planner.py:186-197 | with several clips, the overlapped total is within 0.01 of the audio unless the last clip's clamp bound |
| Planner.SingleClipPlan | src/core/planner.py:84-86 | a clip count of 1 gives the single clamped clip |
| Planner.ExtendLastClip | src/core/planner.py:285-304 | an empty plan is unchanged; otherwise only the last plan's duration and end move, by the extension |
| Planner.ExtendLastClipTotal | src/core/planner.py:296-304 | extending adds the extension to the overlapped total and keeps each end = start + duration |
| Planner.FirstOutOfTolerance | src/core/planner.py:320-325 | the first clip outside the 10% band, or none exactly when all are within it |
| Planner.ValidatePlan | src/core/planner.py:306-334 | passes exactly the non-empty plans whose clips are within 10% of the bounds and whose total is within 1 s; names the offending clip on failure |
| Planner.ConservedPlanIsValid | src/core/planner.py:306-334 | a multi-clip schedule with non-negative bounds whose last clip is strictly inside the bounds passes validation |
| Planner.ConservedBoundedIsValid | src/core/planner.py:306-334 | a bounded, conserved plan whose last clip is strictly inside the bounds has its total within 0.01 s of the audio and passes validation |
| Planner.BoundedPlanIsValid | src/core/planner.py:320-334 | durations within the bounds are within the 10% band |
| Planner.ShortestDuration | src/core/planner.py:355 | the minimum duration is one of the durations and bounds all of them from below |
| Planner.LongestDuration | src/core/planner.py:356 | the maximum duration is one of the durations and bounds all of them from above |
| Planner.GetSummary | src/core/planner.py:336-360 | no summary for an empty plan; otherwise the count, total, overlapped total, extremes, mean, target and error |
| Planner.SummaryMean | src/core/planner.py:357 | the average duration times the clip count is the total duration |
| Planner.SummaryExtremes | src/core/planner.py:355-356 | the summary's min and max are durations of the plan that bound every other one |
| Segments.Insert | src/media/selector.py:337 | insertion into a sorted list keeps it sorted and adds exactly the element |
| Segments.SortSegments | src/media/selector.py:337 | `sorted` yields a sorted permutation of the used segments |
| Segments.FirstFit | src/media/selector.py:336-351 | the corrected gap search returns a start no earlier than the reach; the stretch overlaps no used segment and, when all segments start within the video, fits in it; the start is the reach or a segment's end; no earlier start from the reach on fits; when it returns nothing, no start from the reach on fits |
| Segments.FirstFitAsWritten | src/media/selector.py:340-351 | the written search returns nothing exactly when no gap of the sorted list (between the previous end, 0 at first, and the next start, or the video's end after the last) holds the stretch; otherwise it returns where the first such gap opens, which is 0 or the end of some segment |
| Segments.FirstFitAgrees | src/media/selector.py:340-351 | when no segment is nested in an earlier one, the written and corrected searches agree |
| Segments.FitsAtReordered | src/media/selector.py:337 | whether a stretch fits depends on the used segments, not their order, so sorting them first changes nothing |
| Segments.FindAvailableSegment | src/media/selector.py:319-354 | a non-negative start; when some start from 0 on fits in the video clear of every used segment, the result is the earliest such start; when none does and every used segment starts within the video, a draw in [0, max(0, total - needed)] |
| Segments.FindAvailableSegmentAsWritten | src/media/selector.py:319-354 | when some gap of the sorted segments holds the stretch, the start where the first such gap opens, the gap after the last segment included; when none does, a draw in [0, max(0, total - needed)] |
| Segments.AsWrittenReturnsUsedTime | src/media/selector.py:340-346 | with segments (0,10) and (2,3), 30 s total and 1 s needed, the written search returns 3, inside (0,10) |
| Segments.CorrectedAvoidsUsedTime | src/media/selector.py:340-351 | for the same request, the corrected search returns 10, clear of both segments |
| Selector.FormatsOr | src/media/selector.py:90-91 | an empty format list means the defaults |
| Selector.Classify | src/media/selector.py:114-129 | an entry is an image exactly when it is a file whose lower-cased suffix is an image format; it is a video when it is a file whose suffix is a video format but not an image format |
| Selector.Scan | src/media/selector.py:113-129 | at most one file per entry; every loaded file starts with no duration, no used stretches and no reuse |
| Selector.ScanSound | src/media/selector.py:113-129 | every loaded file is a folder entry with the kind the classifier gives it |
| Selector.ScanComplete | src/media/selector.py:113-129 | every entry the classifier accepts is loaded with that kind |
| Selector.LoadMedia | src/media/selector.py:103-129 | a missing folder gives an empty pool |
| Selector.LoadMediaClassifies | src/media/selector.py:113-129 | the pool is exactly the regular files with a recognised extension, each with its kind |
| Selector.NewSelector | src/media/selector.py:84-99 | a fresh selector over the loaded pool, with the cursor at 0 and nothing selected |
| Selector.NumericCount | src/media/selector.py:146-150 | counts the files whose stem is all digits; at most the pool size |
| Selector.IsNumericNaming | src/media/selector.py:141-152 | holds exactly when the pool is non-empty and more than 70% of it is numerically named |
| Selector.RatioThreshold | src/media/selector.py:152 | c/n > 0.7 is the same as 10c > 7n |
| Selector.SequentialPick | src/media/selector.py:211-230 | the chosen file and next cursor are in range, and the cursor advances modulo n past the chosen file; the choice is the cursor's file, or the next one when the cursor's is avoided; with two or more files the avoided file is never chosen |
| Selector.SequentialLoop | src/media/selector.py:213-230 | the written loop computes the closed-form sequential pick |
| Selector.RandomRetry | src/media/selector.py:237-252 | the pick is in range and is one of the draws; it equals the avoided file only if all 50 draws were the avoided file |
| Selector.RandomPick | src/media/selector.py:234-252 | a one-file pool gives that file; otherwise the avoided file comes back only after 50 rejected draws |
| Selector.GenerateVariation | src/media/selector.py:356-370 | zoom in [0.95, 1.15], offsets and brightness in [-0.1, 0.1], horizontal flip exactly when the draw is below 0.2, never a vertical flip |
| Selector.VideoLength | src/media/selector.py:283 | the known non-zero length, otherwise 30 |
| Selector.PlanVideoSegment | src/media/selector.py:274-317 | end = min(start + needed, length) and start >= 0; exactly one stretch is appended; a first use starts in [0, max(0, length - needed)]; when enough time is unused and some start fits clear of every used stretch, the plan starts at the earliest such start (this is the corrected search; see "## Findings") |
| Selector.PlanVideoSegmentAsWritten | src/media/selector.py:274-317 | the plan on the search as written: end = min(start + needed, length); exactly one stretch is appended; a first use or a fallback draw starts in [0, max(0, length - needed)]; when enough time is unused and some gap of the sorted stretches holds the new one, it starts where the first such gap opens, which is 0 or the end of a used stretch |
| Selector.AsWrittenPlanReusesTime | src/media/selector.py:274-317 | three uses of a fresh 30 s video (1 s drawn at 9.5, 20 s falling back to 0, then 1 s): as written the third starts at 10.5, inside (0, 20); the corrected plan starts it at 20 |
| Selector.Pick | src/media/selector.py:211-252 | the chosen file and the next cursor are inside the pool |
| Selector.UseFile | src/media/selector.py:254-269 | the reuse count rises by one; images get no times; videos get a start and end and one more used stretch; a variation is drawn exactly when the file was used before |
| Selector.SelectNext | src/media/selector.py:191-272 | fails exactly on an empty pool; otherwise the result is a pool member; only that file changes, and it becomes the last selected; the sequential and random rules apply as above |
| Selector.CountKind | src/media/selector.py:376-377 | the number of files of one kind, at most the pool size |
| Selector.KindsPartition | src/media/selector.py:375-377 | images and videos together are the whole pool |
| Selector.ReuseTable | src/media/selector.py:381-383 | every used file's name is in the table, and each name maps to the count of the last used file of that name, as the dict comprehension overwrites earlier entries |
| Selector.AddUseKeepsTable | src/media/selector.py:381-383 | adding one more file to the comprehension keeps both table properties |
| Selector.LastUsedCountGrows | src/media/selector.py:381-383 | a later file that is unused or has another name keeps an entry's value |
| Selector.GetStatistics | src/media/selector.py:372-385 | the total, the per-kind counts that add up to it, and the reuse table: every used file's name is present, and each maps to the positive count of the last used file of that name |
| Selector.Reset | src/media/selector.py:387-394 | cursor 0, nothing selected, every file's reuse count 0 and used stretches empty, nothing else changed |
| Selector.SelectRun | src/core/engine.py:223-232 | the engine's sequence of selections fails exactly when the pool is empty and some clip is planned; otherwise one selection per duration, each from the pool |
| Selector.RunCountsSelections | src/media/selector.py:255 | after a run, each file's reuse count has risen by the number of times it was chosen |
| Selector.RunNeverRepeats | src/media/selector.py:211-230 | sequential anti-consecutive selection over two or more files never picks the same file twice in a row |
| Selector.StepCounts | src/media/selector.py:254-269 | one selection raises only the chosen file's count, and carries a variation exactly when it was used before |
| Selector.VariationMeansReuse | src/media/selector.py:254-269 | in a run, a selection carries a variation exactly when its file was used before the run or chosen earlier in it |
| Weighted.IndexOf | src/effects/transitions.py:91-92 | the first position of a key, or none when it is absent |
| Weighted.Remove | src/effects/transitions.py:91-94 | removes one entry when the key is present; otherwise the table is unchanged |
| Weighted.RemoveExact | src/effects/transitions.py:91-94 | with distinct keys, removal keeps exactly the entries of the other keys |
| Weighted.Support | src/effects/transitions.py:102 | the keys `random.choices` can return are those of positive weight |
| Weighted.SupportExact | src/effects/transitions.py:102 | a key is in the support exactly when it has positive weight |
| Weighted.Pick | src/effects/transitions.py:86-102 | no pick exactly when there are no candidates; otherwise the pick is a candidate |
| Weighted.CandidatesExact | src/effects/transitions.py:89-102 | the candidates are exactly the positive-weight keys other than the previous pick under anti-consecutive selection |
| Weighted.PickCovers | src/effects/transitions.py:102 | every candidate is the pick of some draw |
| Weighted.PickAvoidsLast | src/effects/transitions.py:89-103 | under anti-consecutive selection, the pick is never the previous one |
| Transitions.NewConfig | src/effects/transitions.py:30-56 | a missing table becomes the default table; a given table, even an empty one, is kept |
| Transitions.SelectRandomTransition | src/effects/transitions.py:78-105 | fails exactly when no candidate is left; otherwise the pick is a candidate and becomes the last transition |
| Transitions.SelectAvoidsPrevious | src/effects/transitions.py:89-103 | the pick has positive weight and, under anti-consecutive selection, differs from the previous one |
| Transitions.SelectCoversSupport | src/effects/transitions.py:89-102 | every positive-weight transition other than the avoided one is the pick of some draw |
| Transitions.DefaultTableNeverFails | src/effects/transitions.py:44-56 | with the default table a pick always exists |
| Transitions.XfadeName | src/effects/transitions.py:107-134 | no name exactly for CUT |
| Transitions.XfadeNameIsValueSqueezed | src/effects/transitions.py:121-132 | every other transition's xfade name is its enum value without underscores |
| Transitions.XfadeNamesDistinct | src/effects/transitions.py:121-132 | no two transitions share an xfade name |
| Transitions.BuildXfadeFilter | src/effects/transitions.py:136-162 | no filter exactly for CUT; otherwise the xfade name and offset, with the given duration, or the default when the duration is missing or 0 |
| Transitions.CountNonCut | src/effects/transitions.py:207 | the number of non-CUT transitions, at most the list length |
| Transitions.NonCutSteps | src/effects/transitions.py:203-207 | lists only non-CUT steps, within the list |
| Transitions.NonCutStepsAscending | src/effects/transitions.py:203 | the non-CUT steps come in increasing order |
| Transitions.NonCutStepsComplete | src/effects/transitions.py:203-207 | every non-CUT step is listed |
| Transitions.OffsetAdvance | src/effects/transitions.py:209-227 | a step adds d_i, less the transition duration unless it is a CUT; so the offset after step i is the sum of d_0..d_i less the transition duration per non-CUT step |
| Transitions.ChainAsWritten | src/effects/transitions.py:203-227 | the written loop emits at most one part per step, and every part is an xfade |
| Transitions.ChainAsWrittenStep | src/effects/transitions.py:203-227 | one turn of the written loop, with the offset in closed form |
| Transitions.ChainAsWrittenShape | src/effects/transitions.py:203-229 | the written loop emits exactly one filter per non-CUT step, in order, at the closed-form offset |
| Transitions.RandomTransitions | src/effects/transitions.py:188-189 | the picks made up to the first failing one, all `count` of them exactly when none fails; the engine keeps its table and remembers the last pick made, or its previous pick when none was made |
| Transitions.RandomTransitionsStopped | src/effects/transitions.py:85-102 | a list that stopped short stopped at an engine with no candidate left |
| Transitions.FailedPickKeepsEarlier | src/effects/transitions.py:102-103 | with only FADE weighted and anti-consecutive selection, two picks make one FADE, then fail with FADE remembered |
| Transitions.RandomTransitionsNeverRepeat | src/effects/transitions.py:188-189 | under anti-consecutive selection, consecutive random picks differ, and the first differs from the engine's previous pick, whether or not a later pick fails |
| Transitions.NoRepeatNeighbours | src/effects/transitions.py:89-93 | a list without repeats has every two neighbours different |
| Transitions.ChosenTransitions | src/effects/transitions.py:187-204 | n - 1 transitions: the given list cut to n - 1 (too short a list fails, the engine untouched), or fresh random picks, failing exactly when one of them fails, with the engine remembering the last pick made either way |
| Transitions.BuildConcatAsWritten | src/effects/transitions.py:164-229 | fewer than two clips gives the empty graph and leaves the engine alone; otherwise it fails exactly when choosing transitions fails and leaves the engine where the choosing left it; every part is an xfade |
| Transitions.AsWrittenParts | src/effects/transitions.py:203-229 | with two or more clips, the written graph has one xfade per non-CUT transition, in order |
| Transitions.AsWrittenChainsWithoutCuts | src/effects/transitions.py:211-224 | without CUTs, the written labels chain: step 0 reads the first two clips and step i reads step i-1's output |
| Transitions.NoCutStepsAreAll | src/effects/transitions.py:203-207 | without CUTs, every step is a non-CUT step |
| Transitions.AsWrittenCutDangles | src/effects/transitions.py:219-227 | for a CUT then a FADE over three clips, the only part reads the stream v01, which no part produces |
| Transitions.Chain | src/effects/transitions.py:203-229 | the corrected loop emits one part per step: at a transition the written loop's xfade for that step, at a CUT a plain concatenation; step i reads the previous output and clip i + 1 and writes v{i}{i+1} |
| Transitions.ChainIsWellChained | src/effects/transitions.py:211-227 | in the corrected graph, every stream a part reads is an input clip or an earlier part's output |
| Transitions.ChainKeepsWrittenXfades | src/effects/transitions.py:203-229 | the corrected graph's parts at the non-CUT steps are, in order, exactly the parts the written loop emits, offsets and labels included |
| Transitions.ChainAgreesWithoutCuts | src/effects/transitions.py:203-229 | without CUTs the corrected and the written loop build the same graph |
| Transitions.BuildConcatWithTransitions | src/effects/transitions.py:164-229 | fewer than two clips gives the empty graph and leaves the engine alone; otherwise n - 1 well-chained parts, failing exactly when choosing transitions fails, with the engine where the choosing left it |
| Transitions.DisplayName | src/effects/transitions.py:231-246 | every transition has a name other than "Unknown" |
| Transitions.DisplayNamesDistinct | src/effects/transitions.py:233-245 | no two transitions share a name |
| Effects.WeightsDistinct | src/effects/effects.py:74-94 | the effect table has no repeated key |
| Effects.EveryEffectWeighs | src/effects/effects.py:74-94 | every effect has a positive weight |
| Effects.CandidatesAreAllButLast | src/effects/effects.py:109-121 | the candidates are every effect except the previous one under anti-consecutive selection |
| Effects.SelectRandomEffect | src/effects/effects.py:98-124 | the pick is a candidate and becomes the last effect |
| Effects.SelectEffectSupport | src/effects/effects.py:109-122 | an effect can be picked exactly when it is not the avoided previous effect |
| Effects.PanAxes | src/effects/effects.py:264-282 | left and right move only x; up and down move only y |
| Effects.Motion | src/effects/effects.py:172-208 | the zoom ramp and pan direction of each combined effect; none for NONE, the pure zooms and the pure pans |
| Effects.GenerateFilter | src/effects/effects.py:126-210 | no filter exactly for NONE; otherwise the frame count is int(duration * fps), and the size and rate are those given |
| Effects.KenBurnsAliases | src/effects/effects.py:173-202 | KEN_BURNS_1..4 give the filters of zoom-in pan right, zoom-in pan left, zoom-out pan right and zoom-out pan left |
| Effects.PanMovesOneAxis | src/effects/effects.py:160-170 | a pure pan holds the zoom at 1.0 and moves along one axis only, by the pan amount |
| Effects.RampEndpoints | src/effects/effects.py:217-221 | a zoom ramp starts at its first value at frame 0 and reaches its second at the last frame |
| Effects.AxisEndpoints | src/effects/effects.py:264-282 | a moving axis sweeps from one side of centre to the other by the pan amount |
| Effects.ZoomOfEffect | src/effects/effects.py:212-243 | zoom-in effects ramp from zoom_in_min to zoom_in_max, zoom-out effects from zoom_out_min to zoom_out_max, and pans hold 1.0 |
| Effects.EffectName | src/effects/effects.py:355-378 | every effect has a name other than "Unknown" |
| Effects.EffectNamesDistinct | src/effects/effects.py:357-377 | no two effects share a name |
| Orchestrator.VersionOf | src/ffmpeg/orchestrator.py:98-100 | the version is a non-empty word without spaces, or nothing when the first line has no word |
| Orchestrator.VersionOfBanner | src/ffmpeg/orchestrator.py:99-100 | a first line `ffmpeg version <v> ...` yields v |
| Orchestrator.EncoderOfLine | src/ffmpeg/orchestrator.py:120-123 | a line names an encoder only if it mentions h264 or hevc (in any case) and its first word is V..... or V....D; the name is its second word |
| Orchestrator.EncoderLineWords | src/ffmpeg/orchestrator.py:121 | the words of `flags name description` are the flags, the name, then the description's words |
| Orchestrator.MentionedInside | src/ffmpeg/orchestrator.py:120 | a line containing an h264/hevc name mentions h264 or hevc |
| Orchestrator.EncoderLineRoundTrip | src/ffmpeg/orchestrator.py:119-123 | a well-formed encoder line for an h264/hevc name yields that name |
| Orchestrator.MentionedInLine | src/ffmpeg/orchestrator.py:120 | a well-formed encoder line for an h264/hevc name mentions h264 or hevc |
| Orchestrator.EncoderOfListedLine | src/ffmpeg/orchestrator.py:120-123 | a mentioning line whose first word is a listed flag yields its second word |
| Orchestrator.ParseEncoders | src/ffmpeg/orchestrator.py:118-123 | at most one name per line, each a non-empty word |
| Orchestrator.ParseEncodersAppend | src/ffmpeg/orchestrator.py:119-123 | parsing two listings in a row is parsing each and concatenating the results |
| Orchestrator.ParseEncodersSound | src/ffmpeg/orchestrator.py:119-123 | every listed name is the name some line gives |
| Orchestrator.ParseEncodersComplete | src/ffmpeg/orchestrator.py:119-123 | every line that names an encoder contributes it, after the names of the lines before it |
| Orchestrator.ListingCapabilities | src/ffmpeg/orchestrator.py:110-123 | has_nvenc exactly when the listing contains h264_nvenc or nvenc_h264; AMF and VideoToolbox each test one substring; every encoder comes from a line |
| Orchestrator.DetectCapabilities | src/ffmpeg/orchestrator.py:80-128 | when the listing run succeeds, the flags and encoders are read from it; otherwise nothing is detected; a version comes only from a successful -version run, and a successful run with a version word sets it |
| Orchestrator.UnreadListingDetectsNothing | src/ffmpeg/orchestrator.py:87-128 | a probe that never reads the listing has no hardware flag and no encoder |
| Orchestrator.FirstAcceleratedShift | src/ffmpeg/orchestrator.py:145-154 | skipping a preferred entry without hardware support keeps the first supported one |
| Orchestrator.SelectEncoder | src/ffmpeg/orchestrator.py:130-157 | the first preferred name among h264_nvenc, h264_amf and h264_videotoolbox whose flag is set; otherwise the fallback |
| Orchestrator.SelectEncoderSoftwareFallsBack | src/ffmpeg/orchestrator.py:145-157 | the result is a supported hardware encoder or the fallback, never a software name from the preference list |
| Orchestrator.UnreadListingFallsBack | src/ffmpeg/orchestrator.py:145-157 | without a readable listing the fallback is chosen |
| Orchestrator.ParseFps | src/ffmpeg/orchestrator.py:221-229 | a string without a slash reads as a number or 30; a slash count other than one gives 30 |
| Orchestrator.ParseFpsRatio | src/ffmpeg/orchestrator.py:224-229 | "a/b" reads as a/b when both sides read and b is not 0; otherwise 30 |
| Orchestrator.ParseFpsManySlashes | src/ffmpeg/orchestrator.py:225-229 | two or more slashes give 30 |
| Orchestrator.RouteOf | src/ffmpeg/orchestrator.py:406-416 | no clips exactly for an empty list; the simple copy exactly for one clip with transition 0; the list route otherwise |
| Orchestrator.RouteKeepsClips | src/ffmpeg/orchestrator.py:411-416 | every route hands FFmpeg exactly the given clips, in order; two or more clips always go through the list |
| Orchestrator.ConcatenateClips | src/ffmpeg/orchestrator.py:387-420 | false for no clips; success needs one of the two runs; with two or more clips it is the list run's outcome |
| Orchestrator.AbsPath | src/ffmpeg/orchestrator.py:485 | an absolute path stays as it is; the result ends with the path and is absolute when the working directory is |
| Orchestrator.ListLines | src/ffmpeg/orchestrator.py:483-485 | one `file '<abspath>'` line per clip, in input order |
| Orchestrator.ListFileIsJoin | src/ffmpeg/orchestrator.py:483-485 | the list file is its lines, each followed by a newline |
| Orchestrator.UnquoteListLine | src/ffmpeg/orchestrator.py:485 | the path can be read back from its list line |
| Orchestrator.ListLinesWithoutNewline | src/ffmpeg/orchestrator.py:485 | paths without newlines give lines without newlines |
| Orchestrator.ListFileRoundTrip | src/ffmpeg/orchestrator.py:483-485 | reading the list file back gives every clip's absolute path, in order |
| Engine.Trace | src/core/engine.py:150-246 | the statuses of a job that got through the first phases and ended in an outcome: they start at PENDING, end in the outcome and strictly advance |
| Engine.ProcessingTime | src/core/engine.py:52-57 | 0 while no end time is recorded; otherwise the end minus the start |
| Engine.FieldOf | src/core/engine.py:304 | an override key names a field only when it is that field's attribute name |
| Engine.FieldOfName | src/core/engine.py:304 | every field is found from its own attribute name |
| Engine.Get | src/core/engine.py:305 | reads a field, as a value of that field's type |
| Engine.Set | src/core/engine.py:305 | `setattr` changes the named field and no other |
| Engine.LastSetting | src/core/engine.py:303-305 | the value of the last applicable override of a field, of the field's type |
| Engine.MergeLastWins | src/core/engine.py:294-307 | after merging, each field holds its last override's value, or its configured value when none names it |
| Engine.MergeUnknownKeys | src/core/engine.py:303-305 | overrides that name no field leave the configuration unchanged |
| Engine.CountFiles | src/core/engine.py:342-343 | the regular files among the entries, at most the entry count |
| Engine.ValidateInputs | src/core/engine.py:309-364 | a missing audio file, a missing media folder and an empty one each fail with their message; valid exactly when none applies and no prompted shortage; a prompt asks the warning plus the question; the only warning is the shortage warning |
| Engine.Admit | src/core/engine.py:156-174 | declined exactly when a prompt is answered no; refused, with the message, exactly when invalid without a prompt and a callback; an accepted job carries the prompt text then the warnings |
| Engine.ShortageWithoutCallbackRefuses | src/core/engine.py:157-170 | a prompted shortage without a callback is refused with the prompt text |
| Engine.ShortageAcceptedKeepsBoth | src/core/engine.py:157-174 | an accepted prompt keeps the prompt text, then the plain warning |
| Engine.ShortageWithoutPromptWarns | src/core/engine.py:351-362 | without prompting, a shortage proceeds carrying only its warning |
| Engine.ClipName | src/core/engine.py:393 | the clip file name contains no separator |
| Engine.ClipNamesDistinct | src/core/engine.py:393 | different clip indices give different file names |
| Engine.RequestFor | src/core/engine.py:396-418 | an image or video encode of the selected file, with the clip's output path and duration |
| Engine.AvoidFor | src/core/engine.py:389 | avoid the last selected file only when anti-consecutive is configured |
| Engine.ProcessClip | src/core/engine.py:366-428 | an empty pool gives no file; otherwise one pool file is chosen and encoded; a file comes out exactly when the encode succeeds, named clip_{i:04d}.mp4 in the temp dir; sequential anti-consecutive selection over two or more files avoids the last file |
| Engine.PrependAscending | src/core/engine.py:222-235 | putting an earlier clip index first keeps the indices ascending |
| Engine.ProcessClips | src/core/engine.py:222-237 | the successful clips' files, in plan order, one per successful index, each named after its index |
| Engine.EmptyPoolProducesNothing | src/core/engine.py:385-428 | with an empty pool, no clip is produced |
| Engine.EveryClipEncoded | src/core/engine.py:222-237 | when every encode succeeds on a non-empty pool, every planned clip yields its file |
| Engine.PlanFor | src/core/engine.py:202-210 | a successful plan has at least one clip, for the probed duration |
| Engine.SelectorFor | src/core/engine.py:194-199 | the selector is sequential exactly when the mode is "sequential", with the configured anti-consecutive flag |
| Engine.Finish | src/core/engine.py:167-170 | an early exit sets the outcome, the message and the end time, after the phases reached |
| Engine.Finalize | src/core/engine.py:245-285 | the output is `<audio stem>_final.mp4`; completed exactly when the concatenation succeeds, then with metrics and no error; otherwise failed with "Failed to concatenate clips" |
| Engine.EncodeAndFinalize | src/core/engine.py:217-285 | no clip encoded fails the job with "No clips were successfully processed"; completed exactly when some clip is encoded and the concatenation succeeds |
| Engine.RunAdmitted | src/core/engine.py:176-285 | a zero probe fails with "Could not determine audio duration"; a planner error fails with that error; otherwise clips_processed is the plan length; the job is never cancelled |
| Engine.ProcessPath | src/core/engine.py:136-292 | for a path as `Path` prints it: every job ends in an outcome after advancing through the phases; the result records the path; a cancelled job has no end time; every other job ends at the end clock |
| Engine.ProcessAudioFile | src/core/engine.py:115-292 | the path is recorded as `str(Path(audio_path))` prints it; every job ends in an outcome after advancing through the phases; a cancelled job has no end time; every other job ends at the end clock |
| Engine.RecordsNormalisedPath | src/core/engine.py:132-136 | a job for `./song.mp3` records `song.mp3` |
| Engine.ValidationFailuresAt | src/core/engine.py:156-170 | for a path as `Path` prints it: a missing audio file, then a missing media folder, then an empty one: each fails the job during validation with its message |
| Engine.ValidationFailures | src/core/engine.py:156-170 | a missing audio file fails the job with "Audio file not found: " and the path as `Path` prints it; then a missing media folder, then an empty one, each with its message naming the folder |
| Engine.CancelledExactlyWhenDeclined | src/core/engine.py:157-163 | a job is cancelled exactly when the user declines, with the cancellation message, no processing time and the trace PENDING, VALIDATING, CANCELLED |
| Engine.RefusedJob | src/core/engine.py:156-170 | a refused job fails during validation, after PENDING and VALIDATING, with the refusal's message |
| Engine.ShortageWithoutCallbackFailsJob | src/core/engine.py:157-170 | a prompted shortage without a callback fails the job with the prompt text |
| Engine.UnknownDurationFails | src/core/engine.py:177-184 | an admitted job whose probe gives 0 fails with "Could not determine audio duration", keeping its warnings |
| Engine.PlannerErrorFails | src/core/engine.py:287-292 | an error raised by the planner fails the job with that error after PLANNING |
| Engine.PlannedJobCountsPlans | src/core/engine.py:210-243 | clips_processed is the number of planned clips; with none encoded the job fails after PROCESSING |
| Engine.CompletedExactlyAfterConcat | src/core/engine.py:150-285 | COMPLETED exactly when the job is admitted, probed, planned, has some clip encoded and the concatenation succeeds; such a job went through every phase |
| Engine.FinalConcatRoute | src/core/engine.py:253-258 | concatenating with transition 0 copies a single clip and uses the list for several |
| Engine.Matching | src/core/engine.py:456 | at most one path per entry |
| Engine.MatchingSound | src/core/engine.py:456 | every matched path is an entry whose name ends with the extension |
| Engine.AudioFilesSound | src/core/engine.py:454-456 | every found path is an entry with one of the formats |
| Engine.MatchingComplete | src/core/engine.py:456 | every entry ending with the extension is matched |
| Engine.AudioFilesComplete | src/core/engine.py:454-456 | every entry ending with a format is found |
| Engine.RunJobs | src/core/engine.py:464-474 | one result per file, in order, each the job run on that file |
| Engine.BatchProcess | src/core/engine.py:430-474 | no results for a missing directory; otherwise one result per audio file found, in order |
| Engine.BatchTally | src/core/engine.py:489-491 | the completed, failed and cancelled counts add up to the number of results, and each result records its file as `Path` prints it |
| Engine.TerminalTally | src/core/engine.py:489-491 | the three outcome counts of outcome-only results add up to their number |
| Paths.DirPrefix | src/core/engine.py:335 | the normalised directory is empty or ends in a separator, so a joined name starts a new component |
| Paths.NameOfJoin | src/core/engine.py:335 | joining a name onto any directory gives a path whose final component is the name's own |
| Paths.KeptExact | src/core/engine.py:335 | normalisation keeps exactly the components other than "" and ".", in order |
| Paths.JoinNormalised | src/core/engine.py:393 | onto a directory already in normal form, joining puts one separator between directory and name |
| Paths.JoinOntoCurrent | src/core/engine.py:250 | joining onto "" or "." gives the bare name |
| Paths.JoinOntoRoot | src/core/engine.py:335 | joining onto "/" gives "/" followed by the name, with no doubled separator |
| Paths.JoinDropsTrailing | src/core/engine.py:335 | a trailing separator on the directory is dropped: "media/" gives "media/" followed by the name |
| Paths.JoinDropsCurrent | src/media/selector.py:106 | a "." component is dropped: "./media" gives "media/" followed by the name |
| Paths.NormaliseKeepsNormal | src/core/engine.py:132 | a path already in the form `str(Path(p))` prints prints as itself |
| Paths.NormaliseCurrent | src/core/engine.py:132 | an empty path and "." both print as "." |
| Paths.NormaliseDropsCurrent | src/core/engine.py:132 | a leading "." component goes: "./name" prints as "name" |
| Paths.NormaliseDropsTrailing | src/core/engine.py:132 | a trailing separator goes: "name/" prints as "name" |

## Findings

| source | as written | input that shows it | evidently intended | confidence | as-written member | corrected member |
|---|---|---|---|---|---|---|
| src/media/selector.py:340-346 | after each used segment the search resets its reach to that segment's end, not the furthest end so far | used (0,10) and (2,3) in a 30 s video, 1 s needed: returns 3, inside (0,10). The selector reaches such a state: uses of 1 s at 9.5, then 20 s with no gap (falls back to 0), then 1 s starts at 10.5, inside (0,20) | a start clear of every used segment | not executed | Segments.AsWrittenReturnsUsedTime | Segments.FindAvailableSegment |
| src/effects/transitions.py:219-227 | a CUT step emits no filter, yet the next xfade reads the label the CUT step would have produced | three clips with [CUT, FADE]: the only filter reads [v01], which no filter produces | every stream read is an input clip or an earlier filter's output | not executed | Transitions.AsWrittenCutDangles | Transitions.ChainIsWellChained |

The selector model uses the corrected search. `Selector.AsWrittenPlanReusesTime`
shows that the selector itself reaches the nested state: three uses of one
video, in which the written plan places the third stretch inside the second
one and the corrected plan does not. The filter graph model keeps
both loops: the written one and a corrected one that joins across a CUT
with a plain concatenation.

## Left out

- Python floats are modelled as exact reals; IEEE-754 rounding is not modelled. Contracts that depend on exact arithmetic hold for reals and can differ from the program near a boundary: the count in Planner.EstimateClipCount and Planner.ClipCountFits (min = max = 0.1, no overlap, 0.3 s of audio gives 3 clips here; in Python 0.3 / 0.1 is 2.9999999999999996 and the count is 2), the exact total in Planner.CorrectLastClip and Planner.AbsorbErrorExact, the 0.7 ratio in Selector.IsNumericNaming and Selector.RatioThreshold, and the frame count int(duration * fps) in Effects.GenerateFilter.
- Selector.PlanVideoSegment: follows the corrected gap search, so it does not reproduce the overlapping starts the program's search can return. Selector.UseFile, Selector.SelectNext, Selector.SelectRun and Engine.ProcessClip inherit this. Selector.PlanVideoSegmentAsWritten models the plan on the search as written.
- Randomness is modelled by its range only. `random.uniform`, `random.choice` and `random.choices` are draws passed in; their probabilities are not modelled, and neither are the renormalised weights.
- The shuffle of the pool in random mode (in `_load_media` and `reset`) is left out. `random.choice` ranges over the whole pool, so the order does not change which files can be picked.
- Negative weights are left out: `random.choices` checks only that their total is positive and finite, so a negative weight can shift the draw towards its neighbours in ways the support model does not capture. Only positive weights count as support.
- Weighted.Pick: follows `random.choices` from Python 3.9 on, which raises when the offered weights sum to 0. Python 3.8, which the package also allows, instead returns the last offered key in that case; so under 3.8, with FADE weighted 1.0, CUT weighted 0.0, anti-consecutive selection and FADE picked last, `Transitions.SelectRandomTransition` would return CUT where the model fails. The 3.8 behaviour is not modelled.
- `effect_probability` is left out: the code never reads it.
- Filters and commands are not rendered as text. Zoompan and xfade filters are abstract records, and the Python float formatting inside them is not modelled.
- Error messages built with float formatting, such as the planner's ValueError, are abstract constructors.
- FFmpeg runs are not executed. Encodes, concatenation runs, `get_media_info`, `add_audio` and `cleanup_temp_files` are outcomes passed in.
- `subprocess` timeouts and exceptions are a `Raised` run outcome.
- `float()` is a given function from strings to an optional real.
- Logging, progress callbacks, directory creation, `to_dict`, the configuration file loader and the command line are left out. They hold no decisions.
- Wall-clock time is two given readings, start and end.
- Exceptions raised by the confirmation callback or by FFmpeg helpers outside `_process_clip` are left out. The only exceptions modelled are the planner's errors, reported as FAILED with the error.
- `Text.Lower` and the digit test cover ASCII only. Python's Unicode case mapping and `isdigit` are left out.
- `Orchestrator.AbsPath` does not normalise `..` or repeated separators.
- Apostrophes in clip paths are written unescaped into the concat list. How the concat demuxer would read such a line is not modelled.
- Engine.MergeLastWins: an override whose value has the wrong type for its field is ignored, where `setattr` would store it anyway. Only the configuration fields the pipeline reads are modelled.
- `batch_process` matches formats as plain suffixes. Glob wildcards inside configured formats are left out.
- `get_media_count`, `has_sufficient_media` and `estimate_required_clips` of the selector are left out. Nothing in the pipeline calls them.
- `_xfade_concat` ignores its transition duration and always concatenates through the list, which the model follows. The transition graph is modelled separately, in `Transitions`.
