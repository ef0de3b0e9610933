/**
 The transition engine: an anti-consecutive weighted choice among eleven
 transitions, the xfade name of each, the single xfade filter, and the
 filter graph that joins a list of clips with one transition between each
 pair. Filters are abstract records; their rendering as FFmpeg text is not
 modelled.
 */
module Transitions {
  import opened Common
  import opened Weighted
  import Text

  datatype TransitionType =
    | Cut | Fade | Dissolve
    | WipeLeft | WipeRight | WipeUp | WipeDown
    | SlideLeft | SlideRight | SlideUp | SlideDown

  /** The enum value of each transition. */
  function Value(t: TransitionType): string {
    match t
    case Cut => "cut"
    case Fade => "fade"
    case Dissolve => "dissolve"
    case WipeLeft => "wipe_left"
    case WipeRight => "wipe_right"
    case WipeUp => "wipe_up"
    case WipeDown => "wipe_down"
    case SlideLeft => "slide_left"
    case SlideRight => "slide_right"
    case SlideUp => "slide_up"
    case SlideDown => "slide_down"
  }

  datatype TransitionConfig = TransitionConfig(defaultDuration: real, weights: Table<TransitionType>, antiConsecutive: bool)

  /** The table `__post_init__` installs, in its insertion order. */
  const DefaultWeights: Table<TransitionType> := [
    (Fade, 0.35), (Dissolve, 0.25), (Cut, 0.15),
    (WipeLeft, 0.05), (WipeRight, 0.05), (WipeUp, 0.025), (WipeDown, 0.025),
    (SlideLeft, 0.05), (SlideRight, 0.05), (SlideUp, 0.025), (SlideDown, 0.025)]

  /** `TransitionConfig(...)`: a missing table becomes the default one; an
      empty one stays empty. */
  function NewConfig(defaultDuration: real, weights: Option<Table<TransitionType>>, antiConsecutive: bool)
    : (c: TransitionConfig)
    ensures weights.None? ==> c.weights == DefaultWeights
    ensures weights.Some? ==> c.weights == weights.value
    ensures c.defaultDuration == defaultDuration && c.antiConsecutive == antiConsecutive
  {
    TransitionConfig(defaultDuration, weights.GetOr(DefaultWeights), antiConsecutive)
  }

  const DefaultConfig: TransitionConfig := TransitionConfig(0.5, DefaultWeights, true)

  datatype TransitionEngine = TransitionEngine(config: TransitionConfig, last: Option<TransitionType>)

  // ---------------------------------------------------------------------
  // select_random_transition

  /** One weighted pick; `None` stands for `random.choices` raising (Python 3.9 on) because
      no candidate has positive weight. The pick becomes the last transition. */
  function SelectRandomTransition(e: TransitionEngine, choice: nat): (r: Option<(TransitionType, TransitionEngine)>)
    ensures r.None? <==> |Candidates(e.config.weights, e.config.antiConsecutive, e.last)| == 0
    ensures r.Some? ==> r.value.0 in Candidates(e.config.weights, e.config.antiConsecutive, e.last)
    ensures r.Some? ==> r.value.1 == e.(last := Some(r.value.0))
  {
    match Pick(e.config.weights, e.config.antiConsecutive, e.last, choice)
    case None => None
    case Some(t) => Some((t, e.(last := Some(t))))
  }

  /** The pick has positive weight and, under anti-consecutive selection, is
      not the previous transition. */
  lemma SelectAvoidsPrevious(e: TransitionEngine, choice: nat)
    requires DistinctKeys(e.config.weights)
    ensures var r := SelectRandomTransition(e, choice);
      r.Some? ==> Weighs(e.config.weights, r.value.0) && !(e.config.antiConsecutive && e.last == Some(r.value.0))
  {
    PickAvoidsLast(e.config.weights, e.config.antiConsecutive, e.last, choice);
  }

  /** Every transition of positive weight other than the one to avoid is a
      possible pick. */
  lemma SelectCoversSupport(e: TransitionEngine, t: TransitionType)
    requires DistinctKeys(e.config.weights)
    requires Weighs(e.config.weights, t) && !(e.config.antiConsecutive && e.last == Some(t))
    ensures exists choice: nat :: SelectRandomTransition(e, choice) == Some((t, e.(last := Some(t))))
  {
    CandidatesExact(e.config.weights, e.config.antiConsecutive, e.last, t);
    PickCovers(e.config.weights, e.config.antiConsecutive, e.last, t);
    var choice: nat :| Pick(e.config.weights, e.config.antiConsecutive, e.last, choice) == Some(t);
    assert SelectRandomTransition(e, choice) == Some((t, e.(last := Some(t))));
  }

  /** With the default table a pick always exists, whatever came before. */
  lemma DefaultTableNeverFails(last: Option<TransitionType>, choice: nat)
    ensures SelectRandomTransition(TransitionEngine(DefaultConfig, last), choice).Some?
  {
    var t := DefaultWeights;
    assert DistinctKeys(t) by {
      forall i, j | 0 <= i < j < |t| ensures t[i].0 != t[j].0 {
        assert Value(t[i].0) != Value(t[j].0);
      }
    }
    var k := if last == Some(Fade) then Dissolve else Fade;
    assert Weighs(t, k) by {
      if k == Fade { assert t[0].0 == k; } else { assert t[1].0 == k; }
    }
    CandidatesExact(t, true, last, k);
  }

  // ---------------------------------------------------------------------
  // get_xfade_transition and build_xfade_filter

  /** The xfade name: none for a cut, otherwise the enum value without its
      underscore. */
  function XfadeName(t: TransitionType): (r: Option<string>)
    ensures r.None? <==> t == Cut
  {
    match t
    case Cut => None
    case Fade => Some("fade")
    case Dissolve => Some("dissolve")
    case WipeLeft => Some("wipeleft")
    case WipeRight => Some("wiperight")
    case WipeUp => Some("wipeup")
    case WipeDown => Some("wipedown")
    case SlideLeft => Some("slideleft")
    case SlideRight => Some("slideright")
    case SlideUp => Some("slideup")
    case SlideDown => Some("slidedown")
  }

  /** The xfade name of every transition but a cut is its enum value with
      the underscore dropped. */
  lemma XfadeNameIsValueSqueezed(t: TransitionType)
    requires t != Cut
    ensures XfadeName(t) == Some(Text.Without(Value(t), '_'))
  {
    match t
    case Fade => Text.WithoutAbsent("fade", '_');
    case Dissolve => Text.WithoutAbsent("dissolve", '_');
    case WipeLeft | WipeRight | WipeUp | WipeDown => WipeSqueezed(t);
    case SlideLeft | SlideRight | SlideUp | SlideDown => SlideSqueezed(t);
  }

  lemma WipeSqueezed(t: TransitionType)
    requires t.WipeLeft? || t.WipeRight? || t.WipeUp? || t.WipeDown?
    ensures XfadeName(t) == Some(Text.Without(Value(t), '_'))
  {
    match t
    case WipeLeft =>
      assert Value(t) == "wipe" + "_" + "left" && XfadeName(t).value == "wipe" + "left";
      SqueezedWords(t, "wipe", "left");
    case WipeRight =>
      assert Value(t) == "wipe" + "_" + "right" && XfadeName(t).value == "wipe" + "right";
      SqueezedWords(t, "wipe", "right");
    case WipeUp =>
      assert Value(t) == "wipe" + "_" + "up" && XfadeName(t).value == "wipe" + "up";
      SqueezedWords(t, "wipe", "up");
    case WipeDown =>
      assert Value(t) == "wipe" + "_" + "down" && XfadeName(t).value == "wipe" + "down";
      SqueezedWords(t, "wipe", "down");
  }

  lemma SlideSqueezed(t: TransitionType)
    requires t.SlideLeft? || t.SlideRight? || t.SlideUp? || t.SlideDown?
    ensures XfadeName(t) == Some(Text.Without(Value(t), '_'))
  {
    match t
    case SlideLeft =>
      assert Value(t) == "slide" + "_" + "left" && XfadeName(t).value == "slide" + "left";
      SqueezedWords(t, "slide", "left");
    case SlideRight =>
      assert Value(t) == "slide" + "_" + "right" && XfadeName(t).value == "slide" + "right";
      SqueezedWords(t, "slide", "right");
    case SlideUp =>
      assert Value(t) == "slide" + "_" + "up" && XfadeName(t).value == "slide" + "up";
      SqueezedWords(t, "slide", "up");
    case SlideDown =>
      assert Value(t) == "slide" + "_" + "down" && XfadeName(t).value == "slide" + "down";
      SqueezedWords(t, "slide", "down");
  }

  /** A two-word value squeezes to the two words run together. */
  lemma SqueezedWords(t: TransitionType, a: string, b: string)
    requires '_' !in a && '_' !in b
    requires Value(t) == a + "_" + b && XfadeName(t) == Some(a + b)
    ensures XfadeName(t) == Some(Text.Without(Value(t), '_'))
  {
    Text.WithoutJoined(a, b, '_');
  }

  /** No two transitions share an xfade name. */
  lemma XfadeNamesDistinct(a: TransitionType, b: TransitionType)
    requires XfadeName(a).Some? && XfadeName(a) == XfadeName(b)
    ensures a == b
  {
  }

  /** One xfade filter, before rendering. */
  datatype Xfade = Xfade(name: string, duration: real, offset: real)

  /** `build_xfade_filter`: nothing for a cut; otherwise the xfade name, the
      given duration unless it is missing or zero, and the offset. */
  function BuildXfadeFilter(e: TransitionEngine, t: TransitionType, offset: real, duration: Option<real>)
    : (r: Option<Xfade>)
    ensures r.None? <==> t == Cut
    ensures r.Some? ==> r.value.name == XfadeName(t).value && r.value.offset == offset
    ensures r.Some? && duration.Some? && duration.value != 0.0 ==> r.value.duration == duration.value
    ensures r.Some? && (duration.None? || duration.value == 0.0) ==> r.value.duration == e.config.defaultDuration
  {
    match XfadeName(t)
    case None => None
    case Some(name) => Some(Xfade(name, RealOr(duration, e.config.defaultDuration), offset))
  }

  // ---------------------------------------------------------------------
  // build_concat_with_transitions

  /** A stream label: `[k:v]` for input clip `k`, `[v{a}{b}]` for the result
      of joining up to clip `b`. */
  datatype Label = Input(clip: nat) | Link(from: nat, to: nat)

  /** One filter of the graph: an xfade, or (in the corrected graph) a plain
      concatenation of two streams. */
  datatype Part =
    | XfadePart(left: Label, right: Label, xfade: Xfade, out: Label)
    | ConcatPart(left: Label, right: Label, out: Label)

  /** The stream step `i` joins clip `i + 1` onto. */
  function Prev(i: nat): Label {
    if i == 0 then Input(0) else Link(i - 1, i)
  }

  /** The number of transitions that are not cuts. */
  function CountNonCut(ts: seq<TransitionType>): (c: nat)
    ensures c <= |ts|
  {
    if |ts| == 0 then 0 else CountNonCut(ts[..|ts| - 1]) + (if ts[|ts| - 1] == Cut then 0 else 1)
  }

  /** The offset after step `i`: every clip up to `i` adds its duration, and
      every non-cut step up to `i` takes one transition back. */
  function Offset(ds: seq<real>, ts: seq<TransitionType>, td: real, i: nat): real
    requires i < |ts| && i < |ds|
  {
    Sum(ds[..i + 1]) - (CountNonCut(ts[..i + 1]) as real) * td
  }

  /** The steps, from `i` on, whose transition is not a cut, in order. */
  function NonCutSteps(ts: seq<TransitionType>, i: nat): (r: seq<nat>)
    ensures forall k :: 0 <= k < |r| ==> i <= r[k] < |ts| && ts[r[k]] != Cut
    decreases |ts| - i
  {
    if i >= |ts| then []
    else (if ts[i] != Cut then [i] else []) + NonCutSteps(ts, i + 1)
  }

  /** The non-cut steps are listed in increasing order. */
  lemma {:induction false} NonCutStepsAscending(ts: seq<TransitionType>, i: nat)
    ensures forall k, l :: 0 <= k < l < |NonCutSteps(ts, i)| ==> NonCutSteps(ts, i)[k] < NonCutSteps(ts, i)[l]
    decreases |ts| - i
  {
    if i < |ts| {
      NonCutStepsAscending(ts, i + 1);
      var rest := NonCutSteps(ts, i + 1);
      if ts[i] != Cut {
        var r := [i] + rest;
        assert NonCutSteps(ts, i) == r;
        forall k, l | 0 <= k < l < |r|
          ensures r[k] < r[l]
        {
          assert r[l] == rest[l - 1];
          if k > 0 {
            assert r[k] == rest[k - 1];
          }
        }
      } else {
        assert NonCutSteps(ts, i) == rest;
      }
    }
  }

  /** Every non-cut step from `i` on is listed. */
  lemma {:induction false} NonCutStepsComplete(ts: seq<TransitionType>, i: nat)
    ensures forall j :: i <= j < |ts| && ts[j] != Cut ==> j in NonCutSteps(ts, i)
    decreases |ts| - i
  {
    if i < |ts| {
      NonCutStepsComplete(ts, i + 1);
      var rest := NonCutSteps(ts, i + 1);
      var r := NonCutSteps(ts, i);
      assert r == (if ts[i] != Cut then [i] else []) + rest;
      forall j | i <= j < |ts| && ts[j] != Cut
        ensures j in r
      {
        if j > i {
          assert j in rest;
        }
      }
    }
  }

  /** The filter the written loop emits at a non-cut step `i`. */
  function StepPart(ds: seq<real>, ts: seq<TransitionType>, td: real, i: nat): Part
    requires i < |ts| && i < |ds| && ts[i] != Cut
  {
    XfadePart(Prev(i), Input(i + 1), Xfade(XfadeName(ts[i]).value, td, Offset(ds, ts, td, i)), Link(i, i + 1))
  }

  /** The loop as written, from step `i` with the offset reached so far: a
      cut adds its clip's duration and emits nothing. */
  function ChainAsWritten(ds: seq<real>, ts: seq<TransitionType>, td: real, i: nat, offset: real): (r: seq<Part>)
    requires |ts| < |ds| && i <= |ts|
    ensures |r| <= |ts| - i
    ensures forall k :: 0 <= k < |r| ==> r[k].XfadePart?
    decreases |ts| - i
  {
    if i == |ts| then []
    else
      match XfadeName(ts[i])
      case None => ChainAsWritten(ds, ts, td, i + 1, offset + ds[i])
      case Some(name) =>
        var o := offset + ds[i] - td;
        [XfadePart(Prev(i), Input(i + 1), Xfade(name, td, o), Link(i, i + 1))]
          + ChainAsWritten(ds, ts, td, i + 1, o)
  }

  lemma CountStep(ts: seq<TransitionType>, i: nat)
    requires i < |ts|
    ensures CountNonCut(ts[..i + 1]) == CountNonCut(ts[..i]) + (if ts[i] == Cut then 0 else 1)
  {
    assert ts[..i + 1][..i] == ts[..i];
  }

  /** The offset before step `i`. */
  function OffsetBefore(ds: seq<real>, ts: seq<TransitionType>, td: real, i: nat): real
    requires i <= |ts| && i <= |ds|
  {
    Sum(ds[..i]) - (CountNonCut(ts[..i]) as real) * td
  }

  lemma OffsetAdvance(ds: seq<real>, ts: seq<TransitionType>, td: real, i: nat)
    requires i < |ts| && i < |ds|
    ensures Offset(ds, ts, td, i) == OffsetBefore(ds, ts, td, i) + ds[i] - (if ts[i] == Cut then 0.0 else td)
    ensures OffsetBefore(ds, ts, td, i + 1) == Offset(ds, ts, td, i)
  {
    SumStep(ds, i);
    CountStep(ts, i);
    MulSucc(CountNonCut(ts[..i]) as real, td);
  }

  /** One turn of the written loop, with the offset in closed form. */
  lemma ChainAsWrittenStep(ds: seq<real>, ts: seq<TransitionType>, td: real, i: nat)
    requires |ts| < |ds| && i < |ts|
    ensures ChainAsWritten(ds, ts, td, i, OffsetBefore(ds, ts, td, i))
      == (if ts[i] != Cut then [StepPart(ds, ts, td, i)] else [])
         + ChainAsWritten(ds, ts, td, i + 1, OffsetBefore(ds, ts, td, i + 1))
  {
    OffsetAdvance(ds, ts, td, i);
  }

  /** The written loop emits exactly one filter per non-cut step, in order,
      each with the offset `Offset` gives and the labels `Prev(i)`,
      `[i+1:v]` and `v{i}{i+1}`. */
  lemma {:induction false} ChainAsWrittenShape(ds: seq<real>, ts: seq<TransitionType>, td: real, i: nat)
    requires |ts| < |ds| && i <= |ts|
    ensures var parts := ChainAsWritten(ds, ts, td, i, OffsetBefore(ds, ts, td, i));
      var steps := NonCutSteps(ts, i);
      && |parts| == |steps|
      && forall k :: 0 <= k < |parts| ==> parts[k] == StepPart(ds, ts, td, steps[k])
    decreases |ts| - i
  {
    if i < |ts| {
      ChainAsWrittenStep(ds, ts, td, i);
      ChainAsWrittenShape(ds, ts, td, i + 1);
      var parts := ChainAsWritten(ds, ts, td, i, OffsetBefore(ds, ts, td, i));
      var rest := ChainAsWritten(ds, ts, td, i + 1, OffsetBefore(ds, ts, td, i + 1));
      var steps := NonCutSteps(ts, i);
      var restSteps := NonCutSteps(ts, i + 1);
      var head := if ts[i] != Cut then 1 else 0;
      assert steps == (if ts[i] != Cut then [i] else []) + restSteps;
      assert |parts| == head + |rest|;
      forall k | 0 <= k < |parts|
        ensures parts[k] == StepPart(ds, ts, td, steps[k])
      {
        if k >= head {
          assert parts[k] == rest[k - head];
          assert steps[k] == restSteps[k - head];
        }
      }
    }
  }

  datatype ConcatError = TooFewTransitions | NoTransitionAvailable

  /** The picks made so far, the engine they leave behind, and whether all of
      them were made: a pick that raises ends the list comprehension, but
      every earlier pick has already set `last_transition`. */
  datatype Picks = Picks(picked: seq<TransitionType>, engine: TransitionEngine, complete: bool)

  /** `[select_random_transition() for _ in range(count)]`, the `k`-th pick
      using draw `choices(k)`. */
  function RandomTransitions(e: TransitionEngine, count: nat, choices: nat -> nat, k: nat): (r: Picks)
    ensures r.engine.config == e.config
    ensures r.complete <==> |r.picked| == count
    ensures |r.picked| <= count
    ensures r.engine.last == if |r.picked| == 0 then e.last else Some(r.picked[|r.picked| - 1])
    decreases count
  {
    if count == 0 then Picks([], e, true)
    else
      match SelectRandomTransition(e, choices(k))
      case None => Picks([], e, false)
      case Some((t, e1)) =>
        var rest := RandomTransitions(e1, count - 1, choices, k + 1);
        Picks([t] + rest.picked, rest.engine, rest.complete)
  }

  /** An incomplete run stopped at a pick that found no candidate, from the
      engine the earlier picks left. */
  lemma {:induction false} RandomTransitionsStopped(e: TransitionEngine, count: nat, choices: nat -> nat, k: nat)
    ensures var r := RandomTransitions(e, count, choices, k);
      !r.complete ==> |Candidates(r.engine.config.weights, r.engine.config.antiConsecutive, r.engine.last)| == 0
    decreases count
  {
    if count > 0 {
      match SelectRandomTransition(e, choices(k))
      case None =>
      case Some((t, e1)) =>
        RandomTransitionsStopped(e1, count - 1, choices, k + 1);
    }
  }

  /** A pick that finds no candidate leaves the engine where the earlier
      picks put it: with only FADE weighted and anti-consecutive selection,
      three clips get one FADE and then fail, remembering FADE. */
  lemma FailedPickKeepsEarlier(choices: nat -> nat)
    ensures var e := TransitionEngine(TransitionConfig(0.5, [(Fade, 1.0)], true), None);
      var r := RandomTransitions(e, 2, choices, 0);
      && !r.complete && r.picked == [Fade] && r.engine.last == Some(Fade)
  {
    var t: Table<TransitionType> := [(Fade, 1.0)];
    var e := TransitionEngine(TransitionConfig(0.5, t, true), None);
    assert Candidates(t, true, None) == [Fade] by {
      assert Support(t) == [Fade];
    }
    assert Candidates(t, true, Some(Fade)) == [] by {
      assert Remove(t, Fade) == [];
    }
    var e1 := e.(last := Some(Fade));
    assert SelectRandomTransition(e1, choices(1)).None?;
    assert RandomTransitions(e1, 1, choices, 1) == Picks([], e1, false);
  }

  /** No transition directly follows itself. */
  predicate NoRepeat(ts: seq<TransitionType>)
    decreases |ts|
  {
    |ts| < 2 || (ts[0] != ts[1] && NoRepeat(ts[1..]))
  }

  /** `NoRepeat` says that every two neighbours differ. */
  lemma {:induction false} NoRepeatNeighbours(ts: seq<TransitionType>, i: nat)
    requires NoRepeat(ts) && i + 1 < |ts|
    ensures ts[i] != ts[i + 1]
    decreases i
  {
    if i > 0 {
      NoRepeatNeighbours(ts[1..], i - 1);
    }
  }

  lemma NoRepeatCons(t: TransitionType, tail: seq<TransitionType>)
    requires NoRepeat(tail) && (|tail| > 0 ==> tail[0] != t)
    ensures NoRepeat([t] + tail)
  {
    assert ([t] + tail)[1..] == tail;
  }

  /** Under anti-consecutive selection the random picks never repeat one
      another back to back, nor the engine's previous pick, whether or not a
      later pick fails. */
  lemma {:induction false} RandomTransitionsNeverRepeat(e: TransitionEngine, count: nat, choices: nat -> nat, k: nat)
    requires DistinctKeys(e.config.weights) && e.config.antiConsecutive
    ensures var r := RandomTransitions(e, count, choices, k);
      && (|r.picked| > 0 && e.last.Some? ==> r.picked[0] != e.last.value)
      && NoRepeat(r.picked)
    decreases count
  {
    if count > 0 {
      match SelectRandomTransition(e, choices(k))
      case None =>
      case Some((t, e1)) =>
        SelectAvoidsPrevious(e, choices(k));
        RandomTransitionsNeverRepeat(e1, count - 1, choices, k + 1);
        var rest := RandomTransitions(e1, count - 1, choices, k + 1).picked;
        NoRepeatCons(t, rest);
        assert RandomTransitions(e, count, choices, k).picked == [t] + rest;
    }
  }

  /** What a build produced, with the engine it leaves behind either way. */
  datatype Outcome<T> = Outcome(result: Result<T, ConcatError>, engine: TransitionEngine)

  /** The transitions the loop uses: the given list cut to `n - 1`, or fresh
      random picks; too short a list makes the loop index past its end. A
      failed random pick leaves the engine with the picks made before it. */
  function ChosenTransitions(e: TransitionEngine, n: nat, transitions: Option<seq<TransitionType>>, choices: nat -> nat)
    : (r: Outcome<seq<TransitionType>>)
    requires n >= 2
    ensures r.result.Success? ==> |r.result.value| == n - 1
    ensures transitions.Some? ==> r.engine == e && (r.result.Failure? <==> |transitions.value| < n - 1)
    ensures transitions.Some? && r.result.Success? ==> r.result.value == transitions.value[..n - 1]
    ensures transitions.None? ==>
      var picks := RandomTransitions(e, n - 1, choices, 0);
      && (r.result.Failure? <==> !picks.complete)
      && (r.result.Success? ==> r.result.value == picks.picked)
      && r.engine.config == e.config
      && r.engine.last == (if |picks.picked| == 0 then e.last else Some(picks.picked[|picks.picked| - 1]))
  {
    match transitions
    case Some(ts) => if |ts| < n - 1 then Outcome(Failure(TooFewTransitions), e) else Outcome(Success(ts[..n - 1]), e)
    case None =>
      var picks := RandomTransitions(e, n - 1, choices, 0);
      if picks.complete then Outcome(Success(picks.picked), picks.engine)
      else Outcome(Failure(NoTransitionAvailable), picks.engine)
  }

  /** `build_concat_with_transitions` as written. */
  function BuildConcatAsWritten(e: TransitionEngine, ds: seq<real>, transitions: Option<seq<TransitionType>>,
                                transitionDuration: Option<real>, choices: nat -> nat)
    : (r: Outcome<seq<Part>>)
    ensures |ds| < 2 ==> r == Outcome(Success([]), e)
    ensures |ds| >= 2 ==>
      && (r.result.Failure? <==> ChosenTransitions(e, |ds|, transitions, choices).result.Failure?)
      && r.engine == ChosenTransitions(e, |ds|, transitions, choices).engine
    ensures r.result.Success? ==> forall k :: 0 <= k < |r.result.value| ==> r.result.value[k].XfadePart?
  {
    if |ds| < 2 then Outcome(Success([]), e)
    else
      var chosen := ChosenTransitions(e, |ds|, transitions, choices);
      match chosen.result
      case Failure(err) => Outcome(Failure(err), chosen.engine)
      case Success(ts) =>
        var td := RealOr(transitionDuration, e.config.defaultDuration);
        Outcome(Success(ChainAsWritten(ds, ts, td, 0, 0.0)), chosen.engine)
  }

  /** With `n >= 2` clips, the written graph has one xfade per non-cut
      transition, in step order, with the offsets and labels of `StepPart`. */
  lemma AsWrittenParts(e: TransitionEngine, ds: seq<real>, transitions: Option<seq<TransitionType>>,
                       transitionDuration: Option<real>, choices: nat -> nat)
    requires |ds| >= 2 && ChosenTransitions(e, |ds|, transitions, choices).result.Success?
    ensures var ts := ChosenTransitions(e, |ds|, transitions, choices).result.value;
      var td := RealOr(transitionDuration, e.config.defaultDuration);
      var parts := BuildConcatAsWritten(e, ds, transitions, transitionDuration, choices).result.value;
      var steps := NonCutSteps(ts, 0);
      && |parts| == |steps|
      && forall k :: 0 <= k < |parts| ==> parts[k] == StepPart(ds, ts, td, steps[k])
  {
    var ts := ChosenTransitions(e, |ds|, transitions, choices).result.value;
    var td := RealOr(transitionDuration, e.config.defaultDuration);
    ChainAsWrittenShape(ds, ts, td, 0);
    assert ds[..0] == [] && ts[..0] == [];
    assert OffsetBefore(ds, ts, td, 0) == 0.0;
  }

  // ---------------------------------------------------------------------
  // Well-formed graphs

  /** Label `l` is the output of a part before position `k`. */
  predicate ProducedBefore(parts: seq<Part>, k: nat, l: Label)
    requires k <= |parts|
  {
    exists j :: 0 <= j < k && parts[j].out == l
  }

  /** Every stream a part consumes is an input clip or the output of an
      earlier part. */
  predicate WellChained(parts: seq<Part>) {
    forall k :: 0 <= k < |parts| ==>
      (parts[k].left.Link? ==> ProducedBefore(parts, k, parts[k].left))
      && (parts[k].right.Link? ==> ProducedBefore(parts, k, parts[k].right))
  }

  /** Without cuts the written graph is a proper chain. */
  lemma AsWrittenChainsWithoutCuts(ds: seq<real>, ts: seq<TransitionType>, td: real)
    requires |ts| < |ds|
    requires forall j :: 0 <= j < |ts| ==> ts[j] != Cut
    ensures WellChained(ChainAsWritten(ds, ts, td, 0, 0.0))
  {
    ChainAsWrittenShape(ds, ts, td, 0);
    assert ds[..0] == [] && ts[..0] == [];
    assert OffsetBefore(ds, ts, td, 0) == 0.0;
    var parts := ChainAsWritten(ds, ts, td, 0, 0.0);
    var steps := NonCutSteps(ts, 0);
    assert forall k :: 0 <= k < |steps| ==> steps[k] == k by {
      NoCutStepsAreAll(ts, 0);
    }
    forall k | 0 <= k < |parts| && parts[k].left.Link?
      ensures ProducedBefore(parts, k, parts[k].left)
    {
      assert parts[k - 1].out == Link(k - 1, k);
    }
  }

  lemma {:induction false} NoCutStepsAreAll(ts: seq<TransitionType>, i: nat)
    requires i <= |ts|
    requires forall j :: 0 <= j < |ts| ==> ts[j] != Cut
    ensures |NonCutSteps(ts, i)| == |ts| - i
    ensures forall k :: 0 <= k < |ts| - i ==> NonCutSteps(ts, i)[k] == i + k
    decreases |ts| - i
  {
    if i < |ts| {
      NoCutStepsAreAll(ts, i + 1);
      assert NonCutSteps(ts, i) == [i] + NonCutSteps(ts, i + 1);
    }
  }

  /** A cut followed by a transition leaves the written graph consuming a
      label nobody produces: three 3-second clips joined by a cut and then a
      fade give a single xfade that reads `[v01]`. */
  lemma AsWrittenCutDangles()
    ensures var parts := ChainAsWritten([3.0, 3.0, 3.0], [Cut, Fade], 0.5, 0, 0.0);
      && parts == [XfadePart(Link(0, 1), Input(2), Xfade("fade", 0.5, 5.5), Link(1, 2))]
      && !WellChained(parts)
  {
    var parts := ChainAsWritten([3.0, 3.0, 3.0], [Cut, Fade], 0.5, 0, 0.0);
    assert ChainAsWritten([3.0, 3.0, 3.0], [Cut, Fade], 0.5, 2, 5.5) == [];
    assert parts == [XfadePart(Link(0, 1), Input(2), Xfade("fade", 0.5, 5.5), Link(1, 2))];
    assert !ProducedBefore(parts, 0, Link(0, 1));
    assert parts[0].left.Link? && !ProducedBefore(parts, 0, parts[0].left);
    assert !WellChained(parts);
  }

  /** The corrected loop: every step emits one filter, the written loop's
      xfade at a transition and a plain concatenation of the two streams at
      a cut. */
  function Chain(ds: seq<real>, ts: seq<TransitionType>, td: real, i: nat): (r: seq<Part>)
    requires |ts| < |ds| && i <= |ts|
    ensures |r| == |ts| - i
    ensures forall k :: 0 <= k < |r| ==>
      && r[k].left == Prev(i + k) && r[k].right == Input(i + k + 1) && r[k].out == Link(i + k, i + k + 1)
      && (r[k].XfadePart? <==> ts[i + k] != Cut)
    ensures forall k :: 0 <= k < |r| && ts[i + k] != Cut ==> r[k] == StepPart(ds, ts, td, i + k)
    decreases |ts| - i
  {
    if i == |ts| then []
    else
      var part := if ts[i] == Cut then ConcatPart(Prev(i), Input(i + 1), Link(i, i + 1)) else StepPart(ds, ts, td, i);
      var rest := Chain(ds, ts, td, i + 1);
      assert forall k :: 0 < k <= |rest| ==> ([part] + rest)[k] == rest[k - 1];
      [part] + rest
  }

  /** The corrected graph is a chain over every clip: part `k` reads the
      previous part's output and clip `k + 1`, so every clip is read. */
  lemma ChainIsWellChained(ds: seq<real>, ts: seq<TransitionType>, td: real)
    requires |ts| < |ds|
    ensures var parts := Chain(ds, ts, td, 0);
      && WellChained(parts)
      && (forall k :: 0 < k < |parts| ==> parts[k].left == parts[k - 1].out)
      && (forall c :: 0 < c <= |ts| ==> parts[c - 1].right == Input(c))
      && (|parts| > 0 ==> parts[0].left == Input(0))
  {
    var parts := Chain(ds, ts, td, 0);
    assert forall k :: 0 < k < |parts| ==> parts[k].left == parts[k - 1].out;
    assert forall k :: 0 <= k < |parts| ==> parts[k].right.Input?;
    LinkedIsWellChained(parts);
  }

  /** Parts that read only clips on the right and, on the left, the
      previous part's output (the first one a clip) are well chained. */
  lemma LinkedIsWellChained(parts: seq<Part>)
    requires forall k :: 0 < k < |parts| ==> parts[k].left == parts[k - 1].out
    requires forall k :: 0 <= k < |parts| ==> parts[k].right.Input?
    requires |parts| > 0 ==> parts[0].left.Input?
    ensures WellChained(parts)
  {
    forall k | 0 <= k < |parts| && parts[k].left.Link?
      ensures ProducedBefore(parts, k, parts[k].left)
    {
      assert parts[k - 1].out == parts[k].left;
    }
  }

  /** The corrected graph keeps every filter of the written one: its
      xfades, in order, are exactly the written graph's parts. */
  lemma ChainKeepsWrittenXfades(ds: seq<real>, ts: seq<TransitionType>, td: real)
    requires |ts| < |ds|
    ensures var steps := NonCutSteps(ts, 0);
      var written := ChainAsWritten(ds, ts, td, 0, 0.0);
      && |written| == |steps|
      && forall k :: 0 <= k < |steps| ==> Chain(ds, ts, td, 0)[steps[k]] == written[k]
  {
    ChainAsWrittenShape(ds, ts, td, 0);
    assert ds[..0] == [] && ts[..0] == [];
    assert OffsetBefore(ds, ts, td, 0) == 0.0;
  }

  /** Without cuts the two loops build the same graph. */
  lemma ChainAgreesWithoutCuts(ds: seq<real>, ts: seq<TransitionType>, td: real)
    requires |ts| < |ds|
    requires forall j :: 0 <= j < |ts| ==> ts[j] != Cut
    ensures Chain(ds, ts, td, 0) == ChainAsWritten(ds, ts, td, 0, 0.0)
  {
    ChainKeepsWrittenXfades(ds, ts, td);
    NoCutStepsAreAll(ts, 0);
    var written := ChainAsWritten(ds, ts, td, 0, 0.0);
    var steps := NonCutSteps(ts, 0);
    forall k | 0 <= k < |ts|
      ensures Chain(ds, ts, td, 0)[k] == written[k]
    {
      assert steps[k] == k;
    }
  }

  /** `build_concat_with_transitions` with cuts joined by concatenation. */
  function BuildConcatWithTransitions(e: TransitionEngine, ds: seq<real>, transitions: Option<seq<TransitionType>>,
                                      transitionDuration: Option<real>, choices: nat -> nat)
    : (r: Outcome<seq<Part>>)
    ensures |ds| < 2 ==> r == Outcome(Success([]), e)
    ensures |ds| >= 2 ==>
      && (r.result.Failure? <==> ChosenTransitions(e, |ds|, transitions, choices).result.Failure?)
      && r.engine == ChosenTransitions(e, |ds|, transitions, choices).engine
    ensures r.result.Success? && |ds| >= 2 ==> |r.result.value| == |ds| - 1 && WellChained(r.result.value)
  {
    if |ds| < 2 then Outcome(Success([]), e)
    else
      var chosen := ChosenTransitions(e, |ds|, transitions, choices);
      match chosen.result
      case Failure(err) => Outcome(Failure(err), chosen.engine)
      case Success(ts) =>
        var td := RealOr(transitionDuration, e.config.defaultDuration);
        ChainIsWellChained(ds, ts, td);
        Outcome(Success(Chain(ds, ts, td, 0)), chosen.engine)
  }

  // ---------------------------------------------------------------------
  // get_transition_name

  function DisplayName(t: TransitionType): (s: string)
    ensures s != "Unknown"
  {
    match t
    case Cut => "Cut (No Transition)"
    case Fade => "Fade"
    case Dissolve => "Dissolve"
    case WipeLeft => "Wipe Left"
    case WipeRight => "Wipe Right"
    case WipeUp => "Wipe Up"
    case WipeDown => "Wipe Down"
    case SlideLeft => "Slide Left"
    case SlideRight => "Slide Right"
    case SlideUp => "Slide Up"
    case SlideDown => "Slide Down"
  }

  /** Every transition has its own name. */
  lemma DisplayNamesDistinct(a: TransitionType, b: TransitionType)
    requires DisplayName(a) == DisplayName(b)
    ensures a == b
  {
  }
}
