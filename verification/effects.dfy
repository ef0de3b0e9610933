/**
 The effects engine: an anti-consecutive weighted choice among nineteen
 effects, and the zoompan filter each one stands for. A filter is an
 abstract record — the zoom, the horizontal and vertical movement, the frame
 count and the output size — with an evaluation that gives the zoom and the
 offset from the centre at each output frame, as the FFmpeg expressions the
 engine writes would compute them.
 */
module Effects {
  import opened Common
  import opened Weighted

  datatype EffectType =
    | NoEffect | ZoomIn | ZoomOut
    | PanLeft | PanRight | PanUp | PanDown
    | KenBurns1 | KenBurns2 | KenBurns3 | KenBurns4
    | ZoomInPanRight | ZoomInPanLeft | ZoomInPanUp | ZoomInPanDown
    | ZoomOutPanRight | ZoomOutPanLeft | ZoomOutPanUp | ZoomOutPanDown

  datatype EffectConfig = EffectConfig(
    zoomInMin: real, zoomInMax: real, zoomOutMin: real, zoomOutMax: real,
    panAmount: real, effectProbability: real, antiConsecutive: bool)

  const DefaultConfig: EffectConfig := EffectConfig(1.0, 1.15, 1.15, 1.0, 0.10, 0.75, true)

  /** The engine's fixed table, in insertion order. */
  const EffectWeights: Table<EffectType> := [
    (NoEffect, 0.25), (ZoomIn, 0.15), (ZoomOut, 0.10),
    (PanLeft, 0.08), (PanRight, 0.08), (PanUp, 0.05), (PanDown, 0.05),
    (KenBurns1, 0.12), (KenBurns2, 0.12), (KenBurns3, 0.08), (KenBurns4, 0.08),
    (ZoomInPanRight, 0.06), (ZoomInPanLeft, 0.06), (ZoomInPanUp, 0.04), (ZoomInPanDown, 0.04),
    (ZoomOutPanRight, 0.04), (ZoomOutPanLeft, 0.04), (ZoomOutPanUp, 0.03), (ZoomOutPanDown, 0.03)]

  datatype EffectsEngine = EffectsEngine(config: EffectConfig, last: Option<EffectType>)

  // ---------------------------------------------------------------------
  // select_random_effect

  /** Where each effect sits in the table. */
  function TableIndex(t: EffectType): (i: nat)
    ensures i < |EffectWeights| && EffectWeights[i].0 == t
  {
    match t
    case NoEffect => 0 case ZoomIn => 1 case ZoomOut => 2
    case PanLeft => 3 case PanRight => 4 case PanUp => 5 case PanDown => 6
    case KenBurns1 => 7 case KenBurns2 => 8 case KenBurns3 => 9 case KenBurns4 => 10
    case ZoomInPanRight => 11 case ZoomInPanLeft => 12 case ZoomInPanUp => 13 case ZoomInPanDown => 14
    case ZoomOutPanRight => 15 case ZoomOutPanLeft => 16 case ZoomOutPanUp => 17 case ZoomOutPanDown => 18
  }

  lemma WeightsDistinct()
    ensures DistinctKeys(EffectWeights)
  {
    var w := EffectWeights;
    forall i | 0 <= i < |w|
      ensures TableIndex(w[i].0) == i
    {
    }
  }

  /** Every effect is in the table with a positive weight. */
  lemma EveryEffectWeighs(t: EffectType)
    ensures Weighs(EffectWeights, t)
  {
    var i := TableIndex(t);
    assert EffectWeights[i].1 > 0.0;
  }

  /** The effects a pick can return: every one but the previous effect under
      anti-consecutive selection. */
  lemma CandidatesAreAllButLast(anti: bool, last: Option<EffectType>, t: EffectType)
    ensures t in Candidates(EffectWeights, anti, last) <==> !(anti && last == Some(t))
  {
    WeightsDistinct();
    EveryEffectWeighs(t);
    CandidatesExact(EffectWeights, anti, last, t);
  }

  /** One weighted pick, which becomes the last effect. The fixed table
      always leaves a candidate, so the pick never fails. */
  function SelectRandomEffect(e: EffectsEngine, choice: nat): (r: (EffectType, EffectsEngine))
    ensures r.0 in Candidates(EffectWeights, e.config.antiConsecutive, e.last)
    ensures r.1 == e.(last := Some(r.0))
  {
    var other := if e.last == Some(NoEffect) then ZoomIn else NoEffect;
    CandidatesAreAllButLast(e.config.antiConsecutive, e.last, other);
    var t := Pick(EffectWeights, e.config.antiConsecutive, e.last, choice).value;
    (t, e.(last := Some(t)))
  }

  /** Under anti-consecutive selection the pick is never the previous
      effect, and every other effect is a possible pick. */
  lemma SelectEffectSupport(e: EffectsEngine, t: EffectType)
    ensures (exists choice: nat :: SelectRandomEffect(e, choice).0 == t)
      <==> !(e.config.antiConsecutive && e.last == Some(t))
  {
    CandidatesAreAllButLast(e.config.antiConsecutive, e.last, t);
    if !(e.config.antiConsecutive && e.last == Some(t)) {
      PickCovers(EffectWeights, e.config.antiConsecutive, e.last, t);
      var choice: nat :| Pick(EffectWeights, e.config.antiConsecutive, e.last, choice) == Some(t);
      assert SelectRandomEffect(e, choice).0 == t;
    }
  }

  // ---------------------------------------------------------------------
  // generate_filter

  /** The zoom expression: constant, or a linear ramp over the clip. */
  datatype Zoom = FixedZoom(level: real) | ZoomRamp(from: real, to: real)

  /** Movement along one axis, as a fraction of the input size: none, from
      `-amount` to `+amount`, or from `+amount` to `-amount`. */
  datatype Axis = Centered | Rising(amount: real) | Falling(amount: real)

  datatype ZoomPan = ZoomPan(zoom: Zoom, x: Axis, y: Axis, frames: int, width: int, height: int, fps: int)

  datatype Direction = Left | Right | Up | Down

  /** The zoom at output frame `on`. */
  function ZoomAt(z: Zoom, on: real, frames: real): real
    requires frames != 0.0
  {
    match z
    case FixedZoom(level) => level
    case ZoomRamp(from, to) => from + (to - from) * on / frames
  }

  /** The offset from the centre position at output frame `on`, for an input
      `size` pixels wide. */
  function OffsetAt(a: Axis, size: real, on: real, frames: real): real
    requires frames != 0.0
  {
    match a
    case Centered => 0.0
    case Rising(amount) => amount * size * (2.0 * on / frames - 1.0)
    case Falling(amount) => amount * size * (1.0 - 2.0 * on / frames)
  }

  /** `_pan_filter` and the pan half of `_ken_burns_filter`: left and right
      move along x, up and down along y; left and up start at `+pan`. */
  function PanAxes(pan: real, d: Direction): (xy: (Axis, Axis))
    ensures d in {Left, Right} ==> xy.1 == Centered && xy.0 != Centered
    ensures d in {Up, Down} ==> xy.0 == Centered && xy.1 != Centered
  {
    match d
    case Left => (Falling(pan), Centered)
    case Right => (Rising(pan), Centered)
    case Up => (Centered, Falling(pan))
    case Down => (Centered, Rising(pan))
  }

  /** The zoom ramp of `_zoom_in_filter` or `_zoom_out_filter`. */
  function Ramp(c: EffectConfig, zoomIn: bool): Zoom {
    if zoomIn then ZoomRamp(c.zoomInMin, c.zoomInMax) else ZoomRamp(c.zoomOutMin, c.zoomOutMax)
  }

  /** The zoom and pan of each effect, none for `NONE`. */
  function Motion(c: EffectConfig, effect: EffectType): (r: Option<(Zoom, Direction)>)
    ensures r.None? <==> effect in {NoEffect, ZoomIn, ZoomOut, PanLeft, PanRight, PanUp, PanDown}
  {
    match effect
    case KenBurns1 => Some((Ramp(c, true), Right))
    case KenBurns2 => Some((Ramp(c, true), Left))
    case KenBurns3 => Some((Ramp(c, false), Right))
    case KenBurns4 => Some((Ramp(c, false), Left))
    case ZoomInPanRight => Some((Ramp(c, true), Right))
    case ZoomInPanLeft => Some((Ramp(c, true), Left))
    case ZoomInPanUp => Some((Ramp(c, true), Up))
    case ZoomInPanDown => Some((Ramp(c, true), Down))
    case ZoomOutPanRight => Some((Ramp(c, false), Right))
    case ZoomOutPanLeft => Some((Ramp(c, false), Left))
    case ZoomOutPanUp => Some((Ramp(c, false), Up))
    case ZoomOutPanDown => Some((Ramp(c, false), Down))
    case _ => None
  }

  /** `generate_filter`: no filter for `NONE`; otherwise a zoompan over
      `int(duration * fps)` frames at the requested size and rate. */
  function GenerateFilter(e: EffectsEngine, effect: EffectType, width: int, height: int, duration: real, fps: int)
    : (r: Option<ZoomPan>)
    ensures r.None? <==> effect == NoEffect
    ensures r.Some? ==> r.value.frames == Trunc(duration * fps as real)
    ensures r.Some? ==> r.value.width == width && r.value.height == height && r.value.fps == fps
  {
    var frames := Trunc(duration * fps as real);
    var c := e.config;
    match effect
    case NoEffect => None
    case ZoomIn => Some(ZoomPan(Ramp(c, true), Centered, Centered, frames, width, height, fps))
    case ZoomOut => Some(ZoomPan(Ramp(c, false), Centered, Centered, frames, width, height, fps))
    case PanLeft => var xy := PanAxes(c.panAmount, Left); Some(ZoomPan(FixedZoom(1.0), xy.0, xy.1, frames, width, height, fps))
    case PanRight => var xy := PanAxes(c.panAmount, Right); Some(ZoomPan(FixedZoom(1.0), xy.0, xy.1, frames, width, height, fps))
    case PanUp => var xy := PanAxes(c.panAmount, Up); Some(ZoomPan(FixedZoom(1.0), xy.0, xy.1, frames, width, height, fps))
    case PanDown => var xy := PanAxes(c.panAmount, Down); Some(ZoomPan(FixedZoom(1.0), xy.0, xy.1, frames, width, height, fps))
    case _ =>
      var m := Motion(c, effect).value;
      var xy := PanAxes(c.panAmount, m.1);
      Some(ZoomPan(m.0, xy.0, xy.1, frames, width, height, fps))
  }

  /** The four Ken Burns effects are the zoom-in and zoom-out pans right and left. */
  lemma KenBurnsAliases(e: EffectsEngine, width: int, height: int, duration: real, fps: int)
    ensures GenerateFilter(e, KenBurns1, width, height, duration, fps) == GenerateFilter(e, ZoomInPanRight, width, height, duration, fps)
    ensures GenerateFilter(e, KenBurns2, width, height, duration, fps) == GenerateFilter(e, ZoomInPanLeft, width, height, duration, fps)
    ensures GenerateFilter(e, KenBurns3, width, height, duration, fps) == GenerateFilter(e, ZoomOutPanRight, width, height, duration, fps)
    ensures GenerateFilter(e, KenBurns4, width, height, duration, fps) == GenerateFilter(e, ZoomOutPanLeft, width, height, duration, fps)
  {
    var c := e.config;
    assert Motion(c, KenBurns1) == Motion(c, ZoomInPanRight);
    assert Motion(c, KenBurns2) == Motion(c, ZoomInPanLeft);
    assert Motion(c, KenBurns3) == Motion(c, ZoomOutPanRight);
    assert Motion(c, KenBurns4) == Motion(c, ZoomOutPanLeft);
  }

  /** A pure pan holds the zoom at 1 and moves along one axis only, by the
      configured amount, in the direction its name says. */
  lemma PanMovesOneAxis(e: EffectsEngine, d: Direction, width: int, height: int, duration: real, fps: int)
    ensures var effect := match d case Left => PanLeft case Right => PanRight case Up => PanUp case Down => PanDown;
      var f := GenerateFilter(e, effect, width, height, duration, fps).value;
      var pan := e.config.panAmount;
      && f.zoom == FixedZoom(1.0)
      && (d == Left ==> f.x == Falling(pan) && f.y == Centered)
      && (d == Right ==> f.x == Rising(pan) && f.y == Centered)
      && (d == Up ==> f.x == Centered && f.y == Falling(pan))
      && (d == Down ==> f.x == Centered && f.y == Rising(pan))
  {
  }

  /** The zoom of a ramp starts at its first value and ends at its second. */
  lemma RampEndpoints(from: real, to: real, frames: real)
    requires frames != 0.0
    ensures ZoomAt(ZoomRamp(from, to), 0.0, frames) == from
    ensures ZoomAt(ZoomRamp(from, to), frames, frames) == to
  {
    DivMul((to - from) * frames, frames);
    assert (to - from) * frames / frames == to - from;
  }

  /** A moving axis sweeps from one side of the centre to the other: a
      rising one from `-amount * size` to `+amount * size`, a falling one the
      other way. */
  lemma AxisEndpoints(a: Axis, size: real, frames: real)
    requires frames != 0.0 && a != Centered
    ensures a.Rising? ==>
      OffsetAt(a, size, 0.0, frames) == -a.amount * size && OffsetAt(a, size, frames, frames) == a.amount * size
    ensures a.Falling? ==>
      OffsetAt(a, size, 0.0, frames) == a.amount * size && OffsetAt(a, size, frames, frames) == -a.amount * size
  {
    assert 2.0 * frames / frames == 2.0;
  }

  const ZoomingIn: set<EffectType> :=
    {ZoomIn, KenBurns1, KenBurns2, ZoomInPanRight, ZoomInPanLeft, ZoomInPanUp, ZoomInPanDown}
  const ZoomingOut: set<EffectType> :=
    {ZoomOut, KenBurns3, KenBurns4, ZoomOutPanRight, ZoomOutPanLeft, ZoomOutPanUp, ZoomOutPanDown}

  /** Every effect with zoom in its name ramps between the configured zoom-in
      or zoom-out bounds, and every other effect but `NONE` holds the zoom. */
  lemma ZoomOfEffect(e: EffectsEngine, effect: EffectType, width: int, height: int, duration: real, fps: int)
    requires effect != NoEffect
    ensures var f := GenerateFilter(e, effect, width, height, duration, fps).value;
      var c := e.config;
      && (effect in ZoomingIn ==> f.zoom == ZoomRamp(c.zoomInMin, c.zoomInMax))
      && (effect in ZoomingOut ==> f.zoom == ZoomRamp(c.zoomOutMin, c.zoomOutMax))
      && (effect in {PanLeft, PanRight, PanUp, PanDown} ==> f.zoom == FixedZoom(1.0))
  {
  }

  // ---------------------------------------------------------------------
  // get_effect_name

  function EffectName(effect: EffectType): (s: string)
    ensures s != "Unknown"
  {
    match effect
    case NoEffect => "None"
    case ZoomIn => "Zoom In"
    case ZoomOut => "Zoom Out"
    case PanLeft => "Pan Left"
    case PanRight => "Pan Right"
    case PanUp => "Pan Up"
    case PanDown => "Pan Down"
    case KenBurns1 => "Ken Burns (Zoom In + Pan Right)"
    case KenBurns2 => "Ken Burns (Zoom In + Pan Left)"
    case KenBurns3 => "Ken Burns (Zoom Out + Pan Right)"
    case KenBurns4 => "Ken Burns (Zoom Out + Pan Left)"
    case ZoomInPanRight => "Zoom In + Pan Right"
    case ZoomInPanLeft => "Zoom In + Pan Left"
    case ZoomInPanUp => "Zoom In + Pan Up"
    case ZoomInPanDown => "Zoom In + Pan Down"
    case ZoomOutPanRight => "Zoom Out + Pan Right"
    case ZoomOutPanLeft => "Zoom Out + Pan Left"
    case ZoomOutPanUp => "Zoom Out + Pan Up"
    case ZoomOutPanDown => "Zoom Out + Pan Down"
  }

  /** Every effect has its own name. */
  lemma EffectNamesDistinct(a: EffectType, b: EffectType)
    requires EffectName(a) == EffectName(b)
    ensures a == b
  {
  }
}
