/**
 * The state logic of one `draw()` call: capturing or clearing the reference
 * snapshot, adjusting the brush in the "lc", "hue" and "size" modes, and
 * deciding what the selected tool paints in "draw" mode.
 */
module Frame {
  import opened Options
  import opened Menu
  import opened Gesture
  import opened Mapping
  import opened Stamp

  /** The brush settings `brushHue`, `brushVar`, `brushChroma`, `brushLuminance`, `brushSize`. */
  datatype BrushState = BrushState(hue: real, variation: real, chroma: real, luminance: real, size: real)

  /** The initial brush: hue 0, variation 80, chroma 0.2, luminance 0.7, size 200. */
  const InitialBrush: BrushState := BrushState(0.0, 80.0, 0.2, 0.7, 200.0)

  /** Every brush setting lies in the range its control spans. */
  predicate BrushInRange(b: BrushState) {
    0.0 <= b.hue < 360.0 && 0.0 <= b.variation <= 360.0 &&
    0.0 <= b.chroma <= 0.5 && 0.0 <= b.luminance <= 1.0 && 4.0 <= b.size <= 600.0
  }

  /** The reference snapshot `refX`, `refY`, `refHue`, `refVar`, `refChroma`, `refLuminance`, `refSize`. */
  datatype RefState = RefState(
    refX: Option<real>, refY: Option<real>,
    refHue: Option<real>, refVar: Option<real>, refChroma: Option<real>,
    refLuminance: Option<real>, refSize: Option<real>)

  const NoRefs: RefState := RefState(None, None, None, None, None, None, None)

  predicate Complete(r: RefState) {
    r.refX.Some? && r.refY.Some? && r.refHue.Some? && r.refVar.Some? &&
    r.refChroma.Some? && r.refLuminance.Some? && r.refSize.Some?
  }

  /** A lazily captured field: kept once defined, otherwise taken from the current value. */
  function Capture(field: Option<real>, current: real): (r: Option<real>)
    ensures r.Some?
    ensures field.Some? ==> r == field
    ensures field.None? ==> r.value == current
  {
    if field.Some? then field else Some(current)
  }

  /**
   * The snapshot at the start of a frame: in an adjustment mode each
   * undefined field is captured from the pen or the brush; in "draw" mode
   * every field becomes undefined.
   */
  function UpdateReference(mode: Mode, refs: RefState, s: InputState, b: BrushState): (r: RefState)
    ensures mode == DrawMode ==> r == NoRefs
    ensures mode != DrawMode ==> Complete(r)
    ensures mode != DrawMode && Complete(refs) ==> r == refs
    ensures mode != DrawMode && refs == NoRefs ==>
      r == RefState(Some(s.penX), Some(s.penY), Some(b.hue), Some(b.variation),
                    Some(b.chroma), Some(b.luminance), Some(b.size))
  {
    if mode == DrawMode then NoRefs
    else RefState(
      Capture(refs.refX, s.penX), Capture(refs.refY, s.penY),
      Capture(refs.refHue, b.hue), Capture(refs.refVar, b.variation),
      Capture(refs.refChroma, b.chroma), Capture(refs.refLuminance, b.luminance),
      Capture(refs.refSize, b.size))
  }

  /** Touch input with a recorded pen start point anchors the gadgets there (`penMode`). */
  predicate PenMode(useMouse: bool, s: InputState) {
    !useMouse && s.penStartX.Some? && s.penStartY.Some?
  }

  /** The point the pointer's travel is measured from: the pen start point in pen mode, else the reference point. */
  function Anchor(useMouse: bool, s: InputState, refs: RefState): (a: (real, real))
    requires Complete(refs)
    ensures PenMode(useMouse, s) ==> a == (s.penStartX.value, s.penStartY.value)
    ensures !PenMode(useMouse, s) ==> a == (refs.refX.value, refs.refY.value)
  {
    if PenMode(useMouse, s) then (s.penStartX.value, s.penStartY.value)
    else (refs.refX.value, refs.refY.value)
  }

  /**
   * What `atan2` and `dist` report about the pen relative to the hue
   * gadget's centre: the angle in degrees and the distance.
   */
  datatype HueProbe = HueProbe(angleDeg: real, distance: real)

  /** The brush after one frame of an adjustment mode; the `gadgetRadius` is `radius`. */
  function Adjust(mode: Mode, useMouse: bool, s: InputState, refs: RefState, b: BrushState,
                  radius: real, probe: HueProbe): (r: BrushState)
    requires radius > 0.0 && Complete(refs)
    ensures mode == LcMode ==> r == b.(chroma := r.chroma, luminance := r.luminance)
    ensures mode == HueMode ==> r == b.(hue := r.hue, variation := r.variation)
    ensures mode == SizeMode ==> r == b.(size := r.size)
    ensures mode == DrawMode ==> r == b
    ensures BrushInRange(b) ==> BrushInRange(r)
  {
    var anchor := Anchor(useMouse, s, refs);
    match mode
    case LcMode =>
      b.(chroma := ChromaFromDelta(s.penX - anchor.0, radius * 2.0, refs.refChroma.value),
         luminance := LuminanceFromDelta(s.penY - anchor.1, radius * 2.0, refs.refLuminance.value))
    case HueMode =>
      b.(hue := HueFromAngle(probe.angleDeg), variation := VarFromDistance(probe.distance, radius))
    case SizeMode =>
      b.(size := SizeFromDelta(s.penY - anchor.1, radius * 2.0, refs.refSize.value))
    case DrawMode => b
  }

  /**
   * The gadgets follow the pen: from the same anchor, moving the pen right
   * never lowers the chroma, and moving it up never darkens or shrinks the
   * brush.
   */
  lemma AdjustFollowsPen(mode: Mode, useMouse: bool, s: InputState, x: real, y: real, refs: RefState,
                         b: BrushState, radius: real, probe: HueProbe)
    requires radius > 0.0 && Complete(refs)
    ensures var r1 := Adjust(mode, useMouse, s, refs, b, radius, probe);
      var r2 := Adjust(mode, useMouse, s.(penX := x, penY := y), refs, b, radius, probe);
      (mode == LcMode && s.penX <= x ==> r1.chroma <= r2.chroma) &&
      (mode == LcMode && y <= s.penY ==> r1.luminance <= r2.luminance) &&
      (mode == SizeMode && y <= s.penY ==> r1.size <= r2.size)
  {
    var a := Anchor(useMouse, s, refs);
    assert Anchor(useMouse, s.(penX := x, penY := y), refs) == a;
    if mode == LcMode {
      if s.penX <= x {
        ChromaMonotone(s.penX - a.0, x - a.0, radius * 2.0, refs.refChroma.value);
      }
      if y <= s.penY {
        LuminanceMonotone(y - a.1, s.penY - a.1, radius * 2.0, refs.refLuminance.value);
      }
    } else if mode == SizeMode {
      if y <= s.penY {
        SizeMonotone(y - a.1, s.penY - a.1, radius * 2.0, refs.refSize.value);
      }
    }
  }

  /**
   * What one frame paints on the canvas. A stamp's colour seed is `x + y`;
   * a line's colour seed is the product of the two factors it records
   * (undefined when a factor is).
   */
  datatype Mark =
    | NoMark
    | StampMark(x: real, y: real, shape: StampShape, stampSeed: real)
    | LineMark(seedFactors: Option<(real, real)>, segment: Option<Segment>)

  /**
   * The tool dispatch of "draw" mode, with `easedSize` the eased brush size:
   * the stamp tool stamps at the pen while it is down, the fan line tool
   * draws from the start point to the pen while it is down, and the line
   * tool draws that line once, on the frame the pen is lifted.
   */
  function Emit(s: InputState, easedSize: real): (m: Mark)
    ensures m.StampMark? <==> s.menu.tool == StampTool && s.penDown
    ensures m.LineMark? <==>
      (s.menu.tool == FanLineTool && s.penDown) || (s.menu.tool == LineTool && s.wasDown && !s.penDown)
    ensures m.StampMark? ==> (m.x, m.y) == (s.penX, s.penY) &&
                             m.shape == DrawStamp(easedSize, s.penAngle, s.penPressure, s.menu.texture)
    ensures m.LineMark? ==>
      m.segment == LineSegment(s.penStartX, s.penStartY, Some(s.penX), Some(s.penY), easedSize)
  {
    if s.menu.tool == StampTool && s.penDown then
      StampMark(s.penX, s.penY, DrawStamp(easedSize, s.penAngle, s.penPressure, s.menu.texture), s.penX + s.penY)
    else if s.menu.tool == FanLineTool && s.penDown then
      LineMark(Some((s.penY, s.penX)),
               LineSegment(s.penStartX, s.penStartY, Some(s.penX), Some(s.penY), easedSize))
    else if s.menu.tool == LineTool && s.wasDown && !s.penDown then
      LineMark(if s.penStartX.Some? && s.penStartY.Some? then Some((s.penStartX.value, s.penStartY.value)) else None,
               LineSegment(s.penStartX, s.penStartY, Some(s.penX), Some(s.penY), easedSize))
    else NoMark
  }

  datatype FrameResult = FrameResult(brush: BrushState, refs: RefState, mark: Mark)

  /** One `draw()`: the snapshot first, then painting in "draw" mode or adjusting otherwise. */
  function FrameStep(keys: Keys, s: InputState, useMouse: bool, b: BrushState, refs: RefState,
                     radius: real, probe: HueProbe, ease: real -> real): (f: FrameResult)
    requires radius > 0.0
    ensures var mode := InputMode(keys, s.peakCount, s.fingersDown);
      (mode == DrawMode ==> f.brush == b && f.refs == NoRefs && f.mark == Emit(s, ease(b.size))) &&
      (mode != DrawMode ==> f.mark == NoMark && Complete(f.refs))
    ensures BrushInRange(b) ==> BrushInRange(f.brush)
  {
    var mode := InputMode(keys, s.peakCount, s.fingersDown);
    var refs' := UpdateReference(mode, refs, s, b);
    if mode == DrawMode then FrameResult(b, refs', Emit(s, ease(b.size)))
    else FrameResult(Adjust(mode, useMouse, s, refs', b, radius, probe), refs', NoMark)
  }

  // ---------------------------------------------------------------- properties

  /**
   * Within one adjustment session the snapshot is never overwritten: a
   * second frame in any adjustment mode keeps the first frame's snapshot,
   * however the pen and the brush changed in between.
   */
  lemma SnapshotStable(keys1: Keys, s1: InputState, keys2: Keys, s2: InputState, useMouse: bool,
                       b: BrushState, refs: RefState, radius: real, probe1: HueProbe, probe2: HueProbe,
                       ease: real -> real)
    requires radius > 0.0
    requires InputMode(keys1, s1.peakCount, s1.fingersDown) != DrawMode
    requires InputMode(keys2, s2.peakCount, s2.fingersDown) != DrawMode
    ensures var f1 := FrameStep(keys1, s1, useMouse, b, refs, radius, probe1, ease);
      var f2 := FrameStep(keys2, s2, useMouse, f1.brush, f1.refs, radius, probe2, ease);
      f2.refs == f1.refs
  {
  }

  /**
   * Entering the "lc" or "size" mode with the mouse does not jump: the first
   * frame captures the pen as the reference point, the travel is zero, and
   * the brush stays as it was.
   */
  lemma FirstFrameAtRest(keys: Keys, s: InputState, b: BrushState, radius: real, probe: HueProbe,
                         ease: real -> real)
    requires radius > 0.0 && BrushInRange(b)
    requires InputMode(keys, s.peakCount, s.fingersDown) in {LcMode, SizeMode}
    ensures FrameStep(keys, s, true, b, NoRefs, radius, probe, ease).brush == b
  {
    var mode := InputMode(keys, s.peakCount, s.fingersDown);
    var refs := UpdateReference(mode, NoRefs, s, b);
    assert Anchor(true, s, refs) == (s.penX, s.penY);
    if mode == LcMode {
      ChromaAtRest(radius * 2.0, b.chroma);
      LuminanceAtRest(radius * 2.0, b.luminance);
      assert s.penX - s.penX == 0.0 && s.penY - s.penY == 0.0;
    } else {
      SizeAtRest(radius * 2.0, b.size);
      assert s.penY - s.penY == 0.0;
    }
  }

  /**
   * Entering the "hue" mode does not jump either, below full variation: the
   * gadget's centre is placed so that the anchor reads back the brush's hue
   * and variation.
   */
  lemma HueFirstFrameAtRest(keys: Keys, s: InputState, useMouse: bool, b: BrushState, radius: real,
                            probe: HueProbe, ease: real -> real)
    requires radius > 0.0 && BrushInRange(b) && b.variation < 360.0
    requires InputMode(keys, s.peakCount, s.fingersDown) == HueMode
    requires -180.0 <= probe.angleDeg <= 180.0
    requires probe.angleDeg == b.hue - 90.0 || probe.angleDeg == b.hue - 450.0
    requires probe.distance == StartRadius(b.variation, radius)
    ensures FrameStep(keys, s, useMouse, b, NoRefs, radius, probe, ease).brush == b
  {
    HueRoundTrip(b.hue, probe.angleDeg);
    VarRoundTrip(b.variation, radius);
  }

  /**
   * At full variation the start radius is 0, so the centre sits on the
   * anchor; `atan2(0, 0)` is 0 and `dist` is 0 there, and the first frame
   * turns the hue to 90 whatever it was.
   */
  lemma HueJumpAtFullVariation(keys: Keys, s: InputState, useMouse: bool, b: BrushState, radius: real,
                               ease: real -> real)
    requires radius > 0.0 && b.variation == 360.0
    requires InputMode(keys, s.peakCount, s.fingersDown) == HueMode
    ensures StartRadius(b.variation, radius) == 0.0
    ensures FrameStep(keys, s, useMouse, b, NoRefs, radius, HueProbe(0.0, 0.0), ease).brush == b.(hue := 90.0)
  {
  }

  /**
   * The line tool paints a line only on the frame after the event that
   * lifted the pen, and the next pointer or touch event, which runs
   * `updateInput` first, cannot paint it again.
   */
  lemma LineOncePerLift(s: InputState, kind: Events.EventKind, mouseX: Option<real>, mouseY: Option<real>,
                        useMouse: bool, touches: seq<Touches.Touch>, easedSize: real,
                        kind2: Events.EventKind, mouseX2: Option<real>, mouseY2: Option<real>,
                        useMouse2: bool, touches2: seq<Touches.Touch>, easedSize2: real)
    ensures var s1 := StepInput(s, kind, mouseX, mouseY, useMouse, touches);
      s1.menu.tool == LineTool && Emit(s1, easedSize).LineMark? ==> s.penDown && !s1.penDown
    ensures var s1 := StepInput(s, kind, mouseX, mouseY, useMouse, touches);
      var s2 := StepInput(s1, kind2, mouseX2, mouseY2, useMouse2, touches2);
      s1.menu.tool == LineTool && Emit(s1, easedSize).LineMark? && s2.menu.tool == LineTool ==>
        !Emit(s2, easedSize2).LineMark?
  {
  }

  /**
   * A redraw that skips `updateInput` (a key press or release, a resize)
   * paints the line of a line-tool lift once more: in "draw" mode a frame on
   * the same input state, with a brush of the same size, paints the same line.
   */
  lemma RedrawRepaintsLine(keys: Keys, s: InputState, useMouse: bool, b: BrushState, refs: RefState,
                           b2: BrushState, refs2: RefState, radius: real, probe: HueProbe, ease: real -> real)
    requires radius > 0.0
    requires s.menu.tool == LineTool && s.wasDown && !s.penDown
    requires InputMode(keys, s.peakCount, s.fingersDown) == DrawMode
    requires b2.size == b.size
    ensures var f1 := FrameStep(keys, s, useMouse, b, refs, radius, probe, ease);
      var f2 := FrameStep(keys, s, useMouse, b2, refs2, radius, probe, ease);
      f1.mark.LineMark? && f2.mark == f1.mark
  {
  }
}
