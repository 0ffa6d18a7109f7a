/**
 * The sketch's global state and its event handlers, as a class whose
 * methods update the fields step by step the way the handlers update the
 * globals. Each method is proved to follow the specification functions of
 * the other modules.
 */
module Sketch {
  import opened Options
  import opened Numeric
  import opened Events
  import opened Touches
  import opened Menu
  import opened Gesture
  import opened Mapping
  import opened Stamp
  import opened Frame

  class Sketch {
    // the background colour
    var bgHue: real
    var bgChroma: real
    var bgLuminance: real

    /** The reference snapshot `refX` ... `refSize`. */
    var refs: RefState
    const gadgetRadius: real

    /** The brush settings `brushHue` ... `brushSize`. */
    var brush: BrushState

    /**
     * The globals `updateInput` works on: the menu (`toolMenuOpened`,
     * `brushTool`, `texture`), the pen, `fingersDown` and `fingerState`.
     */
    var input: InputState

    /** The noise table drawn once at setup. */
    const varStrengths: seq<real>

    var visited: bool
    var useMouse: bool
    var ongoingTouches: seq<Touch>

    predicate Valid()
      reads this`brush, this`input
    {
      |varStrengths| == NoiseLength &&
      (forall i :: 0 <= i < |varStrengths| ==> 0.0 <= varStrengths[i] <= 1.0) &&
      gadgetRadius > 0.0 &&
      BrushInRange(brush) && GestureInv(input)
    }

    /**
     * `setup()` followed by its closing `draw()`: the pen at the canvas
     * centre, the gadget radius an eighth of the shorter side, the initial
     * brush and tool, no touches, and (that first frame being in "draw"
     * mode) no snapshot.
     */
    constructor (width: real, height: real, noise: seq<real>)
      requires width > 0.0 && height > 0.0
      requires |noise| == NoiseLength && forall i :: 0 <= i < |noise| ==> 0.0 <= noise[i] <= 1.0
      ensures Valid()
      ensures gadgetRadius == Min(width, height) / 8.0 && varStrengths == noise
      ensures brush == InitialBrush && refs == NoRefs
      ensures input == InputState(InitialMenu, false, false, 0, width / 2.0, height / 2.0,
                                  None, None, None, None, 0, false)
      ensures (bgHue, bgChroma, bgLuminance) == (0.0, 0.0, 0.8)
      ensures ongoingTouches == [] && !visited && !useMouse
    {
      bgHue, bgChroma, bgLuminance := 0.0, 0.0, 0.8;
      brush := InitialBrush;
      visited, useMouse := false, false;
      ongoingTouches := [];
      gadgetRadius := Min(width, height) / 8.0;
      input := InputState(InitialMenu, false, false, 0, width / 2.0, height / 2.0,
                          None, None, None, None, 0, false);
      varStrengths := noise;
      refs := NoRefs;
    }

    // ------------------------------------------------------------ touch registry

    /** `ongoingTouchIndexById`: the first record with the identifier, or -1. */
    method OngoingTouchIndexById(idToFind: int) returns (idx: int)
      ensures -1 <= idx < |ongoingTouches|
      ensures 0 <= idx ==> ongoingTouches[idx].identifier == idToFind &&
                           forall j :: 0 <= j < idx ==> ongoingTouches[j].identifier != idToFind
      ensures idx == -1 <==> forall j :: 0 <= j < |ongoingTouches| ==> ongoingTouches[j].identifier != idToFind
      ensures idx == IndexById(ongoingTouches, idToFind)
    {
      var i := 0;
      while i < |ongoingTouches|
        invariant 0 <= i <= |ongoingTouches|
        invariant forall j :: 0 <= j < i ==> ongoingTouches[j].identifier != idToFind
      {
        if ongoingTouches[i].identifier == idToFind {
          return i;
        }
        i := i + 1;
      }
      return -1;
    }

    /** The registry part of `handleTouchStart`: a copy of each changed touch is pushed. */
    method RecordTouchStart(changed: seq<RawTouch>)
      modifies this`ongoingTouches
      ensures ongoingTouches == AppendAll(old(ongoingTouches), changed)
    {
      var i := 0;
      while i < |changed|
        invariant 0 <= i <= |changed|
        invariant ongoingTouches == old(ongoingTouches) + Copies(changed[..i])
      {
        assert Copies(changed[..i + 1]) == Copies(changed[..i]) + [CopyTouch(changed[i])];
        ongoingTouches := ongoingTouches + [CopyTouch(changed[i])];
        i := i + 1;
      }
      assert changed[..i] == changed;
    }

    /** The registry part of `handleTouchMove`: each registered record is swapped for its new copy. */
    method RecordTouchMove(changed: seq<RawTouch>)
      modifies this`ongoingTouches
      ensures ongoingTouches == ReplaceAll(old(ongoingTouches), changed)
      ensures |ongoingTouches| == |old(ongoingTouches)| && Ids(ongoingTouches) == Ids(old(ongoingTouches))
    {
      hide *;
      NothingHandled(ongoingTouches, changed);
      var i := 0;
      while i < |changed|
        invariant 0 <= i <= |changed|
        invariant ongoingTouches == ReplaceAll(old(ongoingTouches), changed[..i])
      {
        var touch := changed[i];
        var idx := OngoingTouchIndexById(touch.identifier);
        ReplaceAllStep(old(ongoingTouches), changed, i);
        if idx >= 0 {
          assert ongoingTouches[..idx] + [CopyTouch(touch)] + ongoingTouches[idx + 1..]
              == ongoingTouches[idx := CopyTouch(touch)];
          ongoingTouches := ongoingTouches[..idx] + [CopyTouch(touch)] + ongoingTouches[idx + 1..];
        }
        i := i + 1;
      }
      assert changed[..i] == changed;
      ReplaceAllKeepsIds(old(ongoingTouches), changed);
    }

    /**
     * The registry part of `handleTouchEnd`: each changed touch splices out
     * the record at its index (the last record when it is not registered),
     * and the registry is emptied when no contact remains.
     */
    method RecordTouchEnd(changed: seq<RawTouch>, remaining: nat)
      modifies this`ongoingTouches
      ensures ongoingTouches == if remaining == 0 then [] else RemoveAll(old(ongoingTouches), changed)
    {
      hide *;
      NothingHandled(ongoingTouches, changed);
      var i := 0;
      while i < |changed|
        invariant 0 <= i <= |changed|
        invariant ongoingTouches == RemoveAll(old(ongoingTouches), changed[..i])
      {
        var idx := OngoingTouchIndexById(changed[i].identifier);
        RemoveAllStep(old(ongoingTouches), changed, i);
        Splice1At(ongoingTouches, idx);
        if idx >= 0 {
          ongoingTouches := ongoingTouches[..idx] + ongoingTouches[idx + 1..];
        } else if |ongoingTouches| > 0 {
          ongoingTouches := ongoingTouches[..|ongoingTouches| - 1];
        }
        i := i + 1;
      }
      assert changed[..i] == changed;
      if remaining == 0 {
        ongoingTouches := [];
      }
    }

    // ------------------------------------------------------------ updateInput

    /** The `inMenu` closure's effect for a point inside the hit area. */
    method PressMenuAt(kind: EventKind, y: real, openAtStart: bool)
      requires y < MenuH(openAtStart)
      modifies this`input
      ensures input == old(input).(menu := PressMenu(old(input.menu), kind, y, openAtStart))
    {
      if IsPress(kind) {
        var spot := MenuSpot(y);
        if spot >= 0 {
          SpotInRange(y, openAtStart);
          input := input.(menu := input.menu.(tool := ToolPresets[spot].brush));
          input := input.(menu := input.menu.(texture := ToolPresets[spot].texture));
        } else {
          input := input.(menu := input.menu.(menuOpened := !input.menu.menuOpened));
        }
      }
    }

    /** The four rules at the end of `updateInput`, tried in order. */
    method ApplyFingerRules(kind: EventKind)
      modifies this`input
      ensures input == FingerRules(old(input), kind, |ongoingTouches|)
    {
      // pen down
      if IsPress(kind) && input.penDown {
        input := input.(penStartX := Some(input.penX));
        input := input.(penStartY := Some(input.penY));
        return;
      }
      // tap
      if kind == TouchStart && !input.penDown {
        if input.canDecreaseCount {
          input := input.(peakCount := if input.fingersDown > input.peakCount then input.fingersDown else 0);
          input := input.(canDecreaseCount := false);
        } else {
          input := input.(peakCount := if input.peakCount >= input.fingersDown then input.peakCount else input.fingersDown);
        }
        input := input.(penStartX := None);
        input := input.(penStartY := None);
        return;
      }
      // pen lifted
      if input.wasDown && !input.penDown && input.fingersDown == 0 {
        input := input.(peakCount := 0);
        input := input.(canDecreaseCount := false);
        return;
      }
      // last finger lifted
      if (kind == TouchEnd && |ongoingTouches| == 0) || kind == TouchCancel {
        if input.peakCount > 0 {
          input := input.(canDecreaseCount := true);
        }
        return;
      }
    }

    /** One pass of `updateInput`'s loop: a record on the menu, a finger, or the pencil. */
    method ScanRecord(touch: Touch, kind: EventKind, openAtStart: bool, containedIn: bool) returns (containedPen: bool)
      modifies this`input
      ensures var sc := ScanStep(ScanOf(old(input), containedIn), touch, kind, openAtStart);
        input == Absorb(old(input), sc) && containedPen == sc.containedPen
    {
      containedPen := containedIn;
      if InMenu(touch.clientX, touch.clientY, openAtStart) {
        PressMenuAt(kind, touch.clientY, openAtStart);
      } else if touch.touchType != Stylus {
        input := input.(fingersDown := input.fingersDown + 1);
      } else {
        input := input.(penX := touch.clientX);
        input := input.(penY := touch.clientY);
        containedPen := true;
        input := input.(penAngle := touch.azimuthAngle);
        input := input.(penPressure := touch.force);
      }
    }

    /**
     * The loop of `updateInput` over the registered touches, entered with
     * `fingersDown` reset: `containedPen` tells whether a stylus was found.
     */
    method ScanOngoingTouches(kind: EventKind, openAtStart: bool) returns (containedPen: bool)
      requires input.fingersDown == 0
      modifies this`input
      ensures var sc := ScanTouches(StartScan(old(input)), ongoingTouches, kind, openAtStart);
        input == Absorb(old(input), sc) && containedPen == sc.containedPen
    {
      hide *;
      containedPen := false;
      var i := 0;
      ScanTouchesNone(StartScan(old(input)), ongoingTouches, kind, openAtStart);
      AbsorbStart(old(input));
      while i < |ongoingTouches|
        invariant 0 <= i <= |ongoingTouches|
        invariant var sc := ScanTouches(StartScan(old(input)), ongoingTouches[..i], kind, openAtStart);
          input == Absorb(old(input), sc) && containedPen == sc.containedPen
      {
        ScanTouchesStep(StartScan(old(input)), ongoingTouches, i, kind, openAtStart);
        AbsorbThenScan(old(input), ScanTouches(StartScan(old(input)), ongoingTouches[..i], kind, openAtStart));
        containedPen := ScanRecord(ongoingTouches[i], kind, openAtStart, containedPen);
        i := i + 1;
      }
      assert ongoingTouches[..i] == ongoingTouches;
    }

    /** The mouse branch of `updateInput`; `onMenu` tells that the point hit the menu. */
    method FollowMouse(kind: EventKind, x: real, y: real) returns (onMenu: bool)
      modifies this`input
      ensures input == MouseSense(old(input), kind, x, y)
      ensures onMenu == InMenu(x, y, old(input.menu.menuOpened))
    {
      if InMenu(x, y, input.menu.menuOpened) {
        PressMenuAt(kind, y, input.menu.menuOpened);
        return true;
      }
      onMenu := false;
      input := input.(penX := x);
      input := input.(penY := y);
      if kind == MouseDown {
        input := input.(penDown := true);
      } else if kind == MouseUp {
        input := input.(penDown := false);
      }
    }

    /**
     * The touch branch of `updateInput`, entered with `fingersDown` reset:
     * the scan, after which the pen is down exactly when a pencil was found.
     */
    method FollowTouches(kind: EventKind, openAtStart: bool)
      requires input.fingersDown == 0
      modifies this`input
      ensures var sc := ScanTouches(StartScan(old(input)), ongoingTouches, kind, openAtStart);
        input == Absorb(old(input), sc).(penDown := sc.containedPen)
    {
      var containedPen := ScanOngoingTouches(kind, openAtStart);
      input := input.(penDown := containedPen);
    }

    /**
     * The first part of `updateInput`: the mouse drives the pen when no touch
     * is registered and the mouse is in use, otherwise the registered touches
     * are scanned for the menu, fingers and the pencil. `onMenu` tells that a
     * mouse event hit the menu, which ends `updateInput`.
     */
    method SenseInput(kind: EventKind, mouseX: Option<real>, mouseY: Option<real>) returns (onMenu: bool)
      modifies this`input
      ensures var reset := old(input).(wasDown := old(input.penDown), fingersDown := 0);
        if MouseDrives(mouseX, mouseY, useMouse, ongoingTouches) then
          input == MouseSense(reset, kind, mouseX.value, mouseY.value) &&
          onMenu == InMenu(mouseX.value, mouseY.value, old(input.menu.menuOpened))
        else
          var sc := ScanTouches(StartScan(reset), ongoingTouches, kind, old(input.menu.menuOpened));
          input == Absorb(reset, sc).(penDown := sc.containedPen) && !onMenu
    {
      var openAtStart := input.menu.menuOpened;
      input := input.(wasDown := input.penDown, fingersDown := 0);
      if |ongoingTouches| == 0 && mouseX.Some? && mouseY.Some? && useMouse {
        onMenu := FollowMouse(kind, mouseX.value, mouseY.value);
      } else {
        onMenu := false;
        FollowTouches(kind, openAtStart);
      }
    }

    /** `updateInput`: the sensing part, then, unless the mouse hit the menu, the gesture rules. */
    method UpdateInput(kind: EventKind, mouseX: Option<real>, mouseY: Option<real>)
      requires Valid()
      modifies this`input
      ensures Valid()
      ensures input == StepInput(old(input), kind, mouseX, mouseY, useMouse, ongoingTouches)
    {
      StepKeepsInv(input, kind, mouseX, mouseY, useMouse, ongoingTouches);
      var onMenu := SenseInput(kind, mouseX, mouseY);
      if onMenu {
        return;
      }
      ApplyFingerRules(kind);
    }

    // ------------------------------------------------------------ draw

    /** The reference-snapshot part of `draw()`: lazy capture in an adjustment mode, clearing in "draw" mode. */
    method TakeSnapshot(mode: Mode)
      modifies this`refs
      ensures refs == UpdateReference(mode, old(refs), input, brush)
    {
      if mode != DrawMode {
        refs := refs.(refX := Capture(refs.refX, input.penX));
        refs := refs.(refY := Capture(refs.refY, input.penY));
        refs := refs.(refHue := Capture(refs.refHue, brush.hue));
        refs := refs.(refChroma := Capture(refs.refChroma, brush.chroma));
        refs := refs.(refLuminance := Capture(refs.refLuminance, brush.luminance));
        refs := refs.(refSize := Capture(refs.refSize, brush.size));
        refs := refs.(refVar := Capture(refs.refVar, brush.variation));
      } else {
        refs := NoRefs;
      }
    }

    /** The adjustment part of `draw()`, once the snapshot is complete. */
    method AdjustBrush(mode: Mode, probe: HueProbe)
      requires gadgetRadius > 0.0 && Complete(refs)
      modifies this`brush
      ensures brush == Adjust(mode, useMouse, input, refs, old(brush), gadgetRadius, probe)
    {
      var penMode := !useMouse && input.penStartX.Some? && input.penStartY.Some?;
      if mode == LcMode {
        var deltaX := input.penX - (if penMode then input.penStartX.value else refs.refX.value);
        var deltaY := input.penY - (if penMode then input.penStartY.value else refs.refY.value);
        var rangeX := gadgetRadius * 2.0;
        var rangeY := gadgetRadius * 2.0;
        brush := brush.(chroma := ChromaFromDelta(deltaX, rangeX, refs.refChroma.value));
        brush := brush.(luminance := LuminanceFromDelta(deltaY, rangeY, refs.refLuminance.value));
      } else if mode == HueMode {
        brush := brush.(hue := JsRem(probe.angleDeg + 90.0, 360.0));
        brush := brush.(variation := VarFromDistance(probe.distance, gadgetRadius));
        if brush.hue < 0.0 {
          brush := brush.(hue := brush.hue + 360.0);
        }
      } else if mode == SizeMode {
        var deltaY := input.penY - (if penMode then input.penStartY.value else refs.refY.value);
        var rangeY := gadgetRadius * 2.0;
        brush := brush.(size := SizeFromDelta(deltaY, rangeY, refs.refSize.value));
      }
    }

    /**
     * `draw()`'s state logic: the snapshot, then the tool dispatch in "draw"
     * mode or the brush adjustment otherwise. `keys` are the held keys,
     * `probe` what `atan2` and `dist` report in the "hue" mode, and `ease`
     * the size easing curve.
     */
    method Draw(keys: Keys, probe: HueProbe, ease: real -> real) returns (mark: Mark)
      requires Valid()
      modifies this`refs, this`brush
      ensures Valid()
      ensures FrameResult(brush, refs, mark) ==
        FrameStep(keys, input, useMouse, old(brush), old(refs), gadgetRadius, probe, ease)
    {
      var mode := InputMode(keys, input.peakCount, input.fingersDown);
      TakeSnapshot(mode);
      if mode == DrawMode {
        mark := Emit(input, ease(brush.size));
      } else {
        mark := NoMark;
        AdjustBrush(mode, probe);
      }
    }

    /**
     * `keyPressed`: 'c' makes the brush colour the background colour and
     * nudges the brush luminance away from it; any defined key redraws.
     */
    method KeyPressed(key: Option<char>, keys: Keys, probe: HueProbe, ease: real -> real)
      returns (mark: Option<Mark>)
      requires Valid()
      modifies this`visited, this`bgHue, this`bgChroma, this`bgLuminance, this`refs, this`brush
      ensures Valid() && visited
      ensures key == Some('c') ==>
        (bgLuminance, bgChroma, bgHue) == (old(brush.luminance), old(brush.chroma), old(brush.hue))
      ensures key != Some('c') ==> (bgLuminance, bgChroma, bgHue) == old((bgLuminance, bgChroma, bgHue))
      ensures key.None? ==> mark.None? && brush == old(brush) && refs == old(refs)
      ensures key.Some? ==> mark.Some?
      ensures key.Some? ==>
        var cleared := if key == Some('c') then old(brush).(luminance := Nudge(old(brush.luminance))) else old(brush);
        FrameResult(brush, refs, mark.value) ==
          FrameStep(keys, input, useMouse, cleared, old(refs), gadgetRadius, probe, ease)
    {
      hide *;
      visited := true;
      if key == Some('c') {
        ClearWithColor();
      }
      if key.Some? {
        var m := Draw(keys, probe, ease);
        mark := Some(m);
      } else {
        mark := None;
      }
    }

    /** `keyReleased`: redraws, so releasing a mode key ends that adjustment frame by frame. */
    method KeyReleased(keys: Keys, probe: HueProbe, ease: real -> real) returns (mark: Mark)
      requires Valid()
      modifies this`refs, this`brush
      ensures Valid()
      ensures FrameResult(brush, refs, mark) ==
        FrameStep(keys, input, useMouse, old(brush), old(refs), gadgetRadius, probe, ease)
    {
      mark := Draw(keys, probe, ease);
    }

    /** `windowResized`: the canvas is resized (not modelled) and redrawn; the gadget radius keeps its setup value. */
    method WindowResized(keys: Keys, probe: HueProbe, ease: real -> real) returns (mark: Mark)
      requires Valid()
      modifies this`refs, this`brush
      ensures Valid()
      ensures FrameResult(brush, refs, mark) ==
        FrameStep(keys, input, useMouse, old(brush), old(refs), gadgetRadius, probe, ease)
    {
      mark := Draw(keys, probe, ease);
    }

    /** The 'c' key: the brush colour becomes the background, and the brush luminance moves away from it. */
    method ClearWithColor()
      requires Valid()
      modifies this`bgHue, this`bgChroma, this`bgLuminance, this`brush
      ensures Valid()
      ensures (bgLuminance, bgChroma, bgHue) == (old(brush.luminance), old(brush.chroma), old(brush.hue))
      ensures brush == old(brush).(luminance := Nudge(old(brush.luminance)))
    {
      bgLuminance := brush.luminance;
      bgChroma := brush.chroma;
      bgHue := brush.hue;
      if brush.luminance > 0.5 {
        brush := brush.(luminance := brush.luminance - 0.05);
      } else {
        brush := brush.(luminance := brush.luminance + 0.05);
      }
    }

    // ------------------------------------------------------------ handlers

    /** What every handler ends with: `updateInput(event)`, then `draw()`. */
    method UpdateAndDraw(kind: EventKind, mouseX: Option<real>, mouseY: Option<real>,
                         keys: Keys, probe: HueProbe, ease: real -> real) returns (mark: Mark)
      requires Valid()
      modifies this`input, this`refs, this`brush
      ensures Valid()
      ensures input == StepInput(old(input), kind, mouseX, mouseY, useMouse, ongoingTouches)
      ensures FrameResult(brush, refs, mark) ==
        FrameStep(keys, input, useMouse, old(brush), old(refs), gadgetRadius, probe, ease)
    {
      hide *;
      UpdateInput(kind, mouseX, mouseY);
      mark := Draw(keys, probe, ease);
    }

    /** `handleTouchStart`: register the new touches, then update the input and redraw. */
    method HandleTouchStart(ev: Event, mouseX: Option<real>, mouseY: Option<real>,
                            keys: Keys, probe: HueProbe, ease: real -> real) returns (mark: Mark)
      requires Valid() && ev.kind == TouchStart
      modifies this
      ensures Valid() && visited && useMouse == old(useMouse)
      ensures ongoingTouches == AppendAll(old(ongoingTouches), ev.changedTouches)
      ensures input == StepInput(old(input), ev.kind, mouseX, mouseY, useMouse, ongoingTouches)
      ensures FrameResult(brush, refs, mark) ==
        FrameStep(keys, input, useMouse, old(brush), old(refs), gadgetRadius, probe, ease)
      ensures (bgLuminance, bgChroma, bgHue) == old((bgLuminance, bgChroma, bgHue))
    {
      hide *;
      RecordTouchStart(ev.changedTouches);
      visited := true;
      mark := UpdateAndDraw(ev.kind, mouseX, mouseY, keys, probe, ease);
    }

    /** `handleTouchMove`: swap in the moved touches, then update the input and redraw. */
    method HandleTouchMove(ev: Event, mouseX: Option<real>, mouseY: Option<real>,
                           keys: Keys, probe: HueProbe, ease: real -> real) returns (mark: Mark)
      requires Valid() && ev.kind == TouchMove
      modifies this
      ensures Valid() && visited == old(visited) && useMouse == old(useMouse)
      ensures ongoingTouches == ReplaceAll(old(ongoingTouches), ev.changedTouches)
      ensures input == StepInput(old(input), ev.kind, mouseX, mouseY, useMouse, ongoingTouches)
      ensures FrameResult(brush, refs, mark) ==
        FrameStep(keys, input, useMouse, old(brush), old(refs), gadgetRadius, probe, ease)
      ensures (bgLuminance, bgChroma, bgHue) == old((bgLuminance, bgChroma, bgHue))
    {
      hide *;
      RecordTouchMove(ev.changedTouches);
      mark := UpdateAndDraw(ev.kind, mouseX, mouseY, keys, probe, ease);
    }

    /** `handleTouchEnd`: remove the ended touches, then update the input and redraw. */
    method HandleTouchEnd(ev: Event, mouseX: Option<real>, mouseY: Option<real>,
                          keys: Keys, probe: HueProbe, ease: real -> real) returns (mark: Mark)
      requires Valid() && (ev.kind == TouchEnd || ev.kind == TouchCancel)
      modifies this
      ensures Valid() && visited == old(visited) && useMouse == old(useMouse)
      ensures ongoingTouches == if ev.remaining == 0 then [] else RemoveAll(old(ongoingTouches), ev.changedTouches)
      ensures input == StepInput(old(input), ev.kind, mouseX, mouseY, useMouse, ongoingTouches)
      ensures FrameResult(brush, refs, mark) ==
        FrameStep(keys, input, useMouse, old(brush), old(refs), gadgetRadius, probe, ease)
      ensures (bgLuminance, bgChroma, bgHue) == old((bgLuminance, bgChroma, bgHue))
    {
      hide *;
      RecordTouchEnd(ev.changedTouches, ev.remaining);
      mark := UpdateAndDraw(ev.kind, mouseX, mouseY, keys, probe, ease);
    }

    /**
     * The mouse handlers: a press, drag or release acts only once the mouse
     * is in use, which the first mouse move establishes.
     */
    /** `mousePressed`: marks the page visited; acts as a "mousedown" when the mouse is in use. */
    method MousePressed(mouseX: Option<real>, mouseY: Option<real>, keys: Keys, probe: HueProbe,
                        ease: real -> real) returns (mark: Option<Mark>)
      requires Valid()
      modifies this
      ensures Valid() && visited && useMouse == old(useMouse) && ongoingTouches == old(ongoingTouches)
      ensures !useMouse ==> mark.None? && input == old(input) && brush == old(brush) && refs == old(refs)
      ensures useMouse ==> mark.Some?
      ensures useMouse ==> input == StepInput(old(input), MouseDown, mouseX, mouseY, true, ongoingTouches)
      ensures useMouse ==>
        FrameResult(brush, refs, mark.value) ==
          FrameStep(keys, input, true, old(brush), old(refs), gadgetRadius, probe, ease)
      ensures (bgLuminance, bgChroma, bgHue) == old((bgLuminance, bgChroma, bgHue))
    {
      hide *;
      visited := true;
      if useMouse {
        var m := UpdateAndDraw(MouseDown, mouseX, mouseY, keys, probe, ease);
        mark := Some(m);
      } else {
        mark := None;
      }
    }

    /** `mouseMoved`: puts the mouse in use, then acts as a "mousemove". */
    method MouseMoved(mouseX: Option<real>, mouseY: Option<real>, keys: Keys, probe: HueProbe,
                      ease: real -> real) returns (mark: Mark)
      requires Valid()
      modifies this
      ensures Valid() && useMouse && visited == old(visited) && ongoingTouches == old(ongoingTouches)
      ensures input == StepInput(old(input), MouseMove, mouseX, mouseY, true, ongoingTouches)
      ensures FrameResult(brush, refs, mark) ==
        FrameStep(keys, input, true, old(brush), old(refs), gadgetRadius, probe, ease)
      ensures (bgLuminance, bgChroma, bgHue) == old((bgLuminance, bgChroma, bgHue))
    {
      hide *;
      useMouse := true;
      mark := UpdateAndDraw(MouseMove, mouseX, mouseY, keys, probe, ease);
    }

    /** `mouseDragged`: marks the page visited; acts as a "mousemove" when the mouse is in use. */
    method MouseDragged(mouseX: Option<real>, mouseY: Option<real>, keys: Keys, probe: HueProbe,
                        ease: real -> real) returns (mark: Option<Mark>)
      requires Valid()
      modifies this
      ensures Valid() && visited && useMouse == old(useMouse) && ongoingTouches == old(ongoingTouches)
      ensures !useMouse ==> mark.None? && input == old(input) && brush == old(brush) && refs == old(refs)
      ensures useMouse ==> mark.Some?
      ensures useMouse ==> input == StepInput(old(input), MouseMove, mouseX, mouseY, true, ongoingTouches)
      ensures useMouse ==>
        FrameResult(brush, refs, mark.value) ==
          FrameStep(keys, input, true, old(brush), old(refs), gadgetRadius, probe, ease)
      ensures (bgLuminance, bgChroma, bgHue) == old((bgLuminance, bgChroma, bgHue))
    {
      hide *;
      visited := true;
      if useMouse {
        var m := UpdateAndDraw(MouseMove, mouseX, mouseY, keys, probe, ease);
        mark := Some(m);
      } else {
        mark := None;
      }
    }

    /** `mouseReleased`: acts as a "mouseup" when the mouse is in use. */
    method MouseReleased(mouseX: Option<real>, mouseY: Option<real>, keys: Keys, probe: HueProbe,
                         ease: real -> real) returns (mark: Option<Mark>)
      requires Valid()
      modifies this
      ensures Valid() && visited == old(visited) && useMouse == old(useMouse) && ongoingTouches == old(ongoingTouches)
      ensures !useMouse ==> mark.None? && input == old(input) && brush == old(brush) && refs == old(refs)
      ensures useMouse ==> mark.Some?
      ensures useMouse ==> input == StepInput(old(input), MouseUp, mouseX, mouseY, true, ongoingTouches)
      ensures useMouse ==>
        FrameResult(brush, refs, mark.value) ==
          FrameStep(keys, input, true, old(brush), old(refs), gadgetRadius, probe, ease)
      ensures (bgLuminance, bgChroma, bgHue) == old((bgLuminance, bgChroma, bgHue))
    {
      hide *;
      if useMouse {
        var m := UpdateAndDraw(MouseUp, mouseX, mouseY, keys, probe, ease);
        mark := Some(m);
      } else {
        mark := None;
      }
    }
  }
}
