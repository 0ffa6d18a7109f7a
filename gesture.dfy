/**
 * The input state machine of `updateInput`: where the pen is, whether it is
 * down, how many fingers rest on the screen, and the finger-gesture counters
 * (`fingerState`) that select the adjustment modes of `inputMode`.
 */
module Gesture {
  import opened Options
  import opened Events
  import opened Touches
  import opened Menu

  /** The globals `updateInput` reads and writes (`fingerState` flattened into two fields). */
  datatype InputState = InputState(
    menu: MenuState,
    wasDown: bool,
    penDown: bool,
    fingersDown: nat,
    penX: real,
    penY: real,
    penAngle: Option<real>,
    penPressure: Option<real>,
    penStartX: Option<real>,
    penStartY: Option<real>,
    peakCount: nat,
    canDecreaseCount: bool)

  /** The invariant the machine keeps: a decrease is armed only after a mode was reached, and the tool is a preset's. */
  predicate GestureInv(s: InputState) {
    (s.canDecreaseCount ==> s.peakCount > 0) && ValidMenu(s.menu)
  }

  /** What the scan over `ongoingTouches` accumulates. */
  datatype Scan = Scan(
    menu: MenuState,
    fingers: nat,
    penX: real,
    penY: real,
    penAngle: Option<real>,
    penPressure: Option<real>,
    containedPen: bool)

  function StartScan(s: InputState): Scan {
    Scan(s.menu, 0, s.penX, s.penY, s.penAngle, s.penPressure, false)
  }

  /**
   * One record of the scan: a touch on the menu only does the menu's work;
   * otherwise a finger is counted and a stylus becomes the pen sample.
   */
  function ScanStep(sc: Scan, t: Touch, kind: EventKind, openAtStart: bool): Scan {
    if InMenu(t.clientX, t.clientY, openAtStart) then
      sc.(menu := PressMenu(sc.menu, kind, t.clientY, openAtStart))
    else if t.touchType != Stylus then
      sc.(fingers := sc.fingers + 1)
    else
      sc.(penX := t.clientX, penY := t.clientY, containedPen := true,
          penAngle := t.azimuthAngle, penPressure := t.force)
  }

  /** The scan state held in the input state's fields, with the loop's `containedPen`. */
  function ScanOf(s: InputState, containedPen: bool): Scan {
    Scan(s.menu, s.fingersDown, s.penX, s.penY, s.penAngle, s.penPressure, containedPen)
  }

  /** The scan's results written back into the input state; the pen's down flag is left to the caller. */
  function Absorb(s: InputState, sc: Scan): InputState {
    s.(menu := sc.menu, fingersDown := sc.fingers, penX := sc.penX, penY := sc.penY,
       penAngle := sc.penAngle, penPressure := sc.penPressure)
  }

  /** Writing a scan back and reading it again gives the same scan. */
  lemma AbsorbThenScan(s: InputState, sc: Scan)
    ensures ScanOf(Absorb(s, sc), sc.containedPen) == sc
    ensures forall sc2: Scan {:trigger Absorb(Absorb(s, sc), sc2)} :: Absorb(Absorb(s, sc), sc2) == Absorb(s, sc2)
  {
  }

  /** The start of the scan, written back, changes nothing when no finger was counted. */
  lemma AbsorbStart(s: InputState)
    requires s.fingersDown == 0
    ensures Absorb(s, StartScan(s)) == s && !StartScan(s).containedPen
  {
  }

  /** A record the scan counts as a finger: outside the menu and not a stylus. */
  predicate IsFinger(t: Touch, openAtStart: bool) {
    !InMenu(t.clientX, t.clientY, openAtStart) && t.touchType != Stylus
  }

  /** A record the scan takes as the pen sample: a stylus outside the menu. */
  predicate IsPen(t: Touch, openAtStart: bool) {
    !InMenu(t.clientX, t.clientY, openAtStart) && t.touchType == Stylus
  }

  /** How many records count as fingers. */
  function Fingers(ts: seq<Touch>, openAtStart: bool): (n: nat)
    ensures n <= |ts|
  {
    if |ts| == 0 then 0
    else Fingers(ts[..|ts| - 1], openAtStart) + if IsFinger(ts[|ts| - 1], openAtStart) then 1 else 0
  }

  /** The last record taken as the pen sample, if any. */
  function LastPen(ts: seq<Touch>, openAtStart: bool): (p: Option<Touch>)
    ensures p.Some? ==> IsPen(p.value, openAtStart)
  {
    if |ts| == 0 then None
    else if IsPen(ts[|ts| - 1], openAtStart) then Some(ts[|ts| - 1])
    else LastPen(ts[..|ts| - 1], openAtStart)
  }

  /**
   * There is a pen sample exactly when some record is a stylus outside the
   * menu, and the sample is the last such record.
   */
  lemma {:induction false} LastPenIsLast(ts: seq<Touch>, openAtStart: bool)
    ensures LastPen(ts, openAtStart).Some? <==> exists i :: 0 <= i < |ts| && IsPen(ts[i], openAtStart)
    ensures LastPen(ts, openAtStart).Some? ==>
      exists i :: 0 <= i < |ts| && ts[i] == LastPen(ts, openAtStart).value &&
        forall j :: i < j < |ts| ==> !IsPen(ts[j], openAtStart)
  {
    if |ts| > 0 {
      var pre := ts[..|ts| - 1];
      LastPenIsLast(pre, openAtStart);
      if !IsPen(ts[|ts| - 1], openAtStart) {
        if LastPen(pre, openAtStart).Some? {
          var i :| 0 <= i < |pre| && pre[i] == LastPen(pre, openAtStart).value &&
            forall j :: i < j < |pre| ==> !IsPen(pre[j], openAtStart);
          assert ts[i] == pre[i];
          assert forall j :: i < j < |ts| ==> !IsPen(ts[j], openAtStart) by {
            forall j | i < j < |ts| ensures !IsPen(ts[j], openAtStart) {
              if j < |pre| { assert ts[j] == pre[j]; }
            }
          }
        }
        if exists i :: 0 <= i < |ts| && IsPen(ts[i], openAtStart) {
          var i :| 0 <= i < |ts| && IsPen(ts[i], openAtStart);
          assert pre[i] == ts[i];
        }
      }
    }
  }

  /**
   * The scan over the records, first to last: it counts the fingers outside
   * the menu and takes the pen sample from the last stylus outside it.
   */
  function ScanTouches(sc: Scan, ts: seq<Touch>, kind: EventKind, openAtStart: bool): (r: Scan)
    ensures r.fingers == sc.fingers + Fingers(ts, openAtStart)
    ensures r.containedPen == (sc.containedPen || LastPen(ts, openAtStart).Some?)
    ensures LastPen(ts, openAtStart).Some? ==>
      var p := LastPen(ts, openAtStart).value;
      r.penX == p.clientX && r.penY == p.clientY && r.penAngle == p.azimuthAngle && r.penPressure == p.force
    ensures LastPen(ts, openAtStart).None? ==>
      r.penX == sc.penX && r.penY == sc.penY && r.penAngle == sc.penAngle && r.penPressure == sc.penPressure
  {
    if |ts| == 0 then sc
    else
      var prev := ScanTouches(sc, ts[..|ts| - 1], kind, openAtStart);
      ScanStep(prev, ts[|ts| - 1], kind, openAtStart)
  }

  /** One more record of the scan, for callers that walk the records in order. */
  lemma ScanTouchesStep(sc: Scan, ts: seq<Touch>, i: nat, kind: EventKind, openAtStart: bool)
    requires i < |ts|
    ensures ScanTouches(sc, ts[..i + 1], kind, openAtStart) ==
      ScanStep(ScanTouches(sc, ts[..i], kind, openAtStart), ts[i], kind, openAtStart)
  {
    assert ts[..i + 1][..i] == ts[..i];
  }

  /** The scan over no records leaves the start untouched. */
  lemma ScanTouchesNone(sc: Scan, ts: seq<Touch>, kind: EventKind, openAtStart: bool)
    ensures ScanTouches(sc, ts[..0], kind, openAtStart) == sc
  {
  }

  /** The four rules at the end of `updateInput`, in the order they are tried. */
  datatype Branch = PenDownStart | Tap | PenLifted | LastFingerLifted | NoRule

  /** The first rule whose guard holds; `remaining` is `ongoingTouches.length`. */
  function Classify(kind: EventKind, s: InputState, remaining: nat): (b: Branch)
    ensures b == PenDownStart <==> IsPress(kind) && s.penDown
    ensures b == Tap <==> kind == TouchStart && !s.penDown
    ensures b == PenLifted <==> kind != TouchStart && s.wasDown && !s.penDown && s.fingersDown == 0
    ensures b == LastFingerLifted <==>
      ((kind == TouchEnd && remaining == 0) || kind == TouchCancel) &&
      !(s.wasDown && !s.penDown && s.fingersDown == 0)
  {
    if IsPress(kind) && s.penDown then PenDownStart
    else if kind == TouchStart && !s.penDown then Tap
    else if s.wasDown && !s.penDown && s.fingersDown == 0 then PenLifted
    else if (kind == TouchEnd && remaining == 0) || kind == TouchCancel then LastFingerLifted
    else NoRule
  }

  /** The effect of the selected rule on the finger-gesture counters and the pen start point. */
  function FingerRules(s: InputState, kind: EventKind, remaining: nat): (r: InputState)
    ensures r.menu == s.menu && r.wasDown == s.wasDown && r.penDown == s.penDown
    ensures r.fingersDown == s.fingersDown && r.penX == s.penX && r.penY == s.penY
    ensures r.penAngle == s.penAngle && r.penPressure == s.penPressure
  {
    match Classify(kind, s, remaining)
    case PenDownStart => s.(penStartX := Some(s.penX), penStartY := Some(s.penY))
    case Tap =>
      var t := s.(penStartX := None, penStartY := None);
      if s.canDecreaseCount then
        t.(peakCount := if s.fingersDown > s.peakCount then s.fingersDown else 0, canDecreaseCount := false)
      else
        t.(peakCount := if s.peakCount >= s.fingersDown then s.peakCount else s.fingersDown)
    case PenLifted => s.(peakCount := 0, canDecreaseCount := false)
    case LastFingerLifted => if s.peakCount > 0 then s.(canDecreaseCount := true) else s
    case NoRule => s
  }

  /** The mouse is the pen: no touch is registered, both coordinates are defined and the mouse is in use. */
  predicate MouseDrives(mouseX: Option<real>, mouseY: Option<real>, useMouse: bool, touches: seq<Touch>) {
    |touches| == 0 && mouseX.Some? && mouseY.Some? && useMouse
  }

  /** A mouse event on the menu, which ends `updateInput` early. */
  predicate MouseOnMenu(s: InputState, mouseX: Option<real>, mouseY: Option<real>, useMouse: bool, touches: seq<Touch>) {
    MouseDrives(mouseX, mouseY, useMouse, touches) && InMenu(mouseX.value, mouseY.value, s.menu.menuOpened)
  }

  /**
   * The mouse branch of `updateInput`: a point on the menu only does the
   * menu's work; elsewhere the pen follows the mouse, and a press or a
   * release puts it down or lifts it.
   */
  function MouseSense(s: InputState, kind: EventKind, x: real, y: real): (r: InputState)
    ensures InMenu(x, y, s.menu.menuOpened) ==>
      r == s.(menu := PressMenu(s.menu, kind, y, s.menu.menuOpened))
    ensures !InMenu(x, y, s.menu.menuOpened) ==>
      r == s.(penX := x, penY := y, penDown := r.penDown) &&
      (kind == MouseDown ==> r.penDown) && (kind == MouseUp ==> !r.penDown) &&
      (kind != MouseDown && kind != MouseUp ==> r.penDown == s.penDown)
  {
    if InMenu(x, y, s.menu.menuOpened) then
      s.(menu := PressMenu(s.menu, kind, y, s.menu.menuOpened))
    else
      var down := if kind == MouseDown then true else if kind == MouseUp then false else s.penDown;
      s.(penX := x, penY := y, penDown := down)
  }

  /**
   * What the touch branch leaves: the fingers outside the menu counted, the
   * pen down exactly when a stylus lies outside the menu, and the pen sample
   * taken from the last such stylus (kept from before when there is none).
   */
  predicate TouchSensed(r: InputState, s: InputState, touches: seq<Touch>, openAtStart: bool) {
    r.fingersDown == Fingers(touches, openAtStart) &&
    r.penDown == LastPen(touches, openAtStart).Some? &&
    match LastPen(touches, openAtStart)
    case Some(p) =>
      r.penX == p.clientX && r.penY == p.clientY && r.penAngle == p.azimuthAngle && r.penPressure == p.force
    case None =>
      r.penX == s.penX && r.penY == s.penY && r.penAngle == s.penAngle && r.penPressure == s.penPressure
  }

  /**
   * The first part of `updateInput`: the mouse position and button, or the
   * scan of the registered touches, update the pen, the fingers and the menu.
   */
  function Sense(s: InputState, kind: EventKind, mouseX: Option<real>, mouseY: Option<real>,
                 useMouse: bool, touches: seq<Touch>): (r: InputState)
    ensures r.wasDown == s.penDown
    ensures r.fingersDown <= |touches|
    ensures (r.penStartX, r.penStartY, r.peakCount, r.canDecreaseCount) ==
            (s.penStartX, s.penStartY, s.peakCount, s.canDecreaseCount)
    ensures MouseDrives(mouseX, mouseY, useMouse, touches) ==> r.fingersDown == 0
    ensures MouseDrives(mouseX, mouseY, useMouse, touches) && !InMenu(mouseX.value, mouseY.value, s.menu.menuOpened) ==>
      r.penX == mouseX.value && r.penY == mouseY.value
    ensures !MouseDrives(mouseX, mouseY, useMouse, touches) ==>
      TouchSensed(r, s, touches, s.menu.menuOpened)
  {
    var s1 := s.(wasDown := s.penDown, fingersDown := 0);
    if MouseDrives(mouseX, mouseY, useMouse, touches) then MouseSense(s1, kind, mouseX.value, mouseY.value)
    else
      var sc := ScanTouches(StartScan(s), touches, kind, s.menu.menuOpened);
      Absorb(s1, sc).(penDown := sc.containedPen)
  }

  /**
   * One call of `updateInput`: the sensing part, then, unless a mouse press
   * hit the menu, the finger-gesture rules.
   */
  function StepInput(s: InputState, kind: EventKind, mouseX: Option<real>, mouseY: Option<real>,
                     useMouse: bool, touches: seq<Touch>): (r: InputState)
    ensures r.wasDown == s.penDown
    ensures r.fingersDown <= |touches|
    ensures !IsPress(kind) && !(kind == TouchStart) ==> r.penStartX == s.penStartX && r.penStartY == s.penStartY
    ensures MouseDrives(mouseX, mouseY, useMouse, touches) ==> r.fingersDown == 0
    ensures !MouseDrives(mouseX, mouseY, useMouse, touches) ==>
      TouchSensed(r, s, touches, s.menu.menuOpened)
  {
    var t := Sense(s, kind, mouseX, mouseY, useMouse, touches);
    if MouseOnMenu(s, mouseX, mouseY, useMouse, touches) then t
    else FingerRules(t, kind, |touches|)
  }

  // ---------------------------------------------------------------- inputMode

  datatype Mode = LcMode | HueMode | SizeMode | DrawMode

  /** Whether the keys '1', '2' and '3' are held. */
  datatype Keys = Keys(one: bool, two: bool, three: bool)

  const NoKeys: Keys := Keys(false, false, false)

  /**
   * `inputMode`: key '1' or a one-finger gesture gives "lc", then '2' or two
   * fingers "hue", then '3' or three fingers "size"; a gesture only counts once
   * every finger is lifted.
   */
  function InputMode(keys: Keys, peakCount: nat, fingersDown: nat): (m: Mode)
    ensures m == LcMode <==> keys.one || (peakCount == 1 && fingersDown == 0)
    ensures m == HueMode <==>
      !keys.one && !(peakCount == 1 && fingersDown == 0) && (keys.two || (peakCount == 2 && fingersDown == 0))
    ensures m == SizeMode <==>
      !keys.one && !keys.two && !(fingersDown == 0 && 1 <= peakCount <= 2) &&
      (keys.three || (peakCount == 3 && fingersDown == 0))
    ensures m == DrawMode <==>
      !keys.one && !keys.two && !keys.three && !(fingersDown == 0 && 1 <= peakCount <= 3)
  {
    if keys.one || (peakCount == 1 && fingersDown == 0) then LcMode
    else if keys.two || (peakCount == 2 && fingersDown == 0) then HueMode
    else if keys.three || (peakCount == 3 && fingersDown == 0) then SizeMode
    else DrawMode
  }

  /** Without keys the mode is the peak finger count, once every finger is lifted. */
  lemma ModeWithoutKeys(peakCount: nat, fingersDown: nat)
    ensures var m := InputMode(NoKeys, peakCount, fingersDown);
      (fingersDown != 0 || peakCount == 0 || peakCount >= 4 ==> m == DrawMode) &&
      (fingersDown == 0 && peakCount == 1 ==> m == LcMode) &&
      (fingersDown == 0 && peakCount == 2 ==> m == HueMode) &&
      (fingersDown == 0 && peakCount == 3 ==> m == SizeMode)
  {
  }

  // ---------------------------------------------------------------- rules

  /**
   * The tap rule: a touch start without the pen raises the peak to the
   * finger count, or, when a decrease is armed, keeps a larger count and
   * otherwise resets it to 0 and disarms; the start point is forgotten.
   */
  lemma TapRule(s: InputState, remaining: nat)
    requires !s.penDown
    ensures var r := FingerRules(s, TouchStart, remaining);
      r.penStartX == None && r.penStartY == None &&
      (s.canDecreaseCount ==>
        r.peakCount == (if s.fingersDown > s.peakCount then s.fingersDown else 0) && !r.canDecreaseCount) &&
      (!s.canDecreaseCount ==>
        r.peakCount >= s.peakCount && r.peakCount >= s.fingersDown &&
        (r.peakCount == s.peakCount || r.peakCount == s.fingersDown) && !r.canDecreaseCount)
  {
  }

  /** The pen-down rule: a press with the pen down records the pen as the start point, and nothing else changes. */
  lemma PenDownRule(s: InputState, kind: EventKind, remaining: nat)
    requires IsPress(kind) && s.penDown
    ensures FingerRules(s, kind, remaining) == s.(penStartX := Some(s.penX), penStartY := Some(s.penY))
  {
  }

  /** When no rule's guard holds, the rules leave the state as it is. */
  lemma NoRuleKeeps(s: InputState, kind: EventKind, remaining: nat)
    requires !(IsPress(kind) && s.penDown) && !(kind == TouchStart && !s.penDown)
    requires !(s.wasDown && !s.penDown && s.fingersDown == 0)
    requires !(kind == TouchEnd && remaining == 0) && kind != TouchCancel
    ensures FingerRules(s, kind, remaining) == s
  {
  }

  /** The lift rule: the pen leaving the screen with no finger down ends any gesture. */
  lemma LiftRule(s: InputState, kind: EventKind, remaining: nat)
    requires !(IsPress(kind) && s.penDown) && kind != TouchStart
    requires s.wasDown && !s.penDown && s.fingersDown == 0
    ensures var r := FingerRules(s, kind, remaining);
      r == s.(peakCount := 0, canDecreaseCount := false)
    ensures forall keys: Keys :: !keys.one && !keys.two && !keys.three ==>
      InputMode(keys, FingerRules(s, kind, remaining).peakCount, s.fingersDown) == DrawMode
  {
  }

  /**
   * The last-finger rule: when the last touch ends or the touches are
   * cancelled, a decrease is armed exactly when a mode was reached, and
   * nothing else changes.
   */
  lemma LastFingerRule(s: InputState, kind: EventKind)
    requires GestureInv(s)
    requires kind == TouchEnd || kind == TouchCancel
    requires !(s.wasDown && !s.penDown && s.fingersDown == 0)
    ensures FingerRules(s, kind, 0) == s.(canDecreaseCount := s.peakCount > 0)
  {
  }

  /** A scan keeps the tool and texture one of the presets' pairs. */
  lemma {:induction false} ScanKeepsPreset(sc: Scan, ts: seq<Touch>, kind: EventKind, openAtStart: bool)
    requires ValidMenu(sc.menu)
    ensures ValidMenu(ScanTouches(sc, ts, kind, openAtStart).menu)
  {
    if |ts| > 0 {
      var prev := ScanTouches(sc, ts[..|ts| - 1], kind, openAtStart);
      ScanKeepsPreset(sc, ts[..|ts| - 1], kind, openAtStart);
      var t := ts[|ts| - 1];
      if InMenu(t.clientX, t.clientY, openAtStart) {
        PressMenuKeepsPreset(prev.menu, kind, t.clientY, openAtStart);
      }
    }
  }

  /** Only presses act on the menu: any other event scans without touching it. */
  lemma {:induction false} ScanNonPressKeepsMenu(sc: Scan, ts: seq<Touch>, kind: EventKind, openAtStart: bool)
    requires !IsPress(kind)
    ensures ScanTouches(sc, ts, kind, openAtStart).menu == sc.menu
  {
    if |ts| > 0 {
      ScanNonPressKeepsMenu(sc, ts[..|ts| - 1], kind, openAtStart);
    }
  }

  /** A scan with no record on the menu leaves the menu alone. */
  lemma {:induction false} ScanOffMenu(sc: Scan, ts: seq<Touch>, kind: EventKind, openAtStart: bool)
    requires forall i :: 0 <= i < |ts| ==> !InMenu(ts[i].clientX, ts[i].clientY, openAtStart)
    ensures ScanTouches(sc, ts, kind, openAtStart).menu == sc.menu
  {
    if |ts| > 0 {
      var pre := ts[..|ts| - 1];
      assert forall i :: 0 <= i < |pre| ==> pre[i] == ts[i];
      ScanOffMenu(sc, pre, kind, openAtStart);
    }
  }

  /** A scan with exactly one record on the menu does that record's press and nothing more to the menu. */
  lemma {:induction false} ScanOneOnMenu(sc: Scan, ts: seq<Touch>, k: nat, kind: EventKind, openAtStart: bool)
    requires k < |ts| && InMenu(ts[k].clientX, ts[k].clientY, openAtStart)
    requires forall i :: 0 <= i < |ts| && i != k ==> !InMenu(ts[i].clientX, ts[i].clientY, openAtStart)
    ensures ScanTouches(sc, ts, kind, openAtStart).menu == PressMenu(sc.menu, kind, ts[k].clientY, openAtStart)
  {
    var pre := ts[..|ts| - 1];
    assert forall i :: 0 <= i < |pre| ==> pre[i] == ts[i];
    if k == |ts| - 1 {
      ScanOffMenu(sc, pre, kind, openAtStart);
    } else {
      ScanOneOnMenu(sc, pre, k, kind, openAtStart);
    }
  }

  /**
   * In the touch branch of `updateInput`, the one registered touch on the
   * menu does its press, with the menu height fixed at the start.
   */
  lemma TouchPressesMenu(s: InputState, kind: EventKind, mouseX: Option<real>, mouseY: Option<real>,
                         useMouse: bool, touches: seq<Touch>, k: nat)
    requires !MouseDrives(mouseX, mouseY, useMouse, touches)
    requires k < |touches| && InMenu(touches[k].clientX, touches[k].clientY, s.menu.menuOpened)
    requires forall i :: 0 <= i < |touches| && i != k ==>
      !InMenu(touches[i].clientX, touches[i].clientY, s.menu.menuOpened)
    ensures StepInput(s, kind, mouseX, mouseY, useMouse, touches).menu ==
      PressMenu(s.menu, kind, touches[k].clientY, s.menu.menuOpened)
  {
    ScanOneOnMenu(StartScan(s), touches, k, kind, s.menu.menuOpened);
  }

  /** In the touch branch of `updateInput`, no registered touch on the menu leaves the menu alone. */
  lemma TouchesMissMenu(s: InputState, kind: EventKind, mouseX: Option<real>, mouseY: Option<real>,
                        useMouse: bool, touches: seq<Touch>)
    requires !MouseDrives(mouseX, mouseY, useMouse, touches)
    requires forall i :: 0 <= i < |touches| ==> !InMenu(touches[i].clientX, touches[i].clientY, s.menu.menuOpened)
    ensures StepInput(s, kind, mouseX, mouseY, useMouse, touches).menu == s.menu
  {
    ScanOffMenu(StartScan(s), touches, kind, s.menu.menuOpened);
  }

  /** `updateInput` keeps the invariant. */
  lemma StepKeepsInv(s: InputState, kind: EventKind, mouseX: Option<real>, mouseY: Option<real>,
                     useMouse: bool, touches: seq<Touch>)
    requires GestureInv(s)
    ensures GestureInv(StepInput(s, kind, mouseX, mouseY, useMouse, touches))
  {
    if MouseDrives(mouseX, mouseY, useMouse, touches) {
      if InMenu(mouseX.value, mouseY.value, s.menu.menuOpened) {
        PressMenuKeepsPreset(s.menu, kind, mouseY.value, s.menu.menuOpened);
      }
    } else {
      ScanKeepsPreset(StartScan(s), touches, kind, s.menu.menuOpened);
    }
  }

  /** Moves, releases, ends and cancels never change the menu, the tool or the texture. */
  lemma NonPressKeepsMenu(s: InputState, kind: EventKind, mouseX: Option<real>, mouseY: Option<real>,
                          useMouse: bool, touches: seq<Touch>)
    requires !IsPress(kind)
    ensures StepInput(s, kind, mouseX, mouseY, useMouse, touches).menu == s.menu
  {
    if !MouseDrives(mouseX, mouseY, useMouse, touches) {
      ScanNonPressKeepsMenu(StartScan(s), touches, kind, s.menu.menuOpened);
    }
  }

  /** A finger touch outside the menu. */
  predicate FingerOutsideMenu(t: Touch, openAtStart: bool) {
    t.touchType == Direct && !InMenu(t.clientX, t.clientY, openAtStart)
  }

  /**
   * A one-finger tap followed by the lift of that finger opens the
   * lightness/chroma mode.
   */
  lemma OneFingerTapOpensLc(s: InputState, t: Touch)
    requires GestureInv(s) && s.peakCount == 0
    requires FingerOutsideMenu(t, s.menu.menuOpened)
    ensures var a := StepInput(s, TouchStart, None, None, false, [t]);
      var b := StepInput(a, TouchEnd, None, None, false, []);
      a.fingersDown == 1 && a.peakCount == 1 &&
      b.fingersDown == 0 && b.peakCount == 1 && b.canDecreaseCount &&
      InputMode(NoKeys, b.peakCount, b.fingersDown) == LcMode
  {
    var sc := ScanTouches(StartScan(s), [t], TouchStart, s.menu.menuOpened);
    assert [t][..0] == [];
    assert sc.fingers == 1 && !sc.containedPen;
  }

  /**
   * Once a decrease is armed, a tap with no more fingers than the previous
   * peak leaves the adjustment mode.
   */
  lemma FewerFingersCloseMode(s: InputState, ts: seq<Touch>)
    requires GestureInv(s) && s.canDecreaseCount
    requires forall i :: 0 <= i < |ts| ==> FingerOutsideMenu(ts[i], s.menu.menuOpened)
    requires |ts| <= s.peakCount
    ensures var a := StepInput(s, TouchStart, None, None, false, ts);
      a.peakCount == 0 && !a.canDecreaseCount &&
      InputMode(NoKeys, a.peakCount, a.fingersDown) == DrawMode
  {
    NoStylusScan(StartScan(s), ts, TouchStart, s.menu.menuOpened);
  }

  /** A scan over fingers only finds no pen. */
  lemma {:induction false} NoStylusScan(sc: Scan, ts: seq<Touch>, kind: EventKind, openAtStart: bool)
    requires !sc.containedPen
    requires forall i :: 0 <= i < |ts| ==> ts[i].touchType == Direct
    ensures !ScanTouches(sc, ts, kind, openAtStart).containedPen
  {
    if |ts| > 0 {
      NoStylusScan(sc, ts[..|ts| - 1], kind, openAtStart);
    }
  }
}
