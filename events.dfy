/** What the browser hands to the sketch's event handlers. */
module Events {
  import opened Options

  /** The `event.type` strings the sketch distinguishes. */
  datatype EventKind =
    | MouseDown | MouseUp | MouseMove
    | TouchStart | TouchMove | TouchEnd | TouchCancel

  /** `Touch.touchType`: a finger ("direct") or an Apple Pencil ("stylus"). */
  datatype TouchType = Direct | Stylus

  /** A browser `Touch` object, with more fields than the sketch keeps. */
  datatype RawTouch = RawTouch(
    identifier: int,
    clientX: real,
    clientY: real,
    pageX: real,
    pageY: real,
    force: Option<real>,
    touchType: TouchType,
    azimuthAngle: Option<real>,
    altitudeAngle: Option<real>)

  /**
   * An event: its type, `changedTouches` (empty for mouse events) and
   * `touches.length`, the number of contacts still on the surface.
   */
  datatype Event = Event(kind: EventKind, changedTouches: seq<RawTouch>, remaining: nat)

  predicate IsPress(kind: EventKind) {
    kind == MouseDown || kind == TouchStart
  }
}
