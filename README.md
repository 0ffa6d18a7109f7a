# drawlab sketch: the input and brush-state engine

This project models the state logic of `sketch.js`, a p5.js painting sketch.
Under its drawing calls, the sketch keeps a small input and brush-state engine.
Every browser event runs one handler to completion. A touch handler updates
the touch registry, runs `updateInput`, then runs `draw()`. A mouse handler
leaves the registry alone and runs `updateInput` and `draw()` only while the
mouse is in use (`mouseMoved` puts it in use first). `keyPressed`,
`keyReleased` and `windowResized` redraw without running `updateInput`. The
model follows the same paths:

- **Touch registry** (`touches.dfy`): `ongoingTouches` records are copied,
  looked up by identifier, swapped in place and spliced out. This includes
  the quirk of `splice(-1, 1)`: ending an unknown identifier removes the last
  record.
- **Tool menu** (`menu.dfy`): the top-left hit area, the four presets and the
  `inMenu` closure. The closure's `menuH` is fixed when `updateInput` starts,
  even when a press toggles the menu.
- **Input state machine** (`gesture.dfy`): `updateInput`. The mouse or the
  scan of the registered touches moves the pen and counts fingers. Then the
  first of four rules applies: pen-down start, tap, pen lifted, last finger
  lifted. This module also holds `inputMode`.
- **Brush mappings** (`mapping.dfy`, `numeric.dfy`): p5's `map`/`constrain`,
  JavaScript's `%` (whose remainder takes the dividend's sign) and
  `Math.round`, and the chroma, luminance, size, hue and hue-variation
  mappings of `draw()`.
- **One frame** (`frame.dfy`): the reference snapshot, which is captured
  lazily in an adjustment mode and cleared in "draw" mode. Also the anchor
  choice (`penMode`), the brush adjustment, and what the selected tool paints.
- **Stamp and line geometry, noise lookup** (`stamp.dfy`): `drawStamp`'s
  outline as a value, the undefined-endpoint guard of `drawWithLine`, and the
  index of `varStrengths[seed % varStrengths.length]`.
- **The sketch** (`sketch.dfy`): the class `Sketch.Sketch` holds the globals.
  Its methods are the event handlers, `updateInput`, `draw()` and
  `keyPressed`, written as step-by-step updates of the fields. Each method is
  proved to agree with the pure functions above.

The globals are grouped into four kinds of field:

- `input` (`InputState`) holds:
  - the menu: `toolMenuOpened`, `brushTool`, `texture`;
  - the pen: `wasDown`, `penDown`, `penX`/`penY`, `penAngle`, `penPressure`,
    `penStartX`/`penStartY`;
  - `fingersDown`;
  - the two fields of `fingerState`.
- `brush` (`BrushState`) holds the five `brush*` settings.
- `refs` (`RefState`) holds the seven `ref*` fields.
- The remaining globals stay separate fields: the background colour,
  `visited`, `useMouse` and `ongoingTouches`. `gadgetRadius` and the noise
  table are constants fixed by `setup()`.

JavaScript's `undefined` is `Option.None`, and numbers are reals. A product
involving `undefined` is `NaN` in JavaScript. The model records it as "no
value": `NaN % 128` reads `undefined` from the noise table, so the hue
handed to `okhex` is `NaN`, which the model also records as no value. Behaviour follows the code:

- the rake always has four circles;
- the line tool's colour seed is the product of the start point's
  coordinates;
- the fan line tool's colour seed is the product of the pen's coordinates;
- after a line-tool lift, a key press, a key release or a resize redraws
  without `updateInput` and so paints the same line again
  (`Frame.RedrawRepaintsLine`).

Three things about the browser are parameters rather than state:

- The held keys '1', '2' and '3' (`keyIsDown`) are a `Keys` value.
- The mouse position is a pair of `Option<real>`.
- The angle and distance that `atan2` and `dist` report in the "hue" mode are
  a `HueProbe`.

## Model

| member | source | states |
|---|---|---|
| Touches.CopyTouch | sketch.js:139-141 | the copy keeps exactly the identifier, position, force, touch type and azimuth of the browser touch |
| Touches.IndexById | sketch.js:143-152 | the first index whose identifier matches, or -1 exactly when no record has that identifier |
| Touches.AppendAll | sketch.js:106-110 | a touch start keeps the old records as a prefix and appends, in order, exactly one copy of each changed touch |
| Touches.ReplaceOne | sketch.js:117-122 | a move swaps in the new copy only at the first matching record; the length and the identifiers are unchanged; an unknown identifier changes nothing |
| Touches.ReplaceAllKeepsIds | sketch.js:115-125 | a whole move event keeps the number of records and their identifiers |
| Touches.ReplaceAllKeepsOthers | sketch.js:115-125 | a record that is not the first match of any changed touch's identifier is left as it was |
| Touches.ReplaceAllSwapsIn | sketch.js:117-121 | each registered changed touch leaves its copy at its identifier's first record, unless a later changed touch carries the same identifier |
| Touches.ReplaceAll | sketch.js:115-122 | a whole move event never changes the number of records |
| Touches.ReplaceAllUnknown | sketch.js:117-121 | a move event whose identifiers are all unregistered leaves the registry unchanged |
| Touches.Splice1 | sketch.js:130 | `splice(idx, 1)` removes exactly the record at `idx`, keeping the others in order; at -1 it removes the last record; an empty registry stays empty |
| Touches.RemoveOne | sketch.js:128-131 | ending one touch removes one record while any are left, and never adds a record |
| Touches.RemoveOneFound | sketch.js:128-131 | ending a registered identifier removes exactly its first record (as a multiset, and in order) |
| Touches.RemoveOneMissing | sketch.js:128-131 | ending an unregistered identifier removes the last record, because `splice(-1, 1)` counts from the end |
| Touches.RemoveAllLength | sketch.js:126-131 | each ended touch removes one record while any are left |
| Touches.RemoveAll | sketch.js:126-131 | ending touches only removes records, never adds or alters one |
| Touches.RemoveAllRemovesEnded | sketch.js:126-131 | ending touches with distinct registered identifiers removes one record per touch, and every record whose identifier no ended touch carries keeps its multiplicity |
| Touches.RemoveAllIsWithout | sketch.js:126-131 | with distinct registry identifiers, ending touches with distinct registered identifiers leaves exactly the records of the other identifiers, in their order |
| Sketch.Sketch.OngoingTouchIndexById | sketch.js:143-152 | the search loop returns the first matching index or -1, and agrees with `IndexById` |
| Sketch.Sketch.RecordTouchStart | sketch.js:106-110 | the push loop leaves `ongoingTouches` equal to `AppendAll` of the old registry |
| Sketch.Sketch.RecordTouchMove | sketch.js:115-122 | the swap loop leaves `ongoingTouches` equal to `ReplaceAll` of the old registry, with the length and identifiers kept |
| Sketch.Sketch.RecordTouchEnd | sketch.js:126-136 | the splice loop leaves `RemoveAll` of the old registry, or the empty registry when no contact remains |
| Menu.MenuH | sketch.js:183-184 | the hit area is one 60-pixel row closed and five rows open |
| Menu.InMenu | sketch.js:186-187 | a point hits the menu exactly when it lies left of 100 and above the menu height of 60 closed or 300 open |
| Menu.MenuSpot | sketch.js:189 | the spot is the 60-pixel row holding the point, counted from -1 for the header |
| Menu.PresetPairIsPreset | sketch.js:32-37 | a tool/texture pair is allowed exactly when it is one of the four presets' pairs |
| Menu.PressMenu | sketch.js:186-199 | only presses act; a preset row selects that preset's tool and texture, and the header toggles the menu |
| Menu.MenuHitTest | sketch.js:183-192 | for a point at or below the top edge, the row is the header (-1) or a valid preset index; with the menu closed it can only be the header |
| Menu.PressMenuKeepsPreset | sketch.js:186-195 | whatever is pressed, the tool and texture stay one of the presets' pairs |
| Menu.HeaderToggleTwice | sketch.js:190-194 | two presses on the header restore the menu state |
| Gesture.ScanTouches | sketch.js:218-233 | the scan counts exactly the records outside the menu that are not a stylus, finds the pen exactly when some record outside the menu is a stylus, and takes the pen sample from the last such record, keeping the old sample otherwise |
| Gesture.LastPenIsLast | sketch.js:220-232 | the pen sample is found exactly when some record is a stylus outside the menu, and it is the last such record |
| Gesture.FingerRules | sketch.js:240-284 | the four rules change only the pen start point and the finger-gesture counters |
| Gesture.Classify | sketch.js:240-284 | each rule is chosen exactly when its guard holds and no earlier guard does |
| Gesture.PenDownRule | sketch.js:241-246 | a press with the pen down only records the pen position as the start point |
| Gesture.NoRuleKeeps | sketch.js:240-284 | when no guard holds the rules change nothing |
| Gesture.MouseSense | sketch.js:207-216 | a mouse point on the menu changes only the menu, to `PressMenu` of it; elsewhere only the pen position and down flag change, down on a press and up on a release |
| Gesture.Sense | sketch.js:200-234 | the mouse branch counts no finger and puts the pen at the mouse point off the menu; the touch branch counts exactly the fingers outside the menu and puts the pen down exactly when a stylus is outside it, at the last one; the previous down flag is recorded and the start point and counters are left alone |
| Gesture.StepInput | sketch.js:180-285 | one `updateInput` records the previous down flag, counts no finger under the mouse and exactly the fingers outside the menu otherwise, takes the pen from the last stylus outside it; only presses and touch starts change the start point |
| Gesture.InputMode | sketch.js:315-329 | each mode exactly when its key is held or its 1, 2 or 3 finger gesture is complete and no earlier mode applies (lc before hue before size); "draw" exactly when none applies |
| Gesture.ModeWithoutKeys | sketch.js:315-329 | without keys the mode is the peak finger count once every finger is lifted, and "draw" for 0, 4 or more, or any finger down |
| Gesture.TapRule | sketch.js:248-259 | a tap raises the peak to max(peak, fingers), or with a decrease armed keeps a larger count and otherwise resets it to 0 and disarms; the start point is forgotten |
| Gesture.LiftRule | sketch.js:261-274 | lifting the pen with no finger down resets the peak and the armed flag, which returns the keyless mode to "draw" |
| Gesture.LastFingerRule | sketch.js:276-284 | on the last touch end or a cancel, a decrease is armed exactly when a mode was reached, and nothing else changes |
| Gesture.ScanKeepsPreset | sketch.js:218-233 | a scan of the touches keeps the tool and texture a preset's pair |
| Gesture.ScanNonPressKeepsMenu | sketch.js:186-199 | a scan for any event other than a press leaves the menu state alone |
| Gesture.ScanOffMenu | sketch.js:220-222 | a scan with no record on the menu leaves the menu alone |
| Gesture.ScanOneOnMenu | sketch.js:186-222 | a scan with exactly one record on the menu does that record's press and nothing more to the menu |
| Gesture.TouchPressesMenu | sketch.js:184-233 | in the touch branch the one registered touch on the menu does its press, with the menu height fixed at the start |
| Gesture.TouchesMissMenu | sketch.js:184-233 | in the touch branch, no registered touch on the menu leaves the menu alone |
| Gesture.StepKeepsInv | sketch.js:180-285 | `updateInput` keeps the invariant: a decrease is armed only after a mode was reached, and the tool is a preset's |
| Gesture.NonPressKeepsMenu | sketch.js:186-199 | moves, releases, ends and cancels never change the menu, the tool or the texture |
| Gesture.OneFingerTapOpensLc | sketch.js:248-284 | a one-finger tap outside the menu, then its lift, arms a decrease and opens the "lc" mode |
| Gesture.FewerFingersCloseMode | sketch.js:249-253 | with a decrease armed, a tap with no more fingers than the peak returns to "draw" |
| Gesture.NoStylusScan | sketch.js:218-234 | a scan over fingers only never finds the pen |
| Sketch.Sketch.PressMenuAt | sketch.js:186-199 | the menu part of `input` becomes `PressMenu` of the old menu state, and nothing else changes |
| Sketch.Sketch.ApplyFingerRules | sketch.js:240-284 | the four rules, tried in order, leave `input` equal to `FingerRules` of the sensed state |
| Sketch.Sketch.ScanRecord | sketch.js:219-232 | one pass of the loop updates `input` as one `ScanStep` does |
| Sketch.Sketch.ScanOngoingTouches | sketch.js:218-233 | the loop leaves `input` holding the result of `ScanTouches` over the registry and reports whether a stylus was found |
| Sketch.Sketch.FollowMouse | sketch.js:207-216 | the mouse branch leaves `input` equal to `MouseSense` and reports a menu hit |
| Sketch.Sketch.FollowTouches | sketch.js:217-234 | the touch branch leaves the scan's results in `input`, with the pen down exactly when a stylus was found |
| Sketch.Sketch.SenseInput | sketch.js:200-234 | the sensing part follows the mouse branch or the touch branch, as `Sense` does, and reports a menu hit |
| Sketch.Sketch.UpdateInput | sketch.js:180-285 | `input` becomes `StepInput` of the old state, and the invariant is kept |
| Numeric.Constrain | sketch.js:400 | the result lies in [low, high]: the value when it is already there, `low` below it and `high` above it |
| Numeric.MapRange | sketch.js:387-388 | an unclamped map is the linear map; a clamped one is the linear map inside the target bounds and the nearer bound outside them |
| Numeric.LinearMap | sketch.js:387-388 | the linear map sends the source start to the target start and the source stop to the target stop |
| Numeric.MapRangeMono | sketch.js:387-388 | with increasing ranges the map is monotone in its value |
| Numeric.LinearMapMono | sketch.js:387-388 | with increasing ranges the linear map is monotone |
| Numeric.ConstrainMono | sketch.js:387-388 | clamping to a valid range is monotone |
| Numeric.Trunc | sketch.js:402 | the quotient JavaScript's `%` uses is truncated toward zero: at most the value above zero and at least it below zero, within one |
| Numeric.JsRem | sketch.js:402 | the remainder takes the dividend's sign, is smaller than the modulus in magnitude, leaves values inside (-m, m) unchanged, and differs from the dividend by a whole multiple of the modulus |
| Mapping.ChromaFromDelta | sketch.js:387 | chroma stays in [0, 0.5] for every travel |
| Mapping.LuminanceFromDelta | sketch.js:388 | luminance stays in [0, 1] for every travel |
| Mapping.SizeFromDelta | sketch.js:412 | size stays in [4, 600] for every travel |
| Mapping.HueFromAngle | sketch.js:402-405 | the hue lies in [0, 360) and is the angle turned a quarter, lifted out of the negatives |
| Mapping.VarFromDistance | sketch.js:400-403 | the variation lies in [0, 360]: 360 at the centre and 0 at the rim and beyond |
| Mapping.ChromaAtRest | sketch.js:387 | zero travel reproduces the reference chroma when it is in range |
| Mapping.LuminanceAtRest | sketch.js:388 | zero travel reproduces the reference luminance when it is in range |
| Mapping.SizeAtRest | sketch.js:412 | zero travel reproduces the reference size when it is in range |
| Mapping.ChromaMonotone | sketch.js:387 | moving right never lowers the chroma |
| Mapping.LuminanceMonotone | sketch.js:388 | moving up never darkens |
| Mapping.SizeMonotone | sketch.js:412 | moving up never shrinks the brush |
| Mapping.VarRoundTrip | sketch.js:394-403 | the gadget centre is placed so that the anchor maps back to the reference variation |
| Mapping.HueRoundTrip | sketch.js:393-405 | whichever equal angle `atan2` reports for the anchor, the hue maps back to the reference hue |
| Mapping.Nudge | sketch.js:297-302 | the luminance moves 0.05 toward the middle, down exactly when above 0.5, and a value in range stays in [0.05, 0.95] |
| Frame.Capture | sketch.js:340-346 | a defined field is kept and an undefined one takes the current value |
| Frame.UpdateReference | sketch.js:336-356 | "draw" mode clears all seven fields; an adjustment mode leaves them all defined, never overwrites a complete snapshot, and fills an empty one from the current pen and brush |
| Frame.Anchor | sketch.js:377-382 | the travel is measured from the pen start point in pen mode, otherwise from the reference point |
| Frame.Adjust | sketch.js:375-413 | "lc" changes only chroma and luminance, "hue" only hue and variation, "size" only size, "draw" nothing; a brush in range stays in range |
| Frame.AdjustFollowsPen | sketch.js:379-412 | from the same anchor, moving the pen right never lowers the chroma, and moving it up never darkens or shrinks the brush |
| Frame.Emit | sketch.js:359-373 | a stamp exactly when the stamp tool's pen is down; a line exactly when the fan line tool's pen is down or the line tool's pen was just lifted; each mark's position, outline and segment |
| Frame.FrameStep | sketch.js:331-414 | a "draw" frame keeps the brush, clears the snapshot and paints the tool's mark; an adjustment frame paints nothing and leaves a complete snapshot; the brush stays in range |
| Frame.SnapshotStable | sketch.js:336-347 | within one adjustment session a second frame keeps the first frame's snapshot |
| Frame.FirstFrameAtRest | sketch.js:336-388 | entering "lc" or "size" with the mouse leaves the brush unchanged on the first frame |
| Frame.HueFirstFrameAtRest | sketch.js:390-405 | below full variation, entering "hue" at the anchor leaves the brush unchanged on the first frame |
| Frame.HueJumpAtFullVariation | sketch.js:393-405 | at full variation the gadget centre sits on the anchor, `atan2(0, 0)` gives 0, and the first "hue" frame turns the hue to 90 |
| Frame.LineOncePerLift | sketch.js:369-373 | the line tool paints only on the frame after the pen is lifted, and the next pointer or touch event, which runs `updateInput` first, cannot paint it again |
| Frame.RedrawRepaintsLine | sketch.js:306-311 | a redraw without `updateInput` (key press, key release, resize) after a line-tool lift paints the same line again |
| Sketch.Sketch.TakeSnapshot | sketch.js:336-356 | `refs` becomes `UpdateReference` of the old snapshot, the pen and the brush |
| Sketch.Sketch.AdjustBrush | sketch.js:375-413 | `brush` becomes `Adjust` of the old brush |
| Sketch.Sketch.Draw | sketch.js:331-414 | the brush, snapshot and mark are those of `FrameStep` (the mark is `Emit` of the input state), and the brush stays in range |
| Sketch.Sketch.ClearWithColor | sketch.js:289-302 | the background takes the brush colour, and only the brush luminance changes, by `Nudge` |
| Sketch.Sketch.KeyPressed | sketch.js:287-307 | 'c' clears with the brush colour; any defined key redraws as `FrameStep`; no key changes nothing but `visited` |
| Sketch.Sketch.KeyReleased | sketch.js:309-312 | a key release redraws as `FrameStep` |
| Sketch.Sketch.WindowResized | sketch.js:100-103 | a resize redraws as `FrameStep`, with the gadget radius unchanged |
| Sketch.Sketch.UpdateAndDraw | sketch.js:112-113 | `updateInput` then `draw()`: `StepInput`, then `FrameStep` on the new input state |
| Sketch.Sketch.HandleTouchStart | sketch.js:106-114 | registers the touches, sets `visited`, then updates and redraws |
| Sketch.Sketch.HandleTouchMove | sketch.js:115-125 | swaps in the moved touches, then updates and redraws |
| Sketch.Sketch.HandleTouchEnd | sketch.js:126-138 | removes the ended touches (all of them when none remain), then updates and redraws |
| Sketch.Sketch.MousePressed | sketch.js:154-160 | sets `visited`; acts as a "mousedown" only when the mouse is in use, and otherwise changes nothing else |
| Sketch.Sketch.MouseMoved | sketch.js:161-165 | puts the mouse in use, then acts as a "mousemove" |
| Sketch.Sketch.MouseDragged | sketch.js:166-172 | sets `visited`; acts as a "mousemove" only when the mouse is in use |
| Sketch.Sketch.MouseReleased | sketch.js:173-178 | acts as a "mouseup" only when the mouse is in use |
| Sketch.Sketch.constructor | sketch.js:65-97 | the state after `setup()` and its closing "draw" frame: pen at the centre, radius an eighth of the shorter side, initial brush and tool, no snapshot |
| Stamp.PressureFactor | sketch.js:453 | the pressure factor lies in [0.1, 0.9]: 0.1 at no pressure and 0.9 from 0.2 up |
| Stamp.RoundedWidth | sketch.js:452-454 | the width is the size without an angle, 0.7 of it with an angle only, and the pressure factor of it with both |
| Stamp.PressureNarrows | sketch.js:453 | with angle and pressure the width lies between 0.1 and 0.9 of the size |
| Stamp.RakeGap | sketch.js:460 | the gap lies in [0, 3]: 1 without pressure, 3 at no pressure, 0 from 0.2 up |
| Stamp.RakeOffset | sketch.js:463-466 | every one of the four circles lies inside the stamp's height |
| Stamp.JsRound | sketch.js:468 | `Math.round` gives the integer within half of the value, halves rounding up |
| Stamp.RakeSeed | sketch.js:468 | the seed is the circle index, shifted by the azimuth times six rounded |
| Stamp.DrawStamp | sketch.js:435-477 | upright without an azimuth, else the azimuth less a quarter turn; the rounded rectangle's width, height and size/4 corner; four rake circles with their offsets and seeds |
| Stamp.RakeSpansHeight | sketch.js:459-466 | the first circle touches the top edge, the last the bottom edge, and neighbours are a diameter plus a gap apart |
| Stamp.PlainRake | sketch.js:460-463 | a pressure-less rake's circles are each a seventh of the height |
| Stamp.LineSegment | sketch.js:487-497 | a segment is drawn exactly when all four coordinates are defined |
| Stamp.NoiseIndex | sketch.js:483 | an entry is read exactly when the seed is defined and its JavaScript remainder is a whole non-negative number, and then it is that remainder |
| Stamp.NoiseIndexOfNat | sketch.js:483 | a whole non-negative seed reads the entry it is congruent to |
| Stamp.NoiseIndexOfInt | sketch.js:483 | a whole non-negative seed reads the entry it is congruent to; a whole negative seed reads entry 0 when the length divides it and `undefined` otherwise |
| Stamp.JitteredHue | sketch.js:479-484 | the tinted hue is defined exactly when the noise lookup is |
| Stamp.JitterWithinVariation | sketch.js:483 | with strengths in [0, 1] the tinted hue lies within one eased variation above the brush hue |

## Left out

- Rendering: `updateUI`, `drawCrosshair`, `drawGradientLine`, `drawHueCircle`,
  the p5 shape and transform calls, the buffers and `image`. These are pure
  output; the model returns marks and shapes as values instead.
- `okhex` and `chroma.oklch`, colour conversion in a library outside this
  file. Colours are left as their (luminance, chroma, hue) inputs;
  `Stamp.JitteredHue` gives the hue handed to `okhex`.
- `easeInCirc`, `easeOutCubic` and `easedHueVar`: square-root and power
  curves. The eased size is the parameter `ease` and the eased hue
  variation is the parameter `hueVar`.
- The trigonometry of the "hue" branch (`atan2`, `cos`, `sin`, `dist`). The
  angle and distance are the input `HueProbe`. `Mapping.HueRoundTrip` and
  `Mapping.VarRoundTrip` assume the angle and distance the centre placement
  produces, rather than deriving them from `cos` and `sin`.
- `random()` filling the noise table: the table is a constructor parameter.
- `saveCanvas` (the 's' key), `bufferGraphics.background`, the
  `document.body.style` writes, `print` and `preventDefault`: I/O and DOM.
- Browser event wiring, `keyIsDown`, `mouseX`/`mouseY`, `width`/`height`:
  inputs to the handlers.
- The canvas resize in `windowResized`. Only the redraw that follows it is
  modelled.
- IEEE floating-point rounding and `NaN` arithmetic. Numbers are reals, and a
  product with an undefined factor is recorded as "no value".
- The `event === undefined` guard of `updateInput` and the
  `uiGraphics === undefined` guard of `draw()`. The handlers always pass an
  event, and the model starts after `setup()` has created the buffers.
- The hue at full variation: when the variation is 360 the gadget centre sits
  on the anchor, `atan2(0, 0)` is 0, and the first "hue" frame turns the hue
  to 90 whatever it was (`Frame.HueJumpAtFullVariation`). This is the code's
  behaviour and the model keeps it.
- The line colour seed: a line's colour seed is kept as its two factors, not
  multiplied out and looked up.
- Sketch.Sketch.constructor: assumes no key is held while `setup()` runs,
  so its closing frame is in "draw" mode.
