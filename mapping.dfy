/**
 * The brush-parameter mappings of `draw`'s adjustment modes: pointer travel
 * relative to the anchor, scaled by the gadget radius, moves chroma,
 * luminance, size, hue and hue variation, each clamped to its range.
 */
module Mapping {
  import opened Numeric

  /** Chroma from horizontal travel: `rangeX` of travel spans the whole [0, 0.5] range. */
  function ChromaFromDelta(deltaX: real, rangeX: real, refChroma: real): (c: real)
    requires rangeX > 0.0
    ensures 0.0 <= c <= 0.5
  {
    MapRange(deltaX + rangeX * (refChroma * 2.0), 0.0, rangeX, 0.0, 0.5, true)
  }

  /** Luminance from vertical travel: moving up brightens, over [0, 1]. */
  function LuminanceFromDelta(deltaY: real, rangeY: real, refLuminance: real): (l: real)
    requires rangeY > 0.0
    ensures 0.0 <= l <= 1.0
  {
    MapRange(-deltaY + rangeY * refLuminance, 0.0, rangeY, 0.0, 1.0, true)
  }

  /** Brush size from vertical travel: moving up enlarges, over [4, 600]. */
  function SizeFromDelta(deltaY: real, rangeY: real, refSize: real): (z: real)
    requires rangeY > 0.0
    ensures 4.0 <= z <= 600.0
  {
    MapRange(-deltaY + rangeY * MapRange(refSize, 4.0, 600.0, 0.0, 1.0, false), 0.0, rangeY, 4.0, 600.0, true)
  }

  /**
   * The hue from the pointer's angle around the gadget centre, in degrees as
   * `atan2` gives it: the angle turned a quarter so that "up" is hue 0, then
   * reduced with JavaScript's `%` and lifted out of the negatives.
   */
  function HueFromAngle(angleDeg: real): (h: real)
    ensures 0.0 <= h < 360.0
    ensures -90.0 <= angleDeg < 270.0 ==> h == angleDeg + 90.0
    ensures -450.0 < angleDeg < -90.0 ==> h == angleDeg + 450.0
  {
    var h0 := JsRem(angleDeg + 90.0, 360.0);
    if h0 < 0.0 then h0 + 360.0 else h0
  }

  /** Hue variation from the pointer's distance to the centre: 360 at the centre, 0 at the rim and beyond. */
  function VarFromDistance(distance: real, radius: real): (v: real)
    requires radius > 0.0
    ensures 0.0 <= v <= 360.0
    ensures distance <= 0.0 ==> v == 360.0
    ensures distance >= radius ==> v == 0.0
  {
    var r := Constrain(distance, 0.0, radius);
    DivBounds(r, radius);
    (1.0 - r / radius) * 360.0
  }

  /** The distance of the anchor from the gadget centre for a given hue variation. */
  function StartRadius(refVar: real, radius: real): real {
    radius * (1.0 - refVar / 360.0)
  }

  /** The centre is placed so that the anchor itself maps back to the reference variation. */
  lemma VarRoundTrip(refVar: real, radius: real)
    requires radius > 0.0 && 0.0 <= refVar <= 360.0
    ensures 0.0 <= StartRadius(refVar, radius) <= radius
    ensures VarFromDistance(StartRadius(refVar, radius), radius) == refVar
  {
    var f := 1.0 - refVar / 360.0;
    assert 0.0 <= f <= 1.0;
    MulMono(radius, 0.0, f);
    MulMono(radius, f, 1.0);
    var d := StartRadius(refVar, radius);
    assert d == radius * f;
    DivCancel(radius, f);
    assert d / radius == f;
  }

  /**
   * The centre is placed so that the anchor lies at the reference hue's
   * angle: whichever of the two equal angles `atan2` reports, the hue maps
   * back to the reference hue.
   */
  lemma HueRoundTrip(refHue: real, angleDeg: real)
    requires 0.0 <= refHue < 360.0
    requires -180.0 <= angleDeg <= 180.0
    requires angleDeg == refHue - 90.0 || angleDeg == refHue - 450.0
    ensures HueFromAngle(angleDeg) == refHue
  {
  }

  /** With no pointer travel the chroma is the reference chroma, whenever that is in range. */
  lemma ChromaAtRest(rangeX: real, refChroma: real)
    requires rangeX > 0.0 && 0.0 <= refChroma <= 0.5
    ensures ChromaFromDelta(0.0, rangeX, refChroma) == refChroma
  {
    DivCancel(rangeX, refChroma * 2.0);
    assert LinearMap(0.0 + rangeX * (refChroma * 2.0), 0.0, rangeX, 0.0, 0.5) == refChroma;
  }

  /** With no pointer travel the luminance is the reference luminance, whenever that is in range. */
  lemma LuminanceAtRest(rangeY: real, refLuminance: real)
    requires rangeY > 0.0 && 0.0 <= refLuminance <= 1.0
    ensures LuminanceFromDelta(0.0, rangeY, refLuminance) == refLuminance
  {
    DivCancel(rangeY, refLuminance);
    assert LinearMap(-0.0 + rangeY * refLuminance, 0.0, rangeY, 0.0, 1.0) == refLuminance;
  }

  /** With no pointer travel the size is the reference size, whenever that is in range. */
  lemma SizeAtRest(rangeY: real, refSize: real)
    requires rangeY > 0.0 && 4.0 <= refSize <= 600.0
    ensures SizeFromDelta(0.0, rangeY, refSize) == refSize
  {
    var u := MapRange(refSize, 4.0, 600.0, 0.0, 1.0, false);
    assert u == (refSize - 4.0) / 596.0;
    DivCancel(rangeY, u);
    assert LinearMap(-0.0 + rangeY * u, 0.0, rangeY, 4.0, 600.0) == refSize;
  }

  /** Moving right never lowers the chroma. */
  lemma ChromaMonotone(dx1: real, dx2: real, rangeX: real, refChroma: real)
    requires rangeX > 0.0 && dx1 <= dx2
    ensures ChromaFromDelta(dx1, rangeX, refChroma) <= ChromaFromDelta(dx2, rangeX, refChroma)
  {
    var base := rangeX * (refChroma * 2.0);
    MapRangeMono(dx1 + base, dx2 + base, 0.0, rangeX, 0.0, 0.5, true);
  }

  /** Moving up never darkens. */
  lemma LuminanceMonotone(dy1: real, dy2: real, rangeY: real, refLuminance: real)
    requires rangeY > 0.0 && dy1 <= dy2
    ensures LuminanceFromDelta(dy2, rangeY, refLuminance) <= LuminanceFromDelta(dy1, rangeY, refLuminance)
  {
    var base := rangeY * refLuminance;
    MapRangeMono(-dy2 + base, -dy1 + base, 0.0, rangeY, 0.0, 1.0, true);
  }

  /** Moving up never shrinks the brush. */
  lemma SizeMonotone(dy1: real, dy2: real, rangeY: real, refSize: real)
    requires rangeY > 0.0 && dy1 <= dy2
    ensures SizeFromDelta(dy2, rangeY, refSize) <= SizeFromDelta(dy1, rangeY, refSize)
  {
    var base := rangeY * MapRange(refSize, 4.0, 600.0, 0.0, 1.0, false);
    MapRangeMono(-dy2 + base, -dy1 + base, 0.0, rangeY, 4.0, 600.0, true);
  }

  /**
   * The luminance nudge of "clear with colour": 0.05 toward the middle, so a
   * brush colour in range stays in range and differs from the new background.
   */
  function Nudge(l: real): (r: real)
    ensures r == l - 0.05 || r == l + 0.05
    ensures r < l <==> l > 0.5
    ensures 0.0 <= l <= 1.0 ==> 0.05 <= r <= 0.95
  {
    if l > 0.5 then l - 0.05 else l + 0.05
  }
}
