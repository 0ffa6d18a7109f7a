/**
 * What `drawStamp`, `drawWithLine` and `brushHexWithHueVarSeed` would put on
 * the canvas, as values: the stamp's outline, the line's endpoints, and
 * which entry of the noise table tints a mark.
 */
module Stamp {
  import opened Options
  import opened Numeric
  import opened Menu

  /** `Math.round`: halves round up. */
  function JsRound(x: real): (n: int)
    ensures n as real - 0.5 <= x < n as real + 0.5
  {
    (x + 0.5).Floor
  }

  /**
   * The net rotation of a stamp: upright when the pen reports no azimuth
   * (the quarter turns cancel), otherwise the azimuth less a quarter turn.
   */
  datatype Rotation = Upright | AzimuthLessQuarter(azimuth: real)

  /**
   * A stamp's outline, centred on the pen: a rounded rectangle, four rake
   * circles (their vertical centre offsets and their colour seeds), or
   * nothing for an undefined texture.
   */
  datatype Outline =
    | RoundedRect(width: real, height: real, corner: real)
    | RakeCircles(diameter: real, offsets: seq<real>, seeds: seq<int>)
    | NoOutline

  datatype StampShape = StampShape(rotation: Rotation, outline: Outline)

  const CircleCount: nat := 4

  /** The pressure's narrowing factor: 0.1 at no pressure up to 0.9 at a pressure of 0.2 or more. */
  function PressureFactor(pressure: real): (f: real)
    ensures 0.1 <= f <= 0.9
    ensures pressure <= 0.0 ==> f == 0.1
    ensures pressure >= 0.2 ==> f == 0.9
  {
    MapRange(pressure, 0.0, 0.2, 0.1, 0.9, true)
  }

  /** The rounded stamp's width: narrowed by the pen's pressure, or to 0.7 with tilt only. */
  function RoundedWidth(size: real, angle: Option<real>, pressure: Option<real>): (w: real)
    ensures angle.None? ==> w == size
    ensures angle.Some? && pressure.None? ==> w == size * 0.7
    ensures angle.Some? && pressure.Some? ==> w == size * PressureFactor(pressure.value)
  {
    if angle.Some? then
      if pressure.Some? then size * PressureFactor(pressure.value)
      else size * 0.7
    else size
  }

  /** A pencil's pressure keeps the rounded stamp between a tenth and nine tenths of its size. */
  lemma PressureNarrows(size: real, angle: real, pressure: real)
    requires size >= 0.0
    ensures size * 0.1 <= RoundedWidth(size, Some(angle), Some(pressure))
    ensures RoundedWidth(size, Some(angle), Some(pressure)) <= size * 0.9
  {
    var w := RoundedWidth(size, Some(angle), Some(pressure));
    ScaleBetween(size, PressureFactor(pressure), 0.1, 0.9);
    assert w <= size * 0.9;
  }

  lemma ScaleBetween(size: real, f: real, lo: real, hi: real)
    requires lo <= f <= hi
    ensures size >= 0.0 ==> size * lo <= size * f <= size * hi
  {
    if size > 0.0 {
      MulMono(size, lo, f);
      MulMono(size, f, hi);
    }
  }

  /** The rake's gap, in circle diameters: 1 without pressure, shrinking from 3 to 0 as pressure grows to 0.2. */
  function RakeGap(pressure: Option<real>): (g: real)
    ensures 0.0 <= g <= 3.0
    ensures pressure.None? ==> g == 1.0
    ensures pressure.Some? && pressure.value <= 0.0 ==> g == 3.0
    ensures pressure.Some? && pressure.value >= 0.2 ==> g == 0.0
  {
    if pressure.Some? then MapRange(pressure.value, 0.0, 0.2, 3.0, 0.0, true) else 1.0
  }

  /** The diameter that makes four circles and three gaps fill the stamp's height. */
  function RakeDiameter(height: real, gap: real): real
    requires gap >= 0.0
  {
    height / ((CircleCount - 1) as real * gap + CircleCount as real)
  }

  /** The vertical centre of rake circle `i`. */
  function RakeOffset(height: real, gap: real, i: nat): (y: real)
    requires gap >= 0.0
    ensures 0.0 <= height && i < CircleCount ==>
      -height / 2.0 <= y - RakeDiameter(height, gap) / 2.0 &&
      y + RakeDiameter(height, gap) / 2.0 <= height / 2.0
  {
    var cs := RakeDiameter(height, gap);
    var y := -height * 0.5 + cs / 2.0 + i as real * (cs * (1.0 + gap));
    if 0.0 <= height && i < CircleCount then RakeFits(height, gap, cs, i); y else y
  }

  /** Every circle of the rake lies inside the stamp's height. */
  lemma RakeFits(height: real, gap: real, cs: real, i: nat)
    requires 0.0 <= height && gap >= 0.0 && i < CircleCount
    requires cs == RakeDiameter(height, gap)
    ensures 0.0 <= i as real * (cs * (1.0 + gap))
    ensures cs + i as real * (cs * (1.0 + gap)) <= height
  {
    RakeDiameterFills(height, gap);
    StepNonneg(cs, gap);
    assert i == 0 || i == 1 || i == 2 || i == 3;
  }

  /** A rake step is never negative. */
  lemma StepNonneg(cs: real, gap: real)
    requires cs >= 0.0 && gap >= 0.0
    ensures cs * (1.0 + gap) >= 0.0
  {
    if cs > 0.0 {
      MulMono(cs, 0.0, 1.0 + gap);
    }
  }

  /** Four diameters and three gaps make up the height. */
  lemma RakeDiameterFills(height: real, gap: real)
    requires gap >= 0.0
    ensures RakeDiameter(height, gap) + 3.0 * (RakeDiameter(height, gap) * (1.0 + gap)) == height
    ensures 0.0 <= height ==> 0.0 <= RakeDiameter(height, gap)
  {
    var k := 3.0 * gap + 4.0;
    var cs := RakeDiameter(height, gap);
    assert cs == height / k;
    assert cs * k == height;
    assert cs + 3.0 * (cs * (1.0 + gap)) == cs * k;
    if 0.0 <= height {
      DivMono(0.0, height, k);
    }
  }

  /** The colour seed of rake circle `i`: its index, shifted by the rounded azimuth. */
  function RakeSeed(angle: Option<real>, i: nat): (seed: int)
    ensures angle.None? ==> seed == i
    ensures angle.Some? ==> (seed - i) as real - 0.5 <= angle.value * 6.0 < (seed - i) as real + 0.5
  {
    i + JsRound(if angle.Some? then angle.value * 6.0 else 0.0)
  }

  /** `drawStamp`'s geometry. */
  function DrawStamp(size: real, angle: Option<real>, pressure: Option<real>, texture: Option<Texture>): (s: StampShape)
    ensures s.rotation == (if angle.Some? then AzimuthLessQuarter(angle.value) else Upright)
    ensures texture == Some(Rounded) ==>
      s.outline == RoundedRect(RoundedWidth(size, angle, pressure), size, size / 4.0)
    ensures texture == Some(Rake) ==> (
      s.outline.RakeCircles? &&
      |s.outline.offsets| == CircleCount && |s.outline.seeds| == CircleCount &&
      s.outline.diameter == RakeDiameter(size, RakeGap(pressure)) &&
      (forall i :: 0 <= i < CircleCount ==>
        s.outline.offsets[i] == RakeOffset(size, RakeGap(pressure), i) &&
        s.outline.seeds[i] == RakeSeed(angle, i)))
    ensures texture.None? ==> s.outline == NoOutline
  {
    var rotation := if angle.Some? then AzimuthLessQuarter(angle.value) else Upright;
    match texture
    case Some(Rounded) =>
      StampShape(rotation, RoundedRect(RoundedWidth(size, angle, pressure), size, size / 4.0))
    case Some(Rake) =>
      var gap := RakeGap(pressure);
      StampShape(rotation, RakeCircles(
        RakeDiameter(size, gap),
        seq(CircleCount, i requires 0 <= i < CircleCount => RakeOffset(size, gap, i)),
        seq(CircleCount, i requires 0 <= i < CircleCount => RakeSeed(angle, i))))
    case None => StampShape(rotation, NoOutline)
  }

  /**
   * The rake's circles exactly cover the stamp's height: the first touches
   * the top edge, the last the bottom edge, and neighbours are a diameter
   * plus a gap apart.
   */
  lemma RakeSpansHeight(size: real, pressure: Option<real>)
    ensures var gap := RakeGap(pressure);
      var cs := RakeDiameter(size, gap);
      RakeOffset(size, gap, 0) - cs / 2.0 == -size / 2.0 &&
      RakeOffset(size, gap, CircleCount - 1) + cs / 2.0 == size / 2.0 &&
      forall i: nat :: i + 1 < CircleCount ==>
        RakeOffset(size, gap, i + 1) - RakeOffset(size, gap, i) == cs * (1.0 + gap)
  {
    var gap := RakeGap(pressure);
    RakeBottomEdge(size, gap);
    forall i: nat | i + 1 < CircleCount
      ensures RakeOffset(size, gap, i + 1) - RakeOffset(size, gap, i) == RakeDiameter(size, gap) * (1.0 + gap)
    {
      RakeStep(size, gap, i);
    }
  }

  /** The last rake circle touches the bottom edge. */
  lemma RakeBottomEdge(size: real, gap: real)
    requires gap >= 0.0
    ensures RakeOffset(size, gap, CircleCount - 1) + RakeDiameter(size, gap) / 2.0 == size / 2.0
  {
    var cs := RakeDiameter(size, gap);
    assert cs * (3.0 * gap + 4.0) == size;
    assert RakeOffset(size, gap, 3) + cs / 2.0 == -size * 0.5 + cs + 3.0 * (cs * (1.0 + gap));
  }

  /** Neighbouring rake circles are one step apart. */
  lemma RakeStep(size: real, gap: real, i: nat)
    requires gap >= 0.0
    ensures RakeOffset(size, gap, i + 1) - RakeOffset(size, gap, i) == RakeDiameter(size, gap) * (1.0 + gap)
  {
    var step := RakeDiameter(size, gap) * (1.0 + gap);
    assert (i + 1) as real * step == i as real * step + step;
  }

  /** A pressure-less rake has equal circles and gaps, each a seventh of the height. */
  lemma PlainRake(size: real)
    ensures RakeDiameter(size, RakeGap(None)) == size / 7.0
  {
  }

  datatype Segment = Segment(xa: real, ya: real, xb: real, yb: real, weight: real)

  /** `drawWithLine`: nothing is drawn unless all four coordinates are defined. */
  function LineSegment(xa: Option<real>, ya: Option<real>, xb: Option<real>, yb: Option<real>, weight: real): (r: Option<Segment>)
    ensures r.Some? <==> xa.Some? && ya.Some? && xb.Some? && yb.Some?
    ensures r.Some? ==>
      r.value == Segment(xa.value, ya.value, xb.value, yb.value, weight)
  {
    if xa.None? || ya.None? || xb.None? || yb.None? then None
    else Some(Segment(xa.value, ya.value, xb.value, yb.value, weight))
  }

  /** The length of the noise table. */
  const NoiseLength: nat := 128

  /**
   * The entry of an `n`-entry table that `strengths[seed % n]` reads: only a
   * remainder that is a whole number in [0, n) names an entry; an undefined
   * seed, a fractional seed or a negative remainder reads `undefined`.
   */
  function NoiseIndex(seed: Option<real>, n: nat): (r: Option<nat>)
    requires n > 0
    ensures r.Some? ==> seed.Some? && r.value < n && r.value as real == JsRem(seed.value, n as real)
    ensures r.Some? <==>
      seed.Some? && 0.0 <= JsRem(seed.value, n as real) &&
      JsRem(seed.value, n as real).Floor as real == JsRem(seed.value, n as real)
  {
    if seed.None? then None
    else
      var rem := JsRem(seed.value, n as real);
      if 0.0 <= rem && rem.Floor as real == rem then Some(rem.Floor) else None
  }

  /** A whole, non-negative seed reads the entry it is congruent to. */
  lemma NoiseIndexOfNat(k: nat, n: nat)
    requires n > 0
    ensures NoiseIndex(Some(k as real), n) == Some(k % n)
  {
    RealQuotient(k, n);
    var rem := JsRem(k as real, n as real);
    assert rem == (k % n) as real;
    assert rem.Floor == k % n;
  }

  /** Real division of naturals rounds down to their integer quotient. */
  lemma RealQuotient(k: nat, n: nat)
    requires n > 0
    ensures Trunc(k as real / n as real) == k / n
    ensures k as real - n as real * (k / n) as real == (k % n) as real
  {
    var q := k / n;
    var r := k % n;
    assert k == n * q + r;
    assert k as real == n as real * q as real + r as real;
    var x := k as real / n as real;
    assert x == q as real + r as real / n as real;
    DivBounds(r as real, n as real);
    assert x.Floor == q;
  }

  /**
   * Every whole seed: a non-negative one reads the entry it is congruent to;
   * a negative one has a negative remainder, so it reads `undefined` unless
   * it is a whole number of laps, which reads the first entry.
   */
  lemma NoiseIndexOfInt(k: int, n: nat)
    requires n > 0
    ensures k >= 0 ==> NoiseIndex(Some(k as real), n) == Some(k % n)
    ensures k < 0 ==> NoiseIndex(Some(k as real), n) == if (-k) % n == 0 then Some(0) else None
  {
    if k >= 0 {
      NoiseIndexOfNat(k, n);
    } else {
      var j: nat := -k;
      RealQuotient(j, n);
      assert k as real / n as real == -(j as real / n as real);
      assert Trunc(k as real / n as real) == -(j / n);
      var rem := JsRem(k as real, n as real);
      assert rem == -((j % n) as real);
      if j % n != 0 {
        assert rem < 0.0;
      }
    }
  }

  /**
   * `brushHexWithHueVarSeed`'s hue: the brush hue shifted by the looked-up
   * noise strength times the eased hue variation; `None` where that reads
   * `undefined`.
   */
  function JitteredHue(brushHue: real, strengths: seq<real>, seed: Option<real>, hueVar: real): (h: Option<real>)
    requires |strengths| > 0
    ensures h.Some? <==> NoiseIndex(seed, |strengths|).Some?
  {
    match NoiseIndex(seed, |strengths|)
    case Some(i) => Some(brushHue + strengths[i] * hueVar)
    case None => None
  }

  /** With strengths in [0, 1] the jitter stays within one hue variation above the brush hue. */
  lemma JitterWithinVariation(brushHue: real, strengths: seq<real>, seed: Option<real>, hueVar: real)
    requires |strengths| > 0 && hueVar >= 0.0
    requires forall i :: 0 <= i < |strengths| ==> 0.0 <= strengths[i] <= 1.0
    requires JitteredHue(brushHue, strengths, seed, hueVar).Some?
    ensures brushHue <= JitteredHue(brushHue, strengths, seed, hueVar).value <= brushHue + hueVar
  {
    var i := NoiseIndex(seed, |strengths|).value;
    ScaleBetween(hueVar, strengths[i], 0.0, 1.0);
    assert 0.0 <= strengths[i] * hueVar <= hueVar;
    assert JitteredHue(brushHue, strengths, seed, hueVar).value == brushHue + strengths[i] * hueVar;
  }
}
