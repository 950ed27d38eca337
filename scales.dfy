/**
 * The plot area and the two position scales of src/index.js.
 *
 * Both scales are d3 continuous linear scales with fixed domains and
 * ranges; they are modelled over exact reals and, like d3's default,
 * they extrapolate outside the domain instead of clamping.
 */
module Scales {
  /** The svg margins around the plot group. */
  datatype Margin = Margin(top: int, right: int, bottom: int, left: int)

  const margin: Margin := Margin(100, 150, 100, 75)

  /** Plot width and height: the 800 x 700 canvas less the margins. */
  const Width: int := 800 - margin.left - margin.right
  const Height: int := 700 - margin.top - margin.bottom

  lemma PlotArea()
    ensures Width == 575 && Height == 500
  {
  }

  /**
   * A linear scale from domain [d0, d1] to range [r0, r1]: the input's
   * position t within the domain, interpolated between the range ends.
   */
  function Linear(d0: real, d1: real, r0: real, r1: real, x: real): (y: real)
    requires d0 != d1
    ensures x == d0 ==> y == r0
    ensures x == d1 ==> y == r1
  {
    var t := (x - d0) / (d1 - d0);
    r0 * (1.0 - t) + r1 * t
  }

  /** A linear scale moves its output by the slope (r1 - r0) / (d1 - d0). */
  lemma LinearSlope(d0: real, d1: real, r0: real, r1: real, x: real, x': real)
    requires d0 != d1
    ensures Linear(d0, d1, r0, r1, x') - Linear(d0, d1, r0, r1, x) == (x' - x) * ((r1 - r0) / (d1 - d0))
  {
    var t, t' := (x - d0) / (d1 - d0), (x' - d0) / (d1 - d0);
    assert t' - t == (x' - x) / (d1 - d0);
    calc {
      Linear(d0, d1, r0, r1, x') - Linear(d0, d1, r0, r1, x);
      (r0 * (1.0 - t') + r1 * t') - (r0 * (1.0 - t) + r1 * t);
      (t' - t) * (r1 - r0);
      (x' - x) / (d1 - d0) * (r1 - r0);
    }
  }

  /** The scale back from a linear scale's range to its domain (d3's invert). */
  lemma LinearInverse(d0: real, d1: real, r0: real, r1: real, x: real)
    requires d0 != d1 && r0 != r1
    ensures Linear(r0, r1, d0, d1, Linear(d0, d1, r0, r1, x)) == x
  {
    var y := Linear(d0, d1, r0, r1, x);
    var t := (x - d0) / (d1 - d0);
    assert y - r0 == t * (r1 - r0);
    assert (y - r0) / (r1 - r0) == t;
    assert d0 * (1.0 - t) + d1 * t == d0 + t * (d1 - d0);
    assert t * (d1 - d0) == x - d0;
  }

  /** xScale: seconds behind the anchor, domain [210, 0] onto [0, width]. */
  function XScale(seconds: real): real
  {
    Linear(210.0, 0.0, 0.0, Width as real, seconds)
  }

  /** yScale: place, domain [1, 36] onto [0, height]. */
  function YScale(place: real): real
  {
    Linear(1.0, 36.0, 0.0, Height as real, place)
  }

  /** xScale.invert and yScale.invert. */
  function XInvert(px: real): real
  {
    Linear(0.0, Width as real, 210.0, 0.0, px)
  }

  function YInvert(py: real): real
  {
    Linear(0.0, Height as real, 1.0, 36.0, py)
  }

  /** xScale(210) = 0, xScale(0) = width, and fewer seconds plot further right. */
  lemma XScaleEndpointsAndOrder(s: real, s': real)
    ensures XScale(210.0) == 0.0 && XScale(0.0) == 575.0
    ensures s < s' <==> XScale(s) > XScale(s')
  {
    LinearSlope(210.0, 0.0, 0.0, Width as real, s, s');
  }

  /** yScale(1) = 0, yScale(36) = height, and higher places plot further down. */
  lemma YScaleEndpointsAndOrder(p: real, p': real)
    ensures YScale(1.0) == 0.0 && YScale(36.0) == 500.0
    ensures p < p' <==> YScale(p) < YScale(p')
  {
    LinearSlope(1.0, 36.0, 0.0, Height as real, p, p');
  }

  /** Outside the domain the scales extrapolate: no clamping. */
  lemma ScalesUnclamped()
    ensures XScale(-210.0) == 1150.0 && XScale(420.0) == -575.0
    ensures YScale(71.0) == 1000.0
  {
  }

  /** Each scale and its inverse undo one another. */
  lemma ScalesInvert(v: real)
    ensures XInvert(XScale(v)) == v && XScale(XInvert(v)) == v
    ensures YInvert(YScale(v)) == v && YScale(YInvert(v)) == v
  {
    LinearInverse(210.0, 0.0, 0.0, Width as real, v);
    LinearInverse(0.0, Width as real, 210.0, 0.0, v);
    LinearInverse(1.0, 36.0, 0.0, Height as real, v);
    LinearInverse(0.0, Height as real, 1.0, 36.0, v);
  }
}
