/**
 * `gradient` (objgraph.py:714-724): a colour in hue/saturation/value space,
 * interpolated linearly by the fraction depth / max_depth. Colours are
 * modelled over exact reals, not floats.
 */
module Colors {

  datatype Hsv = Hsv(h: real, s: real, v: real)

  function Lerp(a: real, b: real, f: real): real {
    a * (1.0 - f) + b * f
  }

  function Gradient(start: Hsv, end: Hsv, depth: int, maxDepth: int): (c: Hsv)
    ensures maxDepth == 0 ==> c == start
    ensures depth == 0 ==> c == start
    ensures maxDepth != 0 && depth == maxDepth ==> c == end
  {
    if maxDepth == 0 then start
    else
      var f := depth as real / maxDepth as real;
      Hsv(Lerp(start.h, end.h, f), Lerp(start.s, end.s, f), Lerp(start.v, end.v, f))
  }

  predicate Between(x: real, a: real, b: real) {
    (a <= x <= b) || (b <= x <= a)
  }

  lemma MulNonneg(x: real, y: real)
    requires x >= 0.0 && y >= 0.0
    ensures x * y >= 0.0
  {
  }

  lemma LerpBetween(a: real, b: real, f: real)
    requires 0.0 <= f <= 1.0
    ensures Between(Lerp(a, b, f), a, b)
  {
    assert Lerp(a, b, f) - a == (b - a) * f;
    assert b - Lerp(a, b, f) == (b - a) * (1.0 - f);
    if a <= b {
      MulNonneg(b - a, f);
      MulNonneg(b - a, 1.0 - f);
    } else {
      MulNonneg(a - b, f);
      MulNonneg(a - b, 1.0 - f);
    }
  }

  lemma LerpMonotone(a: real, b: real, f1: real, f2: real)
    requires f1 <= f2
    ensures a >= b ==> Lerp(a, b, f1) >= Lerp(a, b, f2)
    ensures a <= b ==> Lerp(a, b, f1) <= Lerp(a, b, f2)
  {
    assert Lerp(a, b, f2) - Lerp(a, b, f1) == (b - a) * (f2 - f1);
    if a >= b {
      MulNonneg(a - b, f2 - f1);
    } else {
      MulNonneg(b - a, f2 - f1);
    }
  }

  lemma FractionInUnit(depth: int, maxDepth: int)
    requires 0 <= depth <= maxDepth && maxDepth != 0
    ensures 0.0 <= depth as real / maxDepth as real <= 1.0
  {
  }

  /** Within 0 <= depth <= max_depth every channel stays between its two ends. */
  lemma GradientBetween(start: Hsv, end: Hsv, depth: int, maxDepth: int)
    requires 0 <= depth <= maxDepth
    ensures var c := Gradient(start, end, depth, maxDepth);
      Between(c.h, start.h, end.h) && Between(c.s, start.s, end.s) && Between(c.v, start.v, end.v)
  {
    if maxDepth != 0 {
      var f := depth as real / maxDepth as real;
      FractionInUnit(depth, maxDepth);
      LerpBetween(start.h, end.h, f);
      LerpBetween(start.s, end.s, f);
      LerpBetween(start.v, end.v, f);
    }
  }

  /** Deeper is darker: a falling value channel falls with depth. */
  lemma GradientDarkens(start: Hsv, end: Hsv, d1: int, d2: int, maxDepth: int)
    requires 0 <= d1 <= d2 <= maxDepth
    requires start.v >= end.v
    ensures Gradient(start, end, d1, maxDepth).v >= Gradient(start, end, d2, maxDepth).v
  {
    if maxDepth != 0 {
      var m := maxDepth as real;
      assert d1 as real / m <= d2 as real / m by {
        assert d2 as real / m - d1 as real / m == (d2 - d1) as real / m;
      }
      LerpMonotone(start.v, end.v, d1 as real / m, d2 as real / m);
    }
  }
}
