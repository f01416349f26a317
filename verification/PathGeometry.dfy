/**
 Distances to a sampled path (the trajectory test of crates/core/src/ghost_validation.rs): the clamped
 projection finds the nearest point of a segment, and the clamped window of a pair of samples holds exactly
 the points the pair passes within one interval of a time.
 */
module PathGeometry {
  import opened SweptQuery

  function Abs(x: real): real { if x < 0.0 then -x else x }

  lemma AbsMeans(x: real, bound: real)
    ensures Abs(x) <= bound <==> -bound <= x <= bound
  {
  }

  function Times(x: real, y: real): real { x * y }

  function Squared(a: Vec, b: Vec): real
  {
    Times(a.x - b.x, a.x - b.x) + Times(a.y - b.y, a.y - b.y) + Times(a.z - b.z, a.z - b.z)
  }

  lemma Positive(x: real, y: real)
    requires x > 0.0 && y > 0.0
    ensures Times(x, y) > 0.0
  {
  }

  lemma Mirrored(x: real)
    ensures Times(-x, -x) == Times(x, x)
  {
  }

  lemma Square(x: real)
    ensures Times(x, x) >= 0.0 && (Times(x, x) == 0.0 <==> x == 0.0)
    ensures Times(x, x) == Times(-x, -x)
  {
    Mirrored(x);
    if x > 0.0 {
      Positive(x, x);
    } else if x < 0.0 {
      Positive(-x, -x);
    } else {
      assert Times(x, x) == 0.0;
    }
    hide Times;
  }

  /** It vanishes only at the point itself, whichever axis separates the two. */
  lemma SquaredSeparates(a: Vec, b: Vec)
    ensures Squared(a, b) == Squared(b, a) >= 0.0 && (Squared(a, b) == 0.0 <==> a == b)
  {
    Square(a.x - b.x);
    Square(a.y - b.y);
    Square(a.z - b.z);
    hide Times;
    assert b.x - a.x == -(a.x - b.x) && b.y - a.y == -(a.y - b.y) && b.z - a.z == -(a.z - b.z);
  }

  function Clamp(x: real): real { if x < 0.0 then 0.0 else if x > 1.0 then 1.0 else x }

  function Between(a: Vec, b: Vec, fraction: real): Vec
  {
    Vec(Mix(a.x, b.x, fraction), Mix(a.y, b.y, fraction), Mix(a.z, b.z, fraction))
  }

  /** From one end to the other, in proportion to the fraction. */
  lemma BetweenMeans(a: Vec, b: Vec, fraction: real)
    ensures Between(a, b, 0.0) == a && Between(a, b, 1.0) == b
    ensures Squared(a, Between(a, b, fraction)) == fraction * fraction * Squared(a, b)
  {
    MixEnds(a.x, b.x);
    MixEnds(a.y, b.y);
    MixEnds(a.z, b.z);
    var k := fraction * fraction;
    Scaled(a.x, b.x, fraction);
    Scaled(a.y, b.y, fraction);
    Scaled(a.z, b.z, fraction);
    hide Mix, Times;
    Distribute(k, Times(a.x - b.x, a.x - b.x), Times(a.y - b.y, a.y - b.y), Times(a.z - b.z, a.z - b.z));
  }

  lemma MixEnds(a: real, b: real)
    ensures Mix(a, b, 0.0) == a && Mix(a, b, 1.0) == b
  {
  }

  lemma Scaled(a: real, b: real, f: real)
    ensures Times(a - Mix(a, b, f), a - Mix(a, b, f)) == f * f * Times(a - b, a - b)
  {
    assert a - Mix(a, b, f) == (a - b) * f by { assert (b - a) * f == -((a - b) * f); }
    Rearrange(a - b, f);
  }

  lemma Rearrange(d: real, f: real)
    ensures (d * f) * (d * f) == f * f * (d * d)
  {
  }

  lemma Distribute(k: real, x: real, y: real, z: real)
    ensures k * x + k * y + k * z == k * (x + y + z)
  {
  }

  // ---------------------------------------------------------------- the nearest point of a segment

  /** `(point - start).dot(end - start)`. */
  function Dot(point: Vec, start: Vec, end: Vec): real
  {
    Times(point.x - start.x, end.x - start.x) + Times(point.y - start.y, end.y - start.y)
    + Times(point.z - start.z, end.z - start.z)
  }

  /** Where the source projects a point to. */
  function Nearest(point: Vec, start: Vec, end: Vec): real
  {
    var length := Squared(start, end);
    if length > 0.0 then Clamp(Dot(point, start, end) / length) else 0.0
  }

  /** Squared distance from a point to a segment. */
  function SegmentDistance(point: Vec, start: Vec, end: Vec): real
  {
    Squared(point, Between(start, end, Nearest(point, start, end)))
  }

  /** No point of the segment is nearer, and one is that near. */
  lemma SegmentDistanceIsLeast(point: Vec, start: Vec, end: Vec)
    ensures forall f | 0.0 <= f <= 1.0 :: SegmentDistance(point, start, end) <= Squared(point, Between(start, end, f))
    ensures exists f :: 0.0 <= f <= 1.0 && SegmentDistance(point, start, end) == Squared(point, Between(start, end, f))
  {
    NearestIsFraction(point, start, end);
    forall f | 0.0 <= f <= 1.0 ensures SegmentDistance(point, start, end) <= Squared(point, Between(start, end, f)) {
      NothingNearer(point, start, end, f);
    }
    hide Squared, Between, Nearest;
    var g := Nearest(point, start, end);
    assert SegmentDistance(point, start, end) == Squared(point, Between(start, end, g));
  }

  lemma NearestIsFraction(point: Vec, start: Vec, end: Vec)
    ensures 0.0 <= Nearest(point, start, end) <= 1.0
  {
    hide Squared, Dot;
  }

  lemma NothingNearer(point: Vec, start: Vec, end: Vec, f: real)
    requires 0.0 <= f <= 1.0
    ensures SegmentDistance(point, start, end) <= Squared(point, Between(start, end, f))
  {
    var g := Nearest(point, start, end);
    SquaredDifference(point, start, end, f, g);
    SquaredSeparates(start, end);
    if start == end {
      NoSlope(point, start, f, g);
    }
    hide Squared, Between, Dot, Gain;
    if Squared(start, end) > 0.0 {
      Balance(Dot(point, start, end), Squared(start, end), g, f);
    }
    hide Nearest;
  }

  lemma NoSlope(point: Vec, start: Vec, f: real, g: real)
    ensures Squared(point, Between(start, start, f)) == Squared(point, Between(start, start, g))
  {
    assert Between(start, start, f) == start && Between(start, start, g) == start;
  }

  /** What moving from fraction `g` to fraction `f` adds to a squared distance. */
  function Gain(f: real, g: real, length: real, along: real): real { (f - g) * (length * (f + g) - 2.0 * along) }

  /** How the squared distance changes along a segment. */
  lemma SquaredDifference(point: Vec, start: Vec, end: Vec, f: real, g: real)
    ensures Squared(point, Between(start, end, f)) - Squared(point, Between(start, end, g))
            == Gain(f, g, Squared(start, end), Dot(point, start, end))
  {
    AxisDifference(point.x, start.x, end.x, f, g);
    AxisDifference(point.y, start.y, end.y, f, g);
    AxisDifference(point.z, start.z, end.z, f, g);
    hide Mix, Times, Gain;
    SumAxes(f, g, Times(start.x - end.x, start.x - end.x), Times(start.y - end.y, start.y - end.y),
            Times(start.z - end.z, start.z - end.z), Times(point.x - start.x, end.x - start.x),
            Times(point.y - start.y, end.y - start.y), Times(point.z - start.z, end.z - start.z));
  }

  lemma AxisDifference(p: real, a: real, b: real, f: real, g: real)
    ensures Times(p - Mix(a, b, f), p - Mix(a, b, f)) - Times(p - Mix(a, b, g), p - Mix(a, b, g))
            == Gain(f, g, Times(a - b, a - b), Times(p - a, b - a))
  {
    var q, d := p - a, b - a;
    assert p - Mix(a, b, f) == q - d * f && p - Mix(a, b, g) == q - d * g;
    assert (a - b) * (a - b) == d * d;
    Expand(q, d, f, g);
  }

  lemma Expand(q: real, d: real, f: real, g: real)
    ensures (q - d * f) * (q - d * f) - (q - d * g) * (q - d * g) == (f - g) * (d * d * (f + g) - 2.0 * (q * d))
  {
  }

  lemma SumAxes(f: real, g: real, lx: real, ly: real, lz: real, ax: real, ay: real, az: real)
    ensures Gain(f, g, lx, ax) + Gain(f, g, ly, ay) + Gain(f, g, lz, az) == Gain(f, g, lx + ly + lz, ax + ay + az)
  {
  }

  /** The clamped quotient balances the two terms, or stops at the end they push it to. */
  lemma Balance(along: real, length: real, g: real, f: real)
    requires length > 0.0 && g == Clamp(along / length) && 0.0 <= f <= 1.0
    ensures Gain(f, g, length, along) >= 0.0
  {
    var ratio := along / length;
    assert ratio * length == along;
    var slope := length * g - along;
    assert slope == length * (g - ratio);
    Signs(f - g, g - ratio, length);
    Recombine(f, g, length, along);
  }

  lemma Recombine(f: real, g: real, length: real, along: real)
    ensures Gain(f, g, length, along)
            == length * ((f - g) * (f - g)) + 2.0 * ((f - g) * (length * g - along))
  {
  }

  lemma Signs(x: real, y: real, length: real)
    requires length > 0.0 && (y > 0.0 ==> x >= 0.0) && (y < 0.0 ==> x <= 0.0)
    ensures x * (length * y) >= 0.0 && length * (x * x) >= 0.0
  {
    Product(x, y);
    Square(x);
    assert x * (length * y) == length * (x * y);
    Product(length, x * y);
    Product(length, x * x);
  }

  lemma Product(x: real, y: real)
    requires (y > 0.0 ==> x >= 0.0) && (y < 0.0 ==> x <= 0.0)
    ensures x * y >= 0.0
  {
  }

  // ---------------------------------------------------------------- a pair of samples around a time

  function Early(a: Sample, b: Sample, time: real, interval: real): real
    requires b.time > a.time
  {
    Clamp((time - interval - a.time) / (b.time - a.time))
  }

  function Late(a: Sample, b: Sample, time: real, interval: real): real
    requires b.time > a.time
  {
    Clamp((time + interval - a.time) / (b.time - a.time))
  }

  /** The part of a sample pair within one physics interval of `time`. */
  function Window(a: Sample, b: Sample, time: real, interval: real): (Vec, Vec)
  {
    if b.time > a.time then
      (Between(a.position, b.position, Early(a, b, time, interval)), Between(a.position, b.position, Late(a, b, time, interval)))
    else (a.position, b.position)
  }

  predicate Near(a: Sample, b: Sample, time: real, interval: real)
  {
    a.time - interval <= time <= b.time + interval
  }

  /** The pair is a fraction `f` of the way at a moment within one interval of `time`. */
  predicate Around(a: Sample, b: Sample, time: real, interval: real, f: real)
  {
    0.0 <= f <= 1.0 && Abs(Mix(a.time, b.time, f) - time) <= interval
  }

  lemma AroundIsNear(a: Sample, b: Sample, time: real, interval: real, f: real)
    requires a.time <= b.time && Around(a, b, time, interval, f)
    ensures Near(a, b, time, interval)
  {
    MixInside(a.time, b.time, f);
  }

  lemma MixInside(a: real, b: real, f: real)
    requires 0.0 <= f <= 1.0
    ensures Min(a, b) <= Mix(a, b, f) <= Max(a, b)
  {
    MixBetween(a, b, f);
    MixBetween(-a, -b, f);
    assert Mix(-a, -b, f) == -Mix(a, b, f) by { assert (-b - (-a)) * f == -((b - a) * f); }
  }

  /** The window is exactly what the pair passes within one interval of the time. */
  lemma WindowMeans(a: Sample, b: Sample, time: real, interval: real, point: Vec)
    requires interval >= 0.0 && Near(a, b, time, interval)
    ensures var w := Window(a, b, time, interval);
      (exists g :: 0.0 <= g <= 1.0 && Between(w.0, w.1, g) == point) <==>
      (exists f :: Around(a, b, time, interval, f) && Between(a.position, b.position, f) == point)
  {
    var w := Window(a, b, time, interval);
    if g :| 0.0 <= g <= 1.0 && Between(w.0, w.1, g) == point {
      var f := OfWindow(a, b, time, interval, g);
      assert Around(a, b, time, interval, f) && Between(a.position, b.position, f) == point;
    }
    if f :| Around(a, b, time, interval, f) && Between(a.position, b.position, f) == point {
      var g := InWindow(a, b, time, interval, f);
      assert 0.0 <= g <= 1.0 && Between(w.0, w.1, g) == point;
    }
  }

  lemma OfWindow(a: Sample, b: Sample, time: real, interval: real, g: real) returns (f: real)
    requires interval >= 0.0 && Near(a, b, time, interval) && 0.0 <= g <= 1.0
    ensures var w := Window(a, b, time, interval);
      Around(a, b, time, interval, f) && Between(w.0, w.1, g) == Between(a.position, b.position, f)
  {
    hide Between, Mix;
    if b.time > a.time {
      var lo, hi := Early(a, b, time, interval), Late(a, b, time, interval);
      BoundsOrdered(a, b, time, interval);
      f := Mix(lo, hi, g);
      hide Early, Late;
      MixInside(lo, hi, g);
      BetweenTwice(a.position, b.position, lo, hi, g);
      BoundsMean(a, b, time, interval, f);
      hide Around;
      assert Window(a, b, time, interval) == (Between(a.position, b.position, lo), Between(a.position, b.position, hi));
    } else {
      f := g;
      MixInside(a.time, b.time, f);
      AbsMeans(Mix(a.time, b.time, f) - time, interval);
      hide Abs;
    }
  }

  lemma InWindow(a: Sample, b: Sample, time: real, interval: real, f: real) returns (g: real)
    requires interval >= 0.0 && Near(a, b, time, interval) && Around(a, b, time, interval, f)
    ensures var w := Window(a, b, time, interval);
      0.0 <= g <= 1.0 && Between(w.0, w.1, g) == Between(a.position, b.position, f)
  {
    hide Between, Mix;
    if b.time > a.time {
      var lo, hi := Early(a, b, time, interval), Late(a, b, time, interval);
      BoundsMean(a, b, time, interval, f);
      hide Early, Late;
      g := Unmix(lo, hi, f);
      BetweenTwice(a.position, b.position, lo, hi, g);
      assert Window(a, b, time, interval) == (Between(a.position, b.position, lo), Between(a.position, b.position, hi));
    } else {
      g := f;
    }
  }

  lemma Unmix(lo: real, hi: real, f: real) returns (g: real)
    requires lo <= f <= hi
    ensures 0.0 <= g <= 1.0 && Mix(lo, hi, g) == f
  {
    if lo == hi {
      g := 0.0;
    } else {
      g := (f - lo) / (hi - lo);
      FractionOf(f - lo, hi - lo);
    }
  }

  lemma FractionOf(p: real, q: real)
    requires 0.0 <= p <= q && q > 0.0
    ensures 0.0 <= p / q <= 1.0 && q * (p / q) == p
  {
    QuotientBound(p, q, 0.0);
    QuotientBound(p, q, 1.0);
  }

  lemma BetweenTwice(a: Vec, b: Vec, lo: real, hi: real, g: real)
    ensures Between(Between(a, b, lo), Between(a, b, hi), g) == Between(a, b, Mix(lo, hi, g))
  {
    MixTwice(a.x, b.x, lo, hi, g);
    MixTwice(a.y, b.y, lo, hi, g);
    MixTwice(a.z, b.z, lo, hi, g);
    hide Mix;
  }

  lemma MixTwice(a: real, b: real, lo: real, hi: real, g: real)
    ensures Mix(Mix(a, b, lo), Mix(a, b, hi), g) == Mix(a, b, Mix(lo, hi, g))
  {
    var d := b - a;
    assert (d * hi - d * lo) * g == d * ((hi - lo) * g);
  }

  lemma BoundsOrdered(a: Sample, b: Sample, time: real, interval: real)
    requires interval >= 0.0 && b.time > a.time
    ensures 0.0 <= Early(a, b, time, interval) <= Late(a, b, time, interval) <= 1.0
  {
    Quotient(time - interval - a.time, time + interval - a.time, b.time - a.time);
  }

  lemma Quotient(x: real, y: real, d: real)
    requires x <= y && d > 0.0
    ensures x / d <= y / d
  {
    var p, q := x / d, y / d;
    assert p * d == x && q * d == y;
    assert p > q ==> p * d > q * d;
  }

  lemma QuotientBound(x: real, d: real, f: real)
    requires d > 0.0
    ensures (x / d <= f <==> x <= f * d) && (f <= x / d <==> f * d <= x)
  {
    var p := x / d;
    assert p * d == x;
    assert p > f ==> p * d > f * d;
    assert p < f ==> p * d < f * d;
  }

  /** Between the two clamped fractions is exactly within one interval of the time. */
  lemma BoundsMean(a: Sample, b: Sample, time: real, interval: real, f: real)
    requires interval >= 0.0 && b.time > a.time && Near(a, b, time, interval) && 0.0 <= f <= 1.0
    ensures Early(a, b, time, interval) <= f <= Late(a, b, time, interval) <==> Around(a, b, time, interval, f)
  {
    var duration := b.time - a.time;
    var early, late := time - interval - a.time, time + interval - a.time;
    QuotientBound(early, duration, f);
    QuotientBound(early, duration, 1.0);
    QuotientBound(late, duration, f);
    QuotientBound(late, duration, 0.0);
    assert Mix(a.time, b.time, f) == a.time + f * duration;
  }

  /** So the distance to the window is the least to any point the pair passes around the time. */
  lemma WindowDistanceIsLeast(point: Vec, a: Sample, b: Sample, time: real, interval: real)
    requires interval >= 0.0 && Near(a, b, time, interval)
    ensures var w := Window(a, b, time, interval);
      var least := SegmentDistance(point, w.0, w.1);
      && (forall f | Around(a, b, time, interval, f) :: least <= Squared(point, Between(a.position, b.position, f)))
      && (exists f :: Around(a, b, time, interval, f) && least == Squared(point, Between(a.position, b.position, f)))
  {
    var w := Window(a, b, time, interval);
    SegmentDistanceIsLeast(point, w.0, w.1);
    hide SegmentDistance, Window, Squared, Between, Around, Near;
    forall f | Around(a, b, time, interval, f)
      ensures SegmentDistance(point, w.0, w.1) <= Squared(point, Between(a.position, b.position, f))
    {
      var g := InWindow(a, b, time, interval, f);
    }
    var g :| 0.0 <= g <= 1.0 && SegmentDistance(point, w.0, w.1) == Squared(point, Between(w.0, w.1, g));
    var f := OfWindow(a, b, time, interval, g);
  }
}
