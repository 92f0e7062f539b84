/** The response curve of src/spline.c: a quadratic Bezier curve, solved for its parameter, over exact reals. */
module Spline {
  import opened Vectors
  import opened Bases

  datatype CurveDefs = CurveDefs(deadZone: real, lCurvature: real, rCurvature: real)

  datatype Pts = Pts(x0: real, y0: real, x1: real, y1: real, x2: real, y2: real)

  datatype Splines = Splines(left: Pts, right: Pts)

  /** The middle control point: the larger the curvature k, the nearer to the dead zone d. */
  function Knee(d: real, k: real): real {
    d + (1.0 - d) * (1.0 - k)
  }

  function Half(d: real, k: real): Pts {
    Pts(d, 0.0, Knee(d, k), k, 1.0, 1.0)
  }

  function Curves(c: CurveDefs): Splines {
    Splines(Half(c.deadZone, c.lCurvature), Half(c.deadZone, c.rCurvature))
  }

  /** What the preferences and the user interface keep to. */
  predicate Sane(c: CurveDefs) {
    0.0 <= c.deadZone < 1.0 && 0.0 <= c.lCurvature <= 1.0 && 0.0 <= c.rCurvature <= 1.0
  }

  function Bend(p: Pts): real {
    p.x2 - 2.0 * p.x1 + p.x0
  }

  predicate NearlyStraight(p: Pts) {
    -0.001 < Bend(p) < 0.001
  }

  function Radicand(p: Pts, x: real): real {
    Bend(p) * x - p.x0 * p.x2 + p.x1 * p.x1
  }

  /** The parameter the square-root formula yields. */
  function Param(root: real -> real, p: Pts, x: real): real
    requires Bend(p) != 0.0
  {
    (root(Radicand(p, x)) - p.x1 + p.x0) / Bend(p)
  }

  function Blend(t: real, v0: real, v1: real, v2: real): real {
    (1.0 - t) * (1.0 - t) * v0 + 2.0 * t * (1.0 - t) * v1 + t * t * v2
  }

  /** One half of the curve, for x not negative. */
  function HalfPoint(root: real -> real, p: Pts, x: real): real
    requires p.x2 != p.x0
  {
    if x < p.x0 then 0.0
    else if NearlyStraight(p) then (x - p.x0) * ((p.y2 - p.y0) / (p.x2 - p.x0))
    else Blend(Param(root, p, x), p.y0, p.y1, p.y2)
  }

  /** ltr_int_curve2pts */
  method Curve2Pts(curve: CurveDefs) returns (pts: Splines)
    ensures pts == Curves(curve)
  {
    hide Knee;
    var x0, y0 := curve.deadZone, 0.0;
    var leftX1, rightX1 := Knee(curve.deadZone, curve.lCurvature), Knee(curve.deadZone, curve.rCurvature);
    pts := Splines(Pts(x0, y0, leftX1, curve.lCurvature, 1.0, 1.0), Pts(x0, y0, rightX1, curve.rCurvature, 1.0, 1.0));
  }

  /** ltr_int_spline_point */
  function SplinePoint(root: real -> real, s: Splines, x: real): real
    requires s.left.x2 != s.left.x0 && s.right.x2 != s.right.x0
  {
    if x < 0.0 then -1.0 * HalfPoint(root, s.left, -1.0 * x) else HalfPoint(root, s.right, x)
  }

  // ----- comparisons -----

  lemma SquareLess(p: real, q: real, pp: real, qq: real)
    requires 0.0 <= q < p && pp == p * p && qq == q * q
    ensures qq < pp
  {
    Positive(p - q, p + q, (p - q) * (p + q));
    assert (p - q) * (p + q) == p * p - q * q;
  }

  lemma RootOrder(p: real, q: real, pp: real, qq: real)
    requires 0.0 <= p && 0.0 <= q && pp == p * p && qq == q * q && pp <= qq
    ensures p <= q
  {
    if q < p {
      SquareLess(p, q, pp, qq);
    }
  }

  lemma ProductSign(a: real, b: real, p: real)
    requires p == a * b && b >= 0.0
    ensures a >= 0.0 ==> p >= 0.0
    ensures a <= 0.0 ==> p <= 0.0
  {
    if a > 0.0 && b > 0.0 {
      Positive(a, b, p);
    } else if a < 0.0 && b > 0.0 {
      Positive(-a, b, -p);
    }
  }

  lemma QuotientBetween(n: real, d: real, t: real)
    requires d != 0.0 && t == n / d && (if d > 0.0 then 0.0 <= n <= d else d <= n <= 0.0)
    ensures 0.0 <= t <= 1.0
  {
    assert t * d == n;
    if t < 0.0 {
      if d > 0.0 {
        Positive(-t, d, -n);
      } else {
        Positive(-t, -d, n);
      }
    }
    if t > 1.0 {
      if d > 0.0 {
        Positive(t - 1.0, d, n - d);
      } else {
        Positive(t - 1.0, -d, d - n);
      }
    }
  }

  // ----- one half curve -----

  predicate IsHalf(p: Pts, d: real, k: real) {
    0.0 <= d < 1.0 && 0.0 <= k <= 1.0 && p == Half(d, k)
  }

  /** x0 <= x1 <= x2 and the distances between them. */
  lemma HalfShape(p: Pts, d: real, k: real)
    requires IsHalf(p, d, k)
    ensures p.x1 - p.x0 == (1.0 - d) * (1.0 - k) >= 0.0
    ensures p.x2 - p.x1 == (1.0 - d) * k >= 0.0
    ensures Bend(p) == (p.x2 - p.x1) - (p.x1 - p.x0) && p.x0 == d && p.x2 == 1.0
  {
    ProductSign(1.0 - k, 1.0 - d, (1.0 - d) * (1.0 - k));
    ProductSign(k, 1.0 - d, (1.0 - d) * k);
    assert (1.0 - d) * (1.0 - k) == (1.0 - d) - (1.0 - d) * k;
  }

  /** The radicand is a square plus something, or another square plus something. */
  lemma RadicandForms(a: real, b: real, c: real, x: real, bend: real, e: real, f: real, disc: real)
    requires e == b - a && f == c - b && bend == f - e && disc == bend * x - a * c + b * b
    ensures disc == e * e + bend * (x - a)
    ensures disc == f * f - bend * (c - x)
  {
    assert bend * x - a * c + b * b == (f - e) * x - a * c + b * b;
    assert (f - e) * x == (c - 2.0 * b + a) * x;
    assert e * e == b * b - 2.0 * a * b + a * a;
    assert f * f == c * c - 2.0 * b * c + b * b;
    assert bend * (x - a) == bend * x - (c - 2.0 * b + a) * a;
    assert bend * (c - x) == (c - 2.0 * b + a) * c - bend * x;
  }

  lemma ParamBounds(bend: real, e: real, f: real, x: real, a: real, c: real, s: real, disc: real, t: real)
    requires bend != 0.0 && bend == f - e && e >= 0.0 && f >= 0.0 && a <= x <= c && s >= 0.0 && disc == s * s
    requires disc == e * e + bend * (x - a) && disc == f * f - bend * (c - x)
    requires t == (s - e) / bend
    ensures 0.0 <= t <= 1.0
  {
    ProductSign(bend, x - a, bend * (x - a));
    ProductSign(bend, c - x, bend * (c - x));
    if bend > 0.0 {
      RootOrder(e, s, e * e, disc);
      RootOrder(s, f, disc, f * f);
    } else {
      RootOrder(s, e, disc, e * e);
      RootOrder(f, s, f * f, disc);
    }
    QuotientBetween(s - e, bend, t);
  }

  lemma RadicandPositive(bend: real, e: real, f: real, x: real, a: real, c: real, disc: real)
    requires a <= x <= c && disc == e * e + bend * (x - a) && disc == f * f - bend * (c - x)
    ensures disc >= 0.0
  {
    ProductSign(bend, x - a, bend * (x - a));
    ProductSign(bend, c - x, bend * (c - x));
    SqPositive(e);
    SqPositive(f);
    assert Sq(e) == e * e && Sq(f) == f * f;
  }

  lemma SolvesQuadratic(bend: real, e: real, s: real, t: real, dx: real)
    requires bend != 0.0 && t == (s - e) / bend && s * s == e * e + bend * dx
    ensures bend * (t * t) + 2.0 * e * t == dx
  {
    var u := bend * t;
    assert u == s - e;
    assert u * t + 2.0 * e * t == t * (s + e) by {
      assert u * t == (s - e) * t;
    }
    assert bend * (t * (s + e)) == u * (s + e);
    assert u * (s + e) == s * s - e * e;
    Cancel(bend, t * (s + e), dx);
    assert bend * (t * t) == u * t;
  }

  lemma Cancel(c: real, x: real, y: real)
    requires c != 0.0 && c * x == c * y
    ensures x == y
  {
    assert x == (c * x) / c;
    assert y == (c * y) / c;
  }

  /** A Bezier value in powers of t. */
  lemma BlendPowers(t: real, v0: real, v1: real, v2: real)
    ensures Blend(t, v0, v1, v2) == (v2 - 2.0 * v1 + v0) * (t * t) + 2.0 * (v1 - v0) * t + v0
  {
    var tt := t * t;
    assert (1.0 - t) * (1.0 - t) == 1.0 - 2.0 * t + tt;
    assert 2.0 * t * (1.0 - t) == 2.0 * t - 2.0 * tt;
    BlendParts(t, tt, v0, v1, v2, (1.0 - t) * (1.0 - t), 2.0 * t * (1.0 - t));
  }

  lemma BlendParts(t: real, tt: real, v0: real, v1: real, v2: real, b0: real, b1: real)
    requires b0 == 1.0 - 2.0 * t + tt && b1 == 2.0 * t - 2.0 * tt
    ensures b0 * v0 + b1 * v1 + tt * v2 == (v2 - 2.0 * v1 + v0) * tt + 2.0 * (v1 - v0) * t + v0
  {
  }

  /** The formula yields a parameter in [0, 1] at which the curve is at x. */
  lemma ParamSolves(root: real -> real, p: Pts, d: real, k: real, x: real)
    requires IsRoot(root) && IsHalf(p, d, k) && !NearlyStraight(p) && d <= x <= 1.0
    ensures var t := Param(root, p, x); 0.0 <= t <= 1.0 && Blend(t, p.x0, p.x1, p.x2) == x
  {
    hide IsRoot, IsHalf, Blend, Bend;
    HalfShape(p, d, k);
    BendNotZero(p);
    var disc := Radicand(p, x);
    Solved(p.x0, p.x1, p.x2, x, Bend(p), disc);
    RootOf(root, disc);
    Formula(p.x0, p.x1, p.x2, x, Bend(p), disc, root(disc), Param(root, p, x));
  }

  lemma RootOf(root: real -> real, r: real)
    requires IsRoot(root) && r >= 0.0
    ensures root(r) >= 0.0 && root(r) * root(r) == r
  {
  }

  lemma BendNotZero(p: Pts)
    requires !NearlyStraight(p)
    ensures Bend(p) != 0.0
  {
  }

  lemma Solved(a: real, b: real, c: real, x: real, bend: real, disc: real)
    requires a <= b <= c && a <= x <= c && bend == (c - b) - (b - a) && disc == bend * x - a * c + b * b
    ensures disc >= 0.0
  {
    RadicandForms(a, b, c, x, bend, b - a, c - b, disc);
    RadicandPositive(bend, b - a, c - b, x, a, c, disc);
  }

  lemma Formula(a: real, b: real, c: real, x: real, bend: real, disc: real, s: real, t: real)
    requires a <= b <= c && a <= x <= c && bend == (c - b) - (b - a) && bend != 0.0 && disc == bend * x - a * c + b * b
    requires s >= 0.0 && s * s == disc && t == (s - b + a) / bend
    ensures 0.0 <= t <= 1.0 && Blend(t, a, b, c) == x
  {
    var e := b - a;
    RadicandForms(a, b, c, x, bend, e, c - b, disc);
    ParamBounds(bend, e, c - b, x, a, c, s, disc, t);
    SolvesQuadratic(bend, e, s, t, x - a);
    BlendPowers(t, a, b, c);
    hide Blend;
    AtX(bend, e, t, t * t, a, x, Blend(t, a, b, c));
  }

  lemma AtX(bend: real, e: real, t: real, tt: real, x0: real, x: real, value: real)
    requires bend * tt + 2.0 * e * t == x - x0 && value == bend * tt + 2.0 * e * t + x0
    ensures value == x
  {
  }

  /** Between 0 and 1 a Bezier curve with control values in order climbs. */
  lemma BlendClimbs(t: real, u: real, v0: real, v1: real, v2: real)
    requires 0.0 <= t < u <= 1.0 && v0 <= v1 <= v2 && v0 < v2
    ensures Blend(t, v0, v1, v2) < Blend(u, v0, v1, v2)
  {
    BlendPowers(t, v0, v1, v2);
    BlendPowers(u, v0, v1, v2);
    hide Blend;
    var e, f, w := v1 - v0, v2 - v1, t + u;
    var slope := e * (2.0 - w) + f * w;
    SlopePositive(e, f, w, slope);
    Positive(u - t, slope, (u - t) * slope);
    ClimbParts(t, u, v0, v1, v2, e, f, w, slope, Blend(t, v0, v1, v2), Blend(u, v0, v1, v2));
  }

  lemma SlopePositive(e: real, f: real, w: real, slope: real)
    requires e >= 0.0 && f >= 0.0 && e + f > 0.0 && 0.0 < w < 2.0 && slope == e * (2.0 - w) + f * w
    ensures slope > 0.0
  {
    ProductSign(e, 2.0 - w, e * (2.0 - w));
    ProductSign(f, w, f * w);
    if e > 0.0 {
      Positive(e, 2.0 - w, e * (2.0 - w));
    } else {
      Positive(f, w, f * w);
    }
  }

  lemma ClimbParts(t: real, u: real, v0: real, v1: real, v2: real, e: real, f: real, w: real, slope: real, at: real,
          au: real)
    requires e == v1 - v0 && f == v2 - v1 && w == t + u && slope == e * (2.0 - w) + f * w
    requires at == (v2 - 2.0 * v1 + v0) * (t * t) + 2.0 * (v1 - v0) * t + v0
    requires au == (v2 - 2.0 * v1 + v0) * (u * u) + 2.0 * (v1 - v0) * u + v0
    ensures au - at == (u - t) * slope
  {
    var g := f - e;
    assert at == g * (t * t) + 2.0 * e * t + v0 && au == g * (u * u) + 2.0 * e * u + v0;
    assert slope == 2.0 * e + g * w;
    assert (u - t) * w == u * u - t * t;
    assert (u - t) * slope == 2.0 * e * (u - t) + g * ((u - t) * w);
  }

  /** So that parameter is the only one. */
  lemma ParamUnique(root: real -> real, p: Pts, d: real, k: real, x: real, t: real)
    requires IsRoot(root) && IsHalf(p, d, k) && !NearlyStraight(p) && d <= x <= 1.0
    requires 0.0 <= t <= 1.0 && Blend(t, p.x0, p.x1, p.x2) == x
    ensures t == Param(root, p, x)
  {
    ParamSolves(root, p, d, k, x);
    HalfShape(p, d, k);
    hide Blend, Param;
    var u := Param(root, p, x);
    if t < u {
      BlendClimbs(t, u, p.x0, p.x1, p.x2);
    } else if u < t {
      BlendClimbs(u, t, p.x0, p.x1, p.x2);
    }
  }

  // ----- the response of one half -----

  lemma BlendEnds(v0: real, v1: real, v2: real)
    ensures Blend(0.0, v0, v1, v2) == v0 && Blend(1.0, v0, v1, v2) == v2
  {
  }

  /** Zero up to the dead zone, one at one, and strictly climbing in between. */
  lemma HalfRange(root: real -> real, p: Pts, d: real, k: real, x: real)
    requires IsRoot(root) && IsHalf(p, d, k) && 0.0 <= x <= 1.0
    ensures 0.0 <= HalfPoint(root, p, x) <= 1.0
    ensures x <= d ==> HalfPoint(root, p, x) == 0.0
    ensures x == 1.0 ==> HalfPoint(root, p, x) == 1.0
  {
    if x < d {
    } else if NearlyStraight(p) {
      StraightRange(d, x, (x - d) * (1.0 / (1.0 - d)));
    } else {
      ParamSolves(root, p, d, k, x);
      HalfShape(p, d, k);
      var t := Param(root, p, x);
      BlendEnds(p.x0, p.x1, p.x2);
      BlendEnds(p.y0, p.y1, p.y2);
      hide Blend, Param;
      if 0.0 < t {
        BlendClimbs(0.0, t, p.y0, p.y1, p.y2);
        BlendClimbs(0.0, t, p.x0, p.x1, p.x2);
      }
      if t < 1.0 {
        BlendClimbs(t, 1.0, p.y0, p.y1, p.y2);
        BlendClimbs(t, 1.0, p.x0, p.x1, p.x2);
      }
    }
  }

  lemma StraightRange(d: real, x: real, y: real)
    requires 0.0 <= d < 1.0 && d <= x <= 1.0 && y == (x - d) * (1.0 / (1.0 - d))
    ensures 0.0 <= y <= 1.0 && (x == d ==> y == 0.0) && (x == 1.0 ==> y == 1.0)
  {
    var q := 1.0 - d;
    assert (1.0 / q) * q == 1.0;
    assert y * q == (x - d) * ((1.0 / q) * q);
    assert y == (x - d) / q;
    QuotientBetween(x - d, q, y);
  }

  lemma HalfClimbs(root: real -> real, p: Pts, d: real, k: real, x: real, z: real)
    requires IsRoot(root) && IsHalf(p, d, k) && 0.0 <= x <= z <= 1.0
    ensures HalfPoint(root, p, x) <= HalfPoint(root, p, z)
    ensures d <= x < z ==> HalfPoint(root, p, x) < HalfPoint(root, p, z)
  {
    if x < d {
      HalfRange(root, p, d, k, z);
    } else if x < z {
      if NearlyStraight(p) {
        StraightClimbs(d, x, z);
      } else {
        ParamClimbs(root, p, d, k, x, z);
        hide Param, Blend;
        BlendClimbs(Param(root, p, x), Param(root, p, z), p.y0, p.y1, p.y2);
      }
    }
  }

  lemma StraightClimbs(d: real, x: real, z: real)
    requires d < 1.0 && x < z
    ensures (x - d) * (1.0 / (1.0 - d)) < (z - d) * (1.0 / (1.0 - d))
  {
    var q := 1.0 / (1.0 - d);
    InversePositive(1.0 - d, q);
    Positive(z - x, q, (z - x) * q);
    assert (z - d) * q - (x - d) * q == (z - x) * q;
  }

  lemma InversePositive(a: real, q: real)
    requires a > 0.0 && q == 1.0 / a
    ensures q > 0.0
  {
    assert a * q == 1.0;
    if q < 0.0 {
      Positive(a, -q, -(a * q));
    }
  }

  lemma ParamClimbs(root: real -> real, p: Pts, d: real, k: real, x: real, z: real)
    requires IsRoot(root) && IsHalf(p, d, k) && !NearlyStraight(p) && d <= x < z <= 1.0
    ensures 0.0 <= Param(root, p, x) < Param(root, p, z) <= 1.0
  {
    ParamSolves(root, p, d, k, x);
    ParamSolves(root, p, d, k, z);
    HalfShape(p, d, k);
    hide Param, Blend;
    var t, u := Param(root, p, x), Param(root, p, z);
    if u < t {
      BlendClimbs(u, t, p.x0, p.x1, p.x2);
    }
  }

  // ----- the response lies on the curve -----

  /** The point with parameter t of the quadratic Bezier curve from (d, 0) to (1, 1) whose middle control point is
      (d + (1 - d) * (1 - k), k). */
  predicate PointAt(t: real, d: real, k: real, x: real, y: real) {
    && 0.0 <= t <= 1.0
    && x == (1.0 - t) * (1.0 - t) * d + 2.0 * t * (1.0 - t) * (d + (1.0 - d) * (1.0 - k)) + t * t
    && y == 2.0 * t * (1.0 - t) * k + t * t
  }

  ghost predicate OnCurve(d: real, k: real, x: real, y: real) {
    exists t: real :: PointAt(t, d, k, x, y)
  }

  /** The response y of a half curve at x: zero in the dead zone; behind it a point of the curve, or of its chord if
      the curve is nearly straight. */
  ghost predicate Answers(d: real, k: real, x: real, y: real)
    requires d < 1.0
  {
    if x <= d then y == 0.0
    else if -0.001 < (1.0 - d) * (2.0 * k - 1.0) < 0.001 then y == (x - d) / (1.0 - d)
    else OnCurve(d, k, x, y)
  }

  lemma StraightIff(p: Pts, d: real, k: real)
    requires IsHalf(p, d, k)
    ensures NearlyStraight(p) <==> -0.001 < (1.0 - d) * (2.0 * k - 1.0) < 0.001
  {
    HalfShape(p, d, k);
    hide IsHalf, Bend;
    var e := (1.0 - d) * k;
    assert (1.0 - d) * (1.0 - k) == (1.0 - d) - e;
    assert (1.0 - d) * (2.0 * k - 1.0) == e + e - (1.0 - d);
  }

  lemma BlendIsPoint(t: real, p: Pts, d: real, k: real, x: real)
    requires IsHalf(p, d, k) && 0.0 <= t <= 1.0 && Blend(t, p.x0, p.x1, p.x2) == x
    ensures PointAt(t, d, k, x, Blend(t, p.y0, p.y1, p.y2))
  {
    var b0, b1 := (1.0 - t) * (1.0 - t), 2.0 * t * (1.0 - t);
    assert b0 * 0.0 + b1 * k + t * t * 1.0 == b1 * k + t * t;
  }

  lemma ChordValue(d: real, x: real, y: real)
    requires d < 1.0 && y == (x - d) * ((1.0 - 0.0) / (1.0 - d))
    ensures y == (x - d) / (1.0 - d)
  {
    var q := 1.0 - d;
    assert (1.0 / q) * q == 1.0;
    assert y * q == (x - d) * ((1.0 / q) * q);
  }

  /** What a half curve answers. */
  lemma HalfAnswers(root: real -> real, p: Pts, d: real, k: real, x: real)
    requires IsRoot(root) && IsHalf(p, d, k) && 0.0 <= x <= 1.0
    ensures Answers(d, k, x, HalfPoint(root, p, x))
  {
    hide IsRoot, Param, Blend, NearlyStraight, PointAt;
    if x <= d {
      HalfRange(root, p, d, k, x);
    } else {
      StraightIff(p, d, k);
      if NearlyStraight(p) {
        ChordValue(d, x, HalfPoint(root, p, x));
      } else {
        ParamSolves(root, p, d, k, x);
        BlendIsPoint(Param(root, p, x), p, d, k, x);
        assert OnCurve(d, k, x, HalfPoint(root, p, x));
      }
    }
  }
}
