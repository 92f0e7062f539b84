/** The response of one axis, src/axis.c: sensitivity, limits and curve. */
module Axis {
  import opened Vectors
  import opened Bases
  import opened Spline

  const TINY := 0.00001

  datatype Params = Params(
    enabled: bool, inverted: bool, factor: real, lLimit: real, rLimit: real, filter: real, curve: CurveDefs)

  /** The parameters by which an axis is addressed; Other stands for those that are not its own. */
  datatype AxisParam = ENABLED | DEADZONE | LCURV | RCURV | MULT | LLIMIT | RLIMIT | FILTER | INVERTED | OTHER

  /** The ranges that the configuration keeps to. */
  predicate SaneAxis(a: Params) {
    Sane(a.curve) && a.factor >= 0.0 && a.lLimit >= 0.0 && a.rLimit >= 0.0
  }

  function Clamped(x: real): real {
    if x < -1.0 then -1.0 else if x > 1.0 then 1.0 else x
  }

  /** Sensitivity applied, then normalised to the limit. */
  function Ratio(u: real, factor: real, lim: real): real
    requires lim != 0.0
  {
    u * factor / lim
  }

  function Scaled(y: real, lim: real): real {
    y * lim
  }

  /** What ltr_int_val_on_axis computes. */
  function Response(root: real -> real, a: Params, x: real): real
    requires Sane(a.curve)
  {
    if !a.enabled then 0.0
    else
      var u := if a.inverted then -x else x;
      var lim := if u < 0.0 then a.lLimit else a.rLimit;
      if lim < TINY then 0.0 else Scaled(SplinePoint(root, Curves(a.curve), Clamped(Ratio(u, a.factor, lim))), lim)
  }

  /** The response r to a deflection m of one side: the deflection, times the factor and against the limit but at most
      one, is answered by the half curve, in units of the limit. */
  ghost predicate SideAnswers(d: real, k: real, factor: real, lim: real, m: real, r: real)
    requires d < 1.0
  {
    if lim < 0.00001 then r == 0.0
    else Answers(d, k, if m * factor < lim then m * factor / lim else 1.0, r / lim)
  }

  /** The response r to x: an inverted axis turns x round, and either side has its curvature and its limit. */
  ghost predicate AxisAnswers(a: Params, x: real, r: real)
    requires SaneAxis(a)
  {
    var u, c := if a.inverted then -x else x, a.curve;
    if !a.enabled then r == 0.0
    else if u < 0.0 then SideAnswers(c.deadZone, c.lCurvature, a.factor, a.lLimit, -u, -r)
    else SideAnswers(c.deadZone, c.rCurvature, a.factor, a.rLimit, u, r)
  }

  // ----- changing parameters -----

  predicate IsNumeric(param: AxisParam) {
    param != ENABLED && param != INVERTED && param != OTHER
  }

  function WithParam(a: Params, param: AxisParam, val: real): Params {
    match param
    case DEADZONE => a.(curve := a.curve.(deadZone := val))
    case LCURV => a.(curve := a.curve.(lCurvature := val))
    case RCURV => a.(curve := a.curve.(rCurvature := val))
    case MULT => a.(factor := val)
    case LLIMIT => a.(lLimit := val)
    case RLIMIT => a.(rLimit := val)
    case FILTER => a.(filter := val)
    case _ => a
  }

  /** ltr_int_get_axis_param */
  function GetParam(a: Params, param: AxisParam): real {
    match param
    case DEADZONE => a.curve.deadZone
    case LCURV => a.curve.lCurvature
    case RCURV => a.curve.rCurvature
    case MULT => a.factor
    case LLIMIT => a.lLimit
    case RLIMIT => a.rLimit
    case FILTER => a.filter
    case _ => 0.0
  }

  /** What was set is read back, and nothing else has changed. */
  lemma SetThenGet(a: Params, param: AxisParam, val: real, other: AxisParam)
    ensures var b := WithParam(a, param, val);
      && GetParam(b, other) == (if other == param && IsNumeric(param) then val else GetParam(a, other))
      && b.enabled == a.enabled && b.inverted == a.inverted
  {
  }

  class AxisDef {
    var params: Params
    var curves: Splines
    var valid: bool
    var changed: bool

    /** Curve points that count as valid are those of the current definition; nothing in the program ever calls them
        valid. */
    predicate Valid()
      reads this
    {
      valid ==> curves == Curves(params.curve)
    }

    constructor (params: Params)
      ensures Valid() && this.params == params && !valid && !changed
    {
      this.params := params;
      curves := Curves(params.curve);
      valid, changed := false, false;
    }

    /** ltr_int_set_axis_param: an unknown parameter is refused, though it drops the curve points as well. */
    method SetParam(param: AxisParam, val: real) returns (ok: bool)
      requires Valid()
      modifies this
      ensures Valid() && !valid && ok == IsNumeric(param)
      ensures params == WithParam(old(params), param, val) && changed == (old(changed) || ok)
    {
      valid := false;
      ok := true;
      match param {
        case DEADZONE => params := params.(curve := params.curve.(deadZone := val));
        case LCURV => params := params.(curve := params.curve.(lCurvature := val));
        case RCURV => params := params.(curve := params.curve.(rCurvature := val));
        case MULT => params := params.(factor := val);
        case LLIMIT => params := params.(lLimit := val);
        case RLIMIT => params := params.(rLimit := val);
        case FILTER => params := params.(filter := val);
        case _ => return false;
      }
      changed := true;
    }

    /** ltr_int_set_axis_bool_param */
    method SetBoolParam(param: AxisParam, val: bool) returns (ok: bool)
      requires Valid()
      modifies this
      ensures Valid() && ok == (param == ENABLED || param == INVERTED) && changed == (old(changed) || ok)
      ensures params == if param == ENABLED then old(params).(enabled := val)
                        else if param == INVERTED then old(params).(inverted := val)
                        else old(params)
    {
      if param == ENABLED {
        params := params.(enabled := val);
      } else if param == INVERTED {
        params := params.(inverted := val);
      } else {
        return false;
      }
      ok, changed := true, true;
    }

    /** ltr_int_val_on_axis */
    method ValOnAxis(root: real -> real, x0: real) returns (res: real)
      requires Valid() && Sane(params.curve)
      modifies `curves
      ensures Valid() && res == Response(root, params, x0)
      ensures IsRoot(root) && SaneAxis(params) ==> AxisAnswers(params, x0, res)
    {
      hide HalfPoint, Ratio, Scaled, SplinePoint, AxisAnswers, IsRoot;
      if IsRoot(root) && SaneAxis(params) {
        OnTheCurve(root, params, x0);
      }
      if !params.enabled {
        return 0.0;
      }
      var x := x0;
      if params.inverted {
        x := -x;
      }
      if !valid {
        curves := Curve2Pts(params.curve);
      }
      var lim := if x < 0.0 then params.lLimit else params.rLimit;
      if lim < TINY {
        return 0.0;
      }
      x := Ratio(x, params.factor, lim);
      if x < -1.0 {
        x := -1.0;
      }
      if x > 1.0 {
        x := 1.0;
      }
      res := Scaled(SplinePoint(root, curves, x), lim);
    }
  }

  // ----- the two sides -----

  /** The response to a deflection of size m on the side with limit lim. */
  function Side(root: real -> real, p: Pts, factor: real, lim: real, m: real): real
    requires p.x2 != p.x0
  {
    if lim < TINY then 0.0 else Scaled(HalfPoint(root, p, Clamped(Ratio(m, factor, lim))), lim)
  }

  lemma RatioTimes(m: real, factor: real, lim: real)
    requires lim > 0.0
    ensures Ratio(m, factor, lim) * lim == m * factor
  {
  }

  lemma RatioPositive(m: real, factor: real, lim: real)
    requires m >= 0.0 && factor >= 0.0 && lim > 0.0
    ensures Ratio(m, factor, lim) >= 0.0
  {
    RatioTimes(m, factor, lim);
    ProductSign(m, factor, m * factor);
    NotBelow(Ratio(m, factor, lim), 0.0, lim, m * factor);
  }

  lemma NotBelow(q: real, r: real, lim: real, mf: real)
    requires lim > 0.0 && q * lim == mf
    ensures mf >= r * lim ==> q >= r
    ensures mf <= r * lim ==> q <= r
  {
    var low, high := (r - q) * lim, (q - r) * lim;
    assert low == r * lim - mf && high == mf - r * lim;
    if q < r {
      Positive(r - q, lim, low);
    } else if r < q {
      Positive(q - r, lim, high);
    }
  }

  lemma RatioAgainst(m: real, factor: real, lim: real, d: real)
    requires lim > 0.0
    ensures m * factor <= d * lim ==> Ratio(m, factor, lim) <= d
    ensures m * factor >= lim ==> Ratio(m, factor, lim) >= 1.0
  {
    RatioTimes(m, factor, lim);
    NotBelow(Ratio(m, factor, lim), d, lim, m * factor);
    NotBelow(Ratio(m, factor, lim), 1.0, lim, m * factor);
  }

  lemma RatioOrder(m: real, n: real, factor: real, lim: real)
    requires m <= n && factor >= 0.0 && lim > 0.0
    ensures Ratio(m, factor, lim) <= Ratio(n, factor, lim)
  {
    RatioTimes(m, factor, lim);
    RatioTimes(n, factor, lim);
    ProductSign(n - m, factor, (n - m) * factor);
    assert (n - m) * factor == n * factor - m * factor;
    NotBelow(Ratio(m, factor, lim), Ratio(n, factor, lim), lim, m * factor);
  }

  lemma RatioNegated(m: real, factor: real, lim: real)
    requires lim > 0.0
    ensures Ratio(-m, factor, lim) == -Ratio(m, factor, lim)
  {
    assert -m * factor == -(m * factor);
  }

  lemma ScaledRange(h: real, lim: real)
    requires 0.0 <= h <= 1.0 && lim >= 0.0
    ensures 0.0 <= Scaled(h, lim) <= lim
    ensures h == 0.0 ==> Scaled(h, lim) == 0.0
    ensures h == 1.0 ==> Scaled(h, lim) == lim
  {
    ProductSign(h, lim, h * lim);
    ProductSign(1.0 - h, lim, (1.0 - h) * lim);
    assert (1.0 - h) * lim == lim - h * lim;
  }

  lemma ScaledOrder(g: real, h: real, lim: real)
    requires g <= h && lim >= 0.0
    ensures Scaled(g, lim) <= Scaled(h, lim)
  {
    ProductSign(h - g, lim, (h - g) * lim);
    assert (h - g) * lim == h * lim - g * lim;
  }

  lemma ScaledNegated(h: real, lim: real)
    ensures Scaled(-1.0 * h, lim) == -Scaled(h, lim)
  {
    assert (-1.0 * h) * lim == -(h * lim);
  }

  lemma SideRange(root: real -> real, p: Pts, d: real, k: real, factor: real, lim: real, m: real)
    requires IsRoot(root) && IsHalf(p, d, k) && factor >= 0.0 && lim >= 0.0 && m >= 0.0
    ensures 0.0 <= Side(root, p, factor, lim, m) <= lim
    ensures m * factor <= d * lim ==> Side(root, p, factor, lim, m) == 0.0
    ensures m * factor >= lim >= TINY ==> Side(root, p, factor, lim, m) == lim
  {
    hide HalfPoint, IsRoot, Ratio, Scaled;
    if lim >= TINY {
      var q := Ratio(m, factor, lim);
      RatioPositive(m, factor, lim);
      RatioAgainst(m, factor, lim, d);
      HalfRange(root, p, d, k, Clamped(q));
      ScaledRange(HalfPoint(root, p, Clamped(q)), lim);
    }
  }

  lemma SideClimbs(root: real -> real, p: Pts, d: real, k: real, factor: real, lim: real, m: real, n: real)
    requires IsRoot(root) && IsHalf(p, d, k) && factor >= 0.0 && lim >= 0.0 && 0.0 <= m <= n
    ensures Side(root, p, factor, lim, m) <= Side(root, p, factor, lim, n)
  {
    hide HalfPoint, IsRoot, Ratio, Scaled;
    if lim >= TINY {
      var q, r := Ratio(m, factor, lim), Ratio(n, factor, lim);
      RatioPositive(m, factor, lim);
      RatioOrder(m, n, factor, lim);
      HalfClimbs(root, p, d, k, Clamped(q), Clamped(r));
      ScaledOrder(HalfPoint(root, p, Clamped(q)), HalfPoint(root, p, Clamped(r)), lim);
    }
  }

  /** The input as the curve sees it, after inversion. */
  function Turned(a: Params, x: real): real {
    if a.inverted then -x else x
  }

  /** The response is that of the side the input lies on. */
  lemma ResponseSide(root: real -> real, a: Params, x: real)
    requires IsRoot(root) && SaneAxis(a) && a.enabled
    ensures var u, c := Turned(a, x), Curves(a.curve);
      Response(root, a, x)
      == if u < 0.0 then -Side(root, c.left, a.factor, a.lLimit, -u) else Side(root, c.right, a.factor, a.rLimit, u)
  {
    hide HalfPoint, IsRoot, Ratio, Scaled, SplinePoint;
    var u, c := Turned(a, x), Curves(a.curve);
    var lim := if u < 0.0 then a.lLimit else a.rLimit;
    if lim >= TINY {
      var m := if u < 0.0 then -u else u;
      RatioPositive(m, a.factor, lim);
      RatioNegated(m, a.factor, lim);
      var q := Clamped(Ratio(m, a.factor, lim));
      SplineSides(root, a.curve, q);
      ScaledNegated(HalfPoint(root, c.left, q), lim);
      assert u < 0.0 ==> Clamped(Ratio(u, a.factor, lim)) == -q;
    }
  }

  /** The curve on the two sides of zero; at zero both halves agree. */
  lemma SplineSides(root: real -> real, curve: CurveDefs, q: real)
    requires IsRoot(root) && Sane(curve) && 0.0 <= q <= 1.0
    ensures var c := Curves(curve);
      SplinePoint(root, c, -q) == -1.0 * HalfPoint(root, c.left, q)
        && SplinePoint(root, c, q) == HalfPoint(root, c.right, q)
  {
    var c := Curves(curve);
    HalfRange(root, c.left, curve.deadZone, curve.lCurvature, 0.0);
    HalfRange(root, c.right, curve.deadZone, curve.rCurvature, 0.0);
    hide HalfPoint, IsRoot;
    assert -1.0 * -q == q;
  }

  // ----- what the response promises -----

  /** The response never leaves the limits. */
  lemma WithinLimits(root: real -> real, a: Params, x: real)
    requires IsRoot(root) && SaneAxis(a)
    ensures -a.lLimit <= Response(root, a, x) <= a.rLimit
  {
    if a.enabled {
      ResponseSide(root, a, x);
      var u, c := Turned(a, x), Curves(a.curve);
      hide Response, Side, IsRoot, Half;
      SidesRange(root, a, if u < 0.0 then -u else u);
    }
  }

  lemma SidesRange(root: real -> real, a: Params, m: real)
    requires IsRoot(root) && SaneAxis(a) && m >= 0.0
    ensures var c := Curves(a.curve);
      0.0 <= Side(root, c.left, a.factor, a.lLimit, m) <= a.lLimit
        && 0.0 <= Side(root, c.right, a.factor, a.rLimit, m) <= a.rLimit
  {
    var c := Curves(a.curve);
    SideRange(root, c.left, a.curve.deadZone, a.curve.lCurvature, a.factor, a.lLimit, m);
    SideRange(root, c.right, a.curve.deadZone, a.curve.rCurvature, a.factor, a.rLimit, m);
  }

  /** Inside the dead zone of its side an input has no effect; from the limit on it has the full effect. */
  lemma DeadZoneAndEnds(root: real -> real, a: Params, x: real)
    requires IsRoot(root) && SaneAxis(a) && a.enabled
    ensures var u := Turned(a, x);
      && (0.0 <= u * a.factor <= a.curve.deadZone * a.rLimit && u >= 0.0 ==> Response(root, a, x) == 0.0)
      && (u < 0.0 && -u * a.factor <= a.curve.deadZone * a.lLimit ==> Response(root, a, x) == 0.0)
      && (u >= 0.0 && u * a.factor >= a.rLimit >= TINY ==> Response(root, a, x) == a.rLimit)
      && (u < 0.0 && -u * a.factor >= a.lLimit >= TINY ==> Response(root, a, x) == -a.lLimit)
  {
    hide Response, Side, IsRoot, Half;
    ResponseSide(root, a, x);
    var u, c := Turned(a, x), Curves(a.curve);
    if u < 0.0 {
      SideRange(root, c.left, a.curve.deadZone, a.curve.lCurvature, a.factor, a.lLimit, -u);
    } else {
      SideRange(root, c.right, a.curve.deadZone, a.curve.rCurvature, a.factor, a.rLimit, u);
    }
  }

  /** A larger input never gives a smaller response; on an inverted axis, never a larger one. */
  lemma Monotone(root: real -> real, a: Params, x: real, z: real)
    requires IsRoot(root) && SaneAxis(a) && x <= z
    ensures if a.inverted then Response(root, a, z) <= Response(root, a, x)
        else Response(root, a, x) <= Response(root, a, z)
  {
    if a.enabled {
      if a.inverted {
        TurnedClimbs(root, a, z, x);
      } else {
        TurnedClimbs(root, a, x, z);
      }
    }
  }

  lemma TurnedClimbs(root: real -> real, a: Params, x: real, z: real)
    requires IsRoot(root) && SaneAxis(a) && a.enabled && Turned(a, x) <= Turned(a, z)
    ensures Response(root, a, x) <= Response(root, a, z)
  {
    ResponseSide(root, a, x);
    ResponseSide(root, a, z);
    var u, v, c := Turned(a, x), Turned(a, z), Curves(a.curve);
    if v < 0.0 {
      SideClimbs(root, c.left, a.curve.deadZone, a.curve.lCurvature, a.factor, a.lLimit, -v, -u);
    } else if u >= 0.0 {
      SideClimbs(root, c.right, a.curve.deadZone, a.curve.rCurvature, a.factor, a.rLimit, u, v);
    } else {
      SidesRange(root, a, -u);
      SidesRange(root, a, v);
    }
    hide Response, Side, IsRoot, Half;
  }

  lemma ScaledBack(h: real, lim: real)
    requires lim > 0.0
    ensures Scaled(h, lim) / lim == h
  {
  }

  lemma RatioCut(m: real, factor: real, lim: real)
    requires lim > 0.0 && m >= 0.0 && factor >= 0.0
    ensures Clamped(Ratio(m, factor, lim)) == if m * factor < lim then m * factor / lim else 1.0
    ensures 0.0 <= Clamped(Ratio(m, factor, lim)) <= 1.0
  {
    RatioPositive(m, factor, lim);
    RatioTimes(m, factor, lim);
    var q, mf := Ratio(m, factor, lim), m * factor;
    NotBelow(q, 1.0, lim, mf);
    if mf < lim && q >= 1.0 {
      NotBelow(q, 1.0, lim, mf);
      assert q == 1.0;
    }
  }

  lemma SideOnTheCurve(root: real -> real, p: Pts, d: real, k: real, factor: real, lim: real, m: real)
    requires IsRoot(root) && IsHalf(p, d, k) && factor >= 0.0 && lim >= 0.0 && m >= 0.0
    ensures SideAnswers(d, k, factor, lim, m, Side(root, p, factor, lim, m))
  {
    if lim >= TINY {
      RatioCut(m, factor, lim);
      hide HalfPoint, IsRoot, Ratio, Scaled, Answers;
      var q := Clamped(Ratio(m, factor, lim));
      HalfAnswers(root, p, d, k, q);
      ScaledBack(HalfPoint(root, p, q), lim);
    }
  }

  /** The response lies on the curve of its side. */
  lemma OnTheCurve(root: real -> real, a: Params, x: real)
    requires IsRoot(root) && SaneAxis(a)
    ensures AxisAnswers(a, x, Response(root, a, x))
  {
    if a.enabled {
      ResponseSide(root, a, x);
      var u, c := Turned(a, x), Curves(a.curve);
      hide Response, Side, IsRoot, SideAnswers;
      if u < 0.0 {
        SideOnTheCurve(root, c.left, a.curve.deadZone, a.curve.lCurvature, a.factor, a.lLimit, -u);
      } else {
        SideOnTheCurve(root, c.right, a.curve.deadZone, a.curve.rCurvature, a.factor, a.rLimit, u);
      }
    }
  }
}
