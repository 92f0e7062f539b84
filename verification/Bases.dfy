/** Gram-Schmidt bases and their behaviour under rotation. */
module Bases {
  import opened Vectors

  /** What sqrt is on exact reals. */
  ghost predicate IsRoot(root: real -> real) {
    forall r :: r >= 0.0 ==> root(r) >= 0.0 && root(r) * root(r) == r
  }

  function Size(root: real -> real, v: V3): real {
    root(v.Dot(v))
  }

  function Unit(root: real -> real, v: V3): V3
    requires Size(root, v) != 0.0
  {
    v.Scale(1.0 / Size(root, v))
  }

  /** What is left of v after its part along the unit vector e is taken away. */
  function Rest(v: V3, e: V3): V3 {
    v.Minus(e.Scale(v.Dot(e)))
  }

  /** No division by zero on the way to the base: all its entries are finite. */
  predicate BaseFinite(root: real -> real, v1: V3, v2: V3) {
    Size(root, v1) != 0.0 && Size(root, Rest(v2, Unit(root, v1))) != 0.0
  }

  function Base(root: real -> real, v1: V3, v2: V3): M3
    requires BaseFinite(root, v1, v2)
  {
    var e0 := Unit(root, v1);
    var e1 := Unit(root, Rest(v2, e0));
    M3(e0, e1, e0.Cross(e1))
  }

  // ----- orthonormality -----

  lemma SizeFacts(root: real -> real, v: V3)
    requires IsRoot(root)
    ensures Size(root, v) >= 0.0 && Size(root, v) * Size(root, v) == v.Dot(v)
    ensures Size(root, v) == 0.0 <==> v == ZERO
  {
    hide V3.Dot;
    SquareZero(v);
    var s := Size(root, v);
    if v == ZERO && s != 0.0 {
      Positive(s, s, v.Dot(v));
    }
  }

  lemma ScaleSquare(v: V3, c: real, d: real)
    requires d == v.Dot(v)
    ensures v.Scale(c).Dot(v.Scale(c)) == d * c * c
  {
    hide V3.Dot;
    DotLinear(v, v, v.Scale(c), c);
    DotLinear(v, v, v, c);
    DotSymmetric(v, v.Scale(c));
  }

  lemma OverSize(s: real, d: real, c: real)
    requires s != 0.0 && d == s * s && c == 1.0 / s
    ensures d * c * c == 1.0 && s * c == 1.0
  {
    assert s * c == 1.0;
    assert d * c == s * (s * c);
  }

  lemma UnitFacts(root: real -> real, v: V3)
    requires IsRoot(root) && Size(root, v) != 0.0
    ensures Unit(root, v).Dot(Unit(root, v)) == 1.0
    ensures v == Unit(root, v).Scale(Size(root, v))
  {
    SizeFacts(root, v);
    var s := Size(root, v);
    var c := 1.0 / s;
    OverSize(s, v.Dot(v), c);
    ScaleSquare(v, c, v.Dot(v));
    ScaleBack(v, c, s);
  }

  lemma ScaleBack(v: V3, c: real, s: real)
    requires s * c == 1.0
    ensures v.Scale(c).Scale(s) == v
  {
    ScaleBackPart(v.x, c, s);
    ScaleBackPart(v.y, c, s);
    ScaleBackPart(v.z, c, s);
  }

  lemma ScaleBackPart(x: real, c: real, s: real)
    requires s * c == 1.0
    ensures (x * c) * s == x
  {
    assert (x * c) * s == x * (s * c);
  }

  lemma RestPerpendicular(v: V3, e: V3)
    requires e.Dot(e) == 1.0
    ensures Rest(v, e).Dot(e) == 0.0
    ensures v == Rest(v, e).Plus(e.Scale(v.Dot(e)))
  {
    hide V3.Dot;
    DotLinear(v, e.Scale(v.Dot(e)), e, 1.0);
    DotLinear(e, e, e, v.Dot(e));
  }

  lemma UnitPerpendicular(root: real -> real, v: V3, e: V3)
    requires Size(root, v) != 0.0 && v.Dot(e) == 0.0
    ensures Unit(root, v).Dot(e) == 0.0
  {
    hide V3.Dot;
    DotLinear(v, v, e, 1.0 / Size(root, v));
  }

  /** The computed base is orthonormal and right-handed. */
  lemma BaseIsRotation(root: real -> real, v1: V3, v2: V3)
    requires IsRoot(root) && BaseFinite(root, v1, v2)
    ensures IsRotation(Base(root, v1, v2))
  {
    hide V3.Dot, V3.Cross, Size, Rest, Unit;
    var e0 := Unit(root, v1);
    var rest := Rest(v2, e0);
    var e1 := Unit(root, rest);
    UnitFacts(root, v1);
    RestPerpendicular(v2, e0);
    UnitFacts(root, rest);
    UnitPerpendicular(root, rest, e0);
    DotSymmetric(e0, e1);
    CrossPerpendicular(e0, e1);
    DotSymmetric(e0.Cross(e1), e0);
    DotSymmetric(e0.Cross(e1), e1);
    BinetCauchy(e0, e1, e0, e1);
  }

  /** The base exists exactly when the two vectors span a plane. */
  lemma FiniteIffSpan(root: real -> real, v1: V3, v2: V3)
    requires IsRoot(root)
    ensures BaseFinite(root, v1, v2) <==> v1.Cross(v2) != ZERO
  {
    hide V3.Dot, Size, Rest, Unit;
    SizeFacts(root, v1);
    if Size(root, v1) != 0.0 {
      var e0, s := Unit(root, v1), Size(root, v1);
      var rest := Rest(v2, e0);
      UnitFacts(root, v1);
      RestPerpendicular(v2, e0);
      SizeFacts(root, rest);
      CrossOfRest(e0, s, rest, v2.Dot(e0));
    } else {
      CrossScale(v2, v2, 0.0);
      assert ZERO.Cross(v2) == ZERO;
    }
  }

  lemma CrossOfRest(e: V3, s: real, rest: V3, k: real)
    requires e.Dot(e) == 1.0 && rest.Dot(e) == 0.0
    ensures e.Scale(s).Cross(rest.Plus(e.Scale(k))) == e.Cross(rest).Scale(s)
    ensures s != 0.0 ==> (e.Cross(rest).Scale(s) == ZERO <==> rest == ZERO)
  {
    hide V3.Dot, V3.Cross;
    ScaleCross(e, rest.Plus(e.Scale(k)), s);
    CrossSum(rest, e.Scale(k), e);
    CrossScale(e, e, k);
    Anticommutes(e, e);
    assert ZERO.Scale(k) == ZERO;
    assert e.Cross(rest.Plus(e.Scale(k))) == e.Cross(rest);
    CrossOfUnit(e, rest);
    ScaleZero(e.Cross(rest), s);
  }

  lemma ScaleZero(v: V3, s: real)
    ensures s != 0.0 ==> (v.Scale(s) == ZERO <==> v == ZERO)
  {
    if s != 0.0 && v.Scale(s) == ZERO {
      ScaleBack(v, s, 1.0 / s);
      assert ZERO.Scale(1.0 / s) == ZERO;
    }
  }

  lemma CrossOfUnit(e: V3, v: V3)
    requires e.Dot(e) == 1.0 && v.Dot(e) == 0.0
    ensures e.Cross(v) == ZERO <==> v == ZERO
  {
    hide V3.Dot, V3.Cross;
    BinetCauchy(e, v, e, v);
    DotSymmetric(e, v);
    SquareZero(v);
    SquareZero(e.Cross(v));
  }

  // ----- rotations -----

  /** The transposed rotation undoes the rotation, and the other way round. */
  lemma RotationUndone(m: M3, v: V3)
    requires IsRotation(m)
    ensures m.Transposed().Apply(m.Apply(v)) == v
    ensures m.Apply(m.Transposed().Apply(v)) == v
  {
    hide V3.Dot, V3.Cross;
    RotationRows(m);
    Combines(m, m.Apply(v));
    Expand(m.r0, m.r1, m.r2, v);
    Combines(m, v);
    DotCombination(m, v, m.r0);
    DotCombination(m, v, m.r1);
    DotCombination(m, v, m.r2);
    DotSymmetric(m.r0, m.r1);
    DotSymmetric(m.r0, m.r2);
    DotSymmetric(m.r1, m.r2);
    var w := m.Transposed().Apply(v);
    DotSymmetric(m.r0, w);
    DotSymmetric(m.r1, w);
    DotSymmetric(m.r2, w);
  }

  lemma DotCombination(m: M3, u: V3, w: V3)
    ensures m.Transposed().Apply(u).Dot(w) == m.r0.Dot(w) * u.x + m.r1.Dot(w) * u.y + m.r2.Dot(w) * u.z
  {
    hide V3.Dot;
    Combines(m, u);
    var a, b, c := m.r0.Scale(u.x), m.r1.Scale(u.y), m.r2.Scale(u.z);
    DotLinear(a.Plus(b), c, w, 1.0);
    DotLinear(a, b, w, 1.0);
    DotLinear(m.r0, a, w, u.x);
    DotLinear(m.r1, a, w, u.y);
    DotLinear(m.r2, a, w, u.z);
  }

  /** A vector is the sum of its parts along an orthonormal system. */
  lemma Expand(a: V3, b: V3, c: V3, v: V3)
    requires c.Dot(c) == 1.0 && a.Cross(b) == c && b.Cross(c) == a && c.Cross(a) == b
    ensures v == a.Scale(a.Dot(v)).Plus(b.Scale(b.Dot(v))).Plus(c.Scale(c.Dot(v)))
  {
    hide V3.Dot, V3.Cross;
    Cramer(a, b, c, v);
  }

  /** Cramer's rule: any vector from three others. */
  lemma Cramer(a: V3, b: V3, c: V3, v: V3)
    ensures v.Scale(a.Cross(b).Dot(c))
         == a.Scale(b.Cross(c).Dot(v)).Plus(b.Scale(c.Cross(a).Dot(v))).Plus(c.Scale(a.Cross(b).Dot(v)))
  {
    hide V3.Dot, V3.Cross;
    var d, p := c.Cross(v), a.Cross(b);
    BacCab(p, c, v);
    BacCab(d, a, b);
    Anticommutes(d, p);
    TripleSides(c, v, a, b);
    Recombine(a, b, c, v, d.Dot(b), d.Dot(a), p.Dot(v), p.Dot(c));
  }

  /** (c x v) . b = (b x c) . v and (c x v) . a = -(c x a) . v */
  lemma TripleSides(c: V3, v: V3, a: V3, b: V3)
    ensures c.Cross(v).Dot(b) == b.Cross(c).Dot(v)
    ensures c.Cross(v).Dot(a) == -c.Cross(a).Dot(v)
  {
  }

  lemma Recombine(a: V3, b: V3, c: V3, v: V3, db: real, da: real, pv: real, pc: real)
    requires c.Scale(pv).Minus(v.Scale(pc)).Scale(-1.0) == a.Scale(db).Minus(b.Scale(da))
    ensures v.Scale(pc) == a.Scale(db).Plus(b.Scale(-da)).Plus(c.Scale(pv))
  {
  }

  lemma RotationKeepsDot(m: M3, v: V3, w: V3)
    requires IsRotation(m)
    ensures m.Apply(v).Dot(m.Apply(w)) == v.Dot(w)
  {
    hide V3.Cross, M3.Transposed, V3.Dot;
    RotationUndone(m, w);
    Adjoint(m, v, m.Apply(w));
  }

  lemma Adjoint(m: M3, v: V3, u: V3)
    ensures m.Apply(v).Dot(u) == v.Dot(m.Transposed().Apply(u))
  {
    DotCombination(m, u, v);
    DotSymmetric(v, m.Transposed().Apply(u));
  }

  lemma RotationKeepsCross(m: M3, v: V3, w: V3)
    requires IsRotation(m)
    ensures m.Apply(v).Cross(m.Apply(w)) == m.Apply(v.Cross(w))
  {
    RotationRows(m);
    BinetCauchy(m.r1, m.r2, v, w);
    BinetCauchy(m.r2, m.r0, v, w);
    BinetCauchy(m.r0, m.r1, v, w);
    hide V3.Dot;
  }

  lemma RotationKeepsSize(root: real -> real, m: M3, v: V3)
    requires IsRotation(m)
    ensures Size(root, m.Apply(v)) == Size(root, v)
    ensures Size(root, v) != 0.0 ==> Unit(root, m.Apply(v)) == m.Apply(Unit(root, v))
  {
    hide V3.Dot;
    RotationKeepsDot(m, v, v);
    if Size(root, v) != 0.0 {
      ApplyLinear(m, v, v, 1.0 / Size(root, v));
    }
  }

  lemma RotationKeepsRest(m: M3, v: V3, e: V3)
    requires IsRotation(m)
    ensures Rest(m.Apply(v), m.Apply(e)) == m.Apply(Rest(v, e))
  {
    hide V3.Dot, M3.Apply;
    RotationKeepsDot(m, v, e);
    ApplyLinear(m, v, e.Scale(v.Dot(e)), 1.0);
    ApplyLinear(m, e, e, v.Dot(e));
  }

  /** Turning both vectors turns the base. */
  lemma BaseTurns(root: real -> real, m: M3, v1: V3, v2: V3)
    requires IsRotation(m)
    ensures BaseFinite(root, m.Apply(v1), m.Apply(v2)) == BaseFinite(root, v1, v2)
    ensures BaseFinite(root, v1, v2) ==>
      var b := Base(root, v1, v2);
      Base(root, m.Apply(v1), m.Apply(v2)) == M3(m.Apply(b.r0), m.Apply(b.r1), m.Apply(b.r2))
  {
    hide V3.Dot, M3.Apply, V3.Cross, Size, Unit, Rest, IsRotation;
    RotationKeepsSize(root, m, v1);
    if Size(root, v1) != 0.0 {
      var e0 := Unit(root, v1);
      var rest := Rest(v2, e0);
      RotationKeepsRest(m, v2, e0);
      RotationKeepsSize(root, m, rest);
      if Size(root, rest) != 0.0 {
        RotationKeepsCross(m, e0, Unit(root, rest));
      }
    }
  }
}
