/** The pose computation of src/pose.c on values: what it recovers from three moved points. */
module PoseProofs {
  import opened Vectors
  import opened Bases

  /** The three points of the model, or where the camera sees them. */
  datatype Points = Points(p0: V3, p1: V3, p2: V3) {
    function Moved(rot: M3, t: V3): Points {
      Points(Move(rot, t, p0), Move(rot, t, p1), Move(rot, t, p2))
    }
    predicate Collinear() {
      p1.Minus(p0).Cross(p2.Minus(p0)) == ZERO
    }
    predicate Finite(root: real -> real) {
      BaseFinite(root, p1.Minus(p0), p2.Minus(p0))
    }
    function Frame(root: real -> real): M3
      requires Finite(root)
    {
      Base(root, p1.Minus(p0), p2.Minus(p0))
    }
    /** The points seen from c, one per column. */
    function Spread(c: V3): M3 {
      M3(p0.Minus(c), p1.Minus(c), p2.Minus(c)).Transposed()
    }
  }

  /** The head centre c in the coordinates of the model's own base. */
  function Local(root: real -> real, ps: Points, c: V3): V3
    requires ps.Finite(root)
  {
    ps.Frame(root).Apply(c.Minus(ps.p0))
  }

  /** The head centre again, from its local coordinates. */
  function Centre(root: real -> real, ps: Points, local: V3): V3
    requires ps.Finite(root)
  {
    ps.Frame(root).Transposed().Apply(local).Plus(ps.p0)
  }

  function Inverse(m: M3): M3
    requires m.Det() != 0.0
  {
    var c := 1.0 / m.Det();
    M3(m.r1.Cross(m.r2).Scale(c), m.r2.Cross(m.r0).Scale(c), m.r0.Cross(m.r1).Scale(c)).Transposed()
  }

  // ----- inverse matrices -----

  lemma DetTurns(a: V3, b: V3, c: V3)
    ensures a.Cross(b).Dot(c) == b.Cross(c).Dot(a) == c.Cross(a).Dot(b)
    ensures b.Cross(c).Dot(b) == b.Cross(c).Dot(c) == 0.0
  {
    hide V3.Dot, V3.Cross;
    TripleTurns(a, b, c);
    TripleTurns(b, c, a);
    CrossPerpendicular(b, c);
  }

  /** The cofactor rows against the rows. */
  lemma Cofactors(a: V3, b: V3, c: V3, det: real)
    requires det == a.Cross(b).Dot(c) && det != 0.0
    ensures b.Cross(c).Scale(1.0 / det).Dot(a) == 1.0
    ensures b.Cross(c).Scale(1.0 / det).Dot(b) == 0.0
    ensures b.Cross(c).Scale(1.0 / det).Dot(c) == 0.0
  {
    hide V3.Dot, V3.Cross;
    var k := 1.0 / det;
    DetTurns(a, b, c);
    DotLinear(b.Cross(c), a, a, k);
    DotLinear(b.Cross(c), a, b, k);
    DotLinear(b.Cross(c), a, c, k);
  }

  /** The computed matrix is the inverse, on both sides. */
  lemma InverseExact(m: M3)
    requires m.Det() != 0.0
    ensures m.Times(Inverse(m)) == IDENTITY
    ensures Inverse(m).Times(m) == IDENTITY
  {
    InverseRight(m);
    InverseLeft(m);
  }

  lemma InverseRight(m: M3)
    requires m.Det() != 0.0
    ensures m.Times(Inverse(m)) == IDENTITY
  {
    hide V3.Dot, V3.Cross;
    var a, b, c, det := m.r0, m.r1, m.r2, m.Det();
    DetTurns(a, b, c);
    Cofactors(a, b, c, det);
    Cofactors(b, c, a, det);
    Cofactors(c, a, b, det);
    var t := Inverse(m).Transposed();
    assert t == M3(b.Cross(c).Scale(1.0 / det), c.Cross(a).Scale(1.0 / det), a.Cross(b).Scale(1.0 / det));
  }

  lemma InverseLeft(m: M3)
    requires m.Det() != 0.0
    ensures Inverse(m).Times(m) == IDENTITY
  {
    hide V3.Dot, V3.Cross;
    InverseRow(m, IDENTITY.r0);
    InverseRow(m, IDENTITY.r1);
    InverseRow(m, IDENTITY.r2);
    var inv, q := Inverse(m), Inverse(m).Transposed();
    UnitDots(q.r0);
    UnitDots(q.r1);
    UnitDots(q.r2);
    assert inv.r0 == V3(q.r0.x, q.r1.x, q.r2.x) && inv.r1 == V3(q.r0.y, q.r1.y, q.r2.y)
      && inv.r2 == V3(q.r0.z, q.r1.z, q.r2.z);
  }

  lemma UnitDots(v: V3)
    ensures v.Dot(IDENTITY.r0) == v.x && v.Dot(IDENTITY.r1) == v.y && v.Dot(IDENTITY.r2) == v.z
  {
  }

  lemma InverseRow(m: M3, v: V3)
    requires m.Det() != 0.0
    ensures m.Transposed().Apply(Inverse(m).Transposed().Apply(v)) == v
  {
    hide V3.Dot, V3.Cross;
    var a, b, c, det := m.r0, m.r1, m.r2, m.Det();
    var k := 1.0 / det;
    var u := Inverse(m).Transposed().Apply(v);
    assert Inverse(m).Transposed() == M3(b.Cross(c).Scale(k), c.Cross(a).Scale(k), a.Cross(b).Scale(k));
    Cramer(a, b, c, v);
    Combines(m, u);
    DotLinear(b.Cross(c), a, v, k);
    DotLinear(c.Cross(a), a, v, k);
    DotLinear(a.Cross(b), a, v, k);
    var x, y, z := b.Cross(c).Dot(v), c.Cross(a).Dot(v), a.Cross(b).Dot(v);
    SharePart(a, b, c, v, det, k, x, y, z);
    assert u.x == x * k && u.y == y * k && u.z == z * k;
    hide V3.Scale;
    assert a.Scale(u.x) == a.Scale(x * k) && b.Scale(u.y) == b.Scale(y * k) && c.Scale(u.z) == c.Scale(z * k);
  }

  lemma SharePart(a: V3, b: V3, c: V3, v: V3, det: real, k: real, x: real, y: real, z: real)
    requires det != 0.0 && k == 1.0 / det
    requires v.Scale(det) == a.Scale(x).Plus(b.Scale(y)).Plus(c.Scale(z))
    ensures a.Scale(x * k).Plus(b.Scale(y * k)).Plus(c.Scale(z * k)) == v
  {
    hide V3.Scale, V3.Plus;
    var p, q, r := a.Scale(x), b.Scale(y), c.Scale(z);
    ScalePlus(p.Plus(q), r, k);
    ScalePlus(p, q, k);
    ScaleScale(a, x, k);
    ScaleScale(b, y, k);
    ScaleScale(c, z, k);
    assert k * det == 1.0;
    ScaleBack(v, det, k);
  }

  /** A product with an inverse pair leaves the first factor. */
  lemma Cancels(r: M3, s: M3, t: M3)
    requires s.Times(t) == IDENTITY
    ensures r.Times(s).Times(t) == r
  {
    hide V3.Dot, V3.Cross;
    CancelsRow(s, t, r.r0);
    CancelsRow(s, t, r.r1);
    CancelsRow(s, t, r.r2);
    hide M3.Transposed, M3.Apply;
  }

  lemma CancelsRow(s: M3, t: M3, v: V3)
    requires s.Times(t) == IDENTITY
    ensures t.Transposed().Apply(s.Transposed().Apply(v)) == v
  {
    var q := t.Transposed();
    Combines(s, v);
    hide V3.Dot, M3.Apply;
    ApplyLinear(q, s.r0, s.r0, v.x);
    ApplyLinear(q, s.r1, s.r1, v.y);
    ApplyLinear(q, s.r2, s.r2, v.z);
    ApplyLinear(q, s.r0.Scale(v.x), s.r1.Scale(v.y), 1.0);
    ApplyLinear(q, s.r0.Scale(v.x).Plus(s.r1.Scale(v.y)), s.r2.Scale(v.z), 1.0);
  }

  // ----- the head centre -----

  /** The points span a base exactly when they do not lie on one line. */
  lemma FiniteIffNotCollinear(root: real -> real, ps: Points)
    requires IsRoot(root)
    ensures ps.Finite(root) <==> !ps.Collinear()
  {
    FiniteIffSpan(root, ps.p1.Minus(ps.p0), ps.p2.Minus(ps.p0));
  }

  /** Local coordinates and back. */
  lemma CentreRoundTrip(root: real -> real, ps: Points, c: V3)
    requires IsRoot(root) && ps.Finite(root)
    ensures Centre(root, ps, Local(root, ps, c)) == c
    ensures Local(root, ps, Centre(root, ps, c)) == c
  {
    BaseIsRotation(root, ps.p1.Minus(ps.p0), ps.p2.Minus(ps.p0));
    var b := ps.Frame(root);
    hide IsRotation, M3.Apply, Base;
    RotationUndone(b, c.Minus(ps.p0));
    RotationUndone(b, c);
    assert Centre(root, ps, c).Minus(ps.p0) == b.Transposed().Apply(c);
  }

  lemma MoveDifference(rot: M3, t: V3, p: V3, q: V3)
    ensures Move(rot, t, p).Minus(Move(rot, t, q)) == rot.Apply(p.Minus(q))
  {
    ApplyLinear(rot, p, q, 1.0);
  }

  /** Moving the points moves their frame, and never changes whether it is finite. */
  lemma FrameMoves(root: real -> real, ps: Points, rot: M3, t: V3)
    requires IsRotation(rot)
    ensures ps.Moved(rot, t).Finite(root) == ps.Finite(root)
    ensures ps.Finite(root) ==> var b := ps.Frame(root);
      ps.Moved(rot, t).Frame(root) == M3(rot.Apply(b.r0), rot.Apply(b.r1), rot.Apply(b.r2))
  {
    hide Base, BaseFinite, IsRotation, M3.Apply;
    MoveDifference(rot, t, ps.p1, ps.p0);
    MoveDifference(rot, t, ps.p2, ps.p0);
    BaseTurns(root, rot, ps.p1.Minus(ps.p0), ps.p2.Minus(ps.p0));
  }

  lemma TurnedRows(rot: M3, b: M3, v: V3)
    ensures M3(rot.Apply(b.r0), rot.Apply(b.r1), rot.Apply(b.r2)).Transposed().Apply(v)
        == rot.Apply(b.Transposed().Apply(v))
  {
    var turned := M3(rot.Apply(b.r0), rot.Apply(b.r1), rot.Apply(b.r2));
    Combines(b, v);
    Combines(turned, v);
    hide V3.Dot, M3.Apply;
    ApplyLinear(rot, b.r0, b.r0, v.x);
    ApplyLinear(rot, b.r1, b.r1, v.y);
    ApplyLinear(rot, b.r2, b.r2, v.z);
    ApplyLinear(rot, b.r0.Scale(v.x), b.r1.Scale(v.y), 1.0);
    ApplyLinear(rot, b.r0.Scale(v.x).Plus(b.r1.Scale(v.y)), b.r2.Scale(v.z), 1.0);
  }

  /** The computed head centre follows every rigid motion of the points. */
  lemma CentreMoves(root: real -> real, ps: Points, local: V3, rot: M3, t: V3)
    requires IsRotation(rot) && ps.Finite(root)
    ensures ps.Moved(rot, t).Finite(root)
    ensures Centre(root, ps.Moved(rot, t), local) == Move(rot, t, Centre(root, ps, local))
  {
    FrameMoves(root, ps, rot, t);
    var b := ps.Frame(root);
    TurnedRows(rot, b, local);
    ApplyLinear(rot, b.Transposed().Apply(local), ps.p0, 1.0);
    hide M3.Apply, IsRotation, Points.Frame, Points.Finite;
  }

  // ----- the rotation -----

  lemma TurnedColumns(rot: M3, a: V3, b: V3, c: V3)
    ensures M3(rot.Apply(a), rot.Apply(b), rot.Apply(c)).Transposed() == rot.Times(M3(a, b, c).Transposed())
  {
    DotSymmetric(rot.r0, a);
    DotSymmetric(rot.r0, b);
    DotSymmetric(rot.r0, c);
    DotSymmetric(rot.r1, a);
    DotSymmetric(rot.r1, b);
    DotSymmetric(rot.r1, c);
    DotSymmetric(rot.r2, a);
    DotSymmetric(rot.r2, b);
    DotSymmetric(rot.r2, c);
    hide V3.Dot;
  }

  lemma SpreadMoves(ps: Points, c: V3, rot: M3, t: V3)
    ensures ps.Moved(rot, t).Spread(Move(rot, t, c)) == rot.Times(ps.Spread(c))
  {
    hide M3.Apply, M3.Transposed, M3.Times;
    MoveDifference(rot, t, ps.p0, c);
    MoveDifference(rot, t, ps.p1, c);
    MoveDifference(rot, t, ps.p2, c);
    TurnedColumns(rot, ps.p0.Minus(c), ps.p1.Minus(c), ps.p2.Minus(c));
  }

  /** The pose: after any rigid motion the rotation and the displacement of the head centre come out exactly. */
  lemma PoseRecovered(root: real -> real, ps: Points, local: V3, rot: M3, t: V3)
    requires IsRotation(rot) && ps.Finite(root)
    requires ps.Spread(Centre(root, ps, local)).Det() != 0.0
    ensures var c, qs := Centre(root, ps, local), ps.Moved(rot, t);
      && qs.Finite(root)
      && Centre(root, qs, local) == Move(rot, t, c)
      && qs.Spread(Centre(root, qs, local)).Times(Inverse(ps.Spread(c))) == rot
  {
    hide M3.Apply, M3.Transposed, M3.Times, IsRotation, Points.Spread, Points.Moved, Centre, Inverse, M3.Det;
    var c := Centre(root, ps, local);
    CentreMoves(root, ps, local, rot, t);
    SpreadMoves(ps, c, rot, t);
    InverseExact(ps.Spread(c));
    Cancels(rot, ps.Spread(c), Inverse(ps.Spread(c)));
  }

  /** The older algorithm multiplies the transposed base of now with the base of then. */
  lemma OldRotationAgrees(root: real -> real, ps: Points, rot: M3, t: V3)
    requires IsRoot(root) && IsRotation(rot) && ps.Finite(root)
    ensures ps.Moved(rot, t).Finite(root)
    ensures ps.Moved(rot, t).Frame(root).Transposed().Times(ps.Frame(root)) == rot
  {
    var b := ps.Frame(root);
    FrameMoves(root, ps, rot, t);
    BaseIsRotation(root, ps.p1.Minus(ps.p0), ps.p2.Minus(ps.p0));
    hide IsRotation, Points.Finite, Points.Frame, Points.Moved;
    RotationUndone(b, rot.r0);
    RotationUndone(b, rot.r1);
    RotationUndone(b, rot.r2);
    TransposedRows(rot, b);
    hide M3.Apply;
  }

  lemma TransposedRows(rot: M3, b: M3)
    ensures M3(rot.Apply(b.r0), rot.Apply(b.r1), rot.Apply(b.r2)).Transposed()
         == M3(b.Apply(rot.r0), b.Apply(rot.r1), b.Apply(rot.r2))
  {
    DotSymmetric(rot.r0, b.r0);
    DotSymmetric(rot.r0, b.r1);
    DotSymmetric(rot.r0, b.r2);
    DotSymmetric(rot.r1, b.r0);
    DotSymmetric(rot.r1, b.r1);
    DotSymmetric(rot.r1, b.r2);
    DotSymmetric(rot.r2, b.r0);
    DotSymmetric(rot.r2, b.r1);
    DotSymmetric(rot.r2, b.r2);
    hide V3.Dot;
  }

  // ----- when centering succeeds -----

  lemma DetTransposed(m: M3)
    ensures m.Transposed().Det() == m.Det()
  {
    DetPart(m.r0.x, m.r0.y, m.r0.z, m.r1.x, m.r1.y, m.r1.z, m.r2.x, m.r2.y, m.r2.z);
  }

  lemma DetPart(a0: real, a1: real, a2: real, b0: real, b1: real, b2: real, c0: real, c1: real, c2: real)
    ensures (a1 * b2 - a2 * b1) * c0 + (a2 * b0 - a0 * b2) * c1 + (a0 * b1 - a1 * b0) * c2
         == (b0 * c1 - c0 * b1) * a2 + (c0 * a1 - a0 * c1) * b2 + (a0 * b1 - b0 * a1) * c2
  {
  }

  lemma DetOfSpread(d: V3, v: V3, w: V3)
    ensures M3(d, d.Plus(v), d.Plus(w)).Det() == v.Cross(w).Dot(d)
  {
    hide V3.Dot, V3.Cross;
    CrossSum(d, v, d);
    Anticommutes(d, d);
    assert d.Cross(d.Plus(v)) == d.Cross(v);
    var n := d.Cross(v);
    DotLinear(d, w, n, 1.0);
    DotSymmetric(n, d.Plus(w));
    CrossPerpendicular(d, v);
    DotSymmetric(n, d);
    DotSymmetric(n, w);
    DetTurns(d, v, w);
  }

  lemma SpreadDet(ps: Points, c: V3)
    ensures ps.Spread(c).Det() == ps.p1.Minus(ps.p0).Cross(ps.p2.Minus(ps.p0)).Dot(ps.p0.Minus(c))
  {
    var d, v, w := ps.p0.Minus(c), ps.p1.Minus(ps.p0), ps.p2.Minus(ps.p0);
    assert d.Plus(v) == ps.p1.Minus(c) && d.Plus(w) == ps.p2.Minus(c);
    hide M3.Det, M3.Transposed, V3.Dot, V3.Cross;
    DetOfSpread(d, v, w);
    DetTransposed(M3(d, d.Plus(v), d.Plus(w)));
  }

  lemma NormalOfPlane(root: real -> real, v1: V3, v2: V3)
    requires IsRoot(root) && BaseFinite(root, v1, v2)
    ensures var rest := Rest(v2, Unit(root, v1));
      v1.Cross(v2) == Base(root, v1, v2).r2.Scale(Size(root, v1) * Size(root, rest))
  {
    hide V3.Dot, V3.Cross, V3.Scale, V3.Plus, Size, Rest, Unit, Base;
    var e0 := Unit(root, v1);
    var rest := Rest(v2, e0);
    var e1 := Unit(root, rest);
    BaseNormal(root, v1, v2);
    UnitFacts(root, v1);
    RestPerpendicular(v2, e0);
    UnitFacts(root, rest);
    CrossOfRest(e0, Size(root, v1), rest, v2.Dot(e0));
    CrossScale(e0, e1, Size(root, rest));
    var s, l := Size(root, v1), Size(root, Rest(v2, Unit(root, v1)));
    ScaledTwice(e0.Cross(e1), l, s, Size(root, v1) * Size(root, Rest(v2, Unit(root, v1))));
  }

  lemma ScaledTwice(v: V3, l: real, s: real, q: real)
    requires q == s * l
    ensures v.Scale(l).Scale(s) == v.Scale(q)
  {
    ScaleScale(v, l, s);
  }

  lemma BaseNormal(root: real -> real, v1: V3, v2: V3)
    requires BaseFinite(root, v1, v2)
    ensures var e0 := Unit(root, v1);
      && Size(root, v1) != 0.0 && Size(root, Rest(v2, e0)) != 0.0
      && Base(root, v1, v2).r2 == e0.Cross(Unit(root, Rest(v2, e0)))
  {
    hide Unit, Rest, V3.Cross;
  }

  /** The determinant that centering divides by is the height of the head centre over the plane of the points,
      scaled. */
  lemma HeightOfCentre(root: real -> real, ps: Points, local: V3)
    requires IsRoot(root) && ps.Finite(root)
    ensures ps.Spread(Centre(root, ps, local)).Det() == 0.0 <==> local.z == 0.0
  {
    var v1, v2, b := ps.p1.Minus(ps.p0), ps.p2.Minus(ps.p0), ps.Frame(root);
    var off, c := b.Transposed().Apply(local), Centre(root, ps, local);
    var s, l := Size(root, v1), Size(root, Rest(v2, Unit(root, v1)));
    BaseIsRotation(root, v1, v2);
    NormalOfPlane(root, v1, v2);
    SpreadDet(ps, c);
    assert ps.p0.Minus(c) == off.Scale(-1.0);
    HeightPart(b, local, s, l, v1.Cross(v2), ps.p0.Minus(c));
  }

  lemma HeightPart(b: M3, local: V3, s: real, l: real, n: V3, d: V3)
    requires IsRotation(b) && s != 0.0 && l != 0.0
    requires n == b.r2.Scale(s * l) && d == b.Transposed().Apply(local).Scale(-1.0)
    ensures n.Dot(d) == 0.0 <==> local.z == 0.0
  {
    hide V3.Cross, V3.Dot, M3.Transposed, V3.Scale;
    var off := b.Transposed().Apply(local);
    DotCombination(b, local, b.r2);
    assert off.Dot(b.r2) == local.z by {
      DotSymmetric(b.r0, b.r2);
    }
    DotLinear(b.r2, b.r2, d, s * l);
    DotLinear(off, off, b.r2, -1.0);
    DotSymmetric(b.r2, d);
    ProductZero(s, l, s * l);
    FactorZero(b.r2.Dot(d), s * l, n.Dot(d));
  }

  lemma ProductZero(s: real, l: real, p: real)
    requires s != 0.0 && l != 0.0 && p == s * l
    ensures p != 0.0
  {
    assert p * (1.0 / l) == s;
  }

  lemma FactorZero(q: real, k: real, p: real)
    requires k != 0.0 && p == q * k
    ensures p == 0.0 <==> q == 0.0
  {
    assert p * (1.0 / k) == q;
  }
}
