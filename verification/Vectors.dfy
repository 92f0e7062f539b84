/** Vectors and 3x3 matrices over the reals, with the identities the pose computation rests on. */
module Vectors {

  datatype V3 = V3(x: real, y: real, z: real) {
    function Plus(v: V3): V3 { V3(x + v.x, y + v.y, z + v.z) }
    function Minus(v: V3): V3 { V3(x - v.x, y - v.y, z - v.z) }
    function Scale(c: real): V3 { V3(x * c, y * c, z * c) }
    function Dot(v: V3): real { x * v.x + y * v.y + z * v.z }
    function Cross(v: V3): V3 { V3(y * v.z - z * v.y, z * v.x - x * v.z, x * v.y - y * v.x) }
  }

  const ZERO := V3(0.0, 0.0, 0.0)

  /** A matrix, row by row. */
  datatype M3 = M3(r0: V3, r1: V3, r2: V3) {
    function Transposed(): M3 {
      M3(V3(r0.x, r1.x, r2.x), V3(r0.y, r1.y, r2.y), V3(r0.z, r1.z, r2.z))
    }
    function Apply(v: V3): V3 { V3(r0.Dot(v), r1.Dot(v), r2.Dot(v)) }
    function Times(m: M3): M3 {
      var t := m.Transposed();
      M3(t.Apply(r0), t.Apply(r1), t.Apply(r2))
    }
    function Det(): real { r0.Cross(r1).Dot(r2) }
    function Scale(c: real): M3 { M3(r0.Scale(c), r1.Scale(c), r2.Scale(c)) }
  }

  const IDENTITY := M3(V3(1.0, 0.0, 0.0), V3(0.0, 1.0, 0.0), V3(0.0, 0.0, 1.0))

  predicate Orthonormal(m: M3) {
    && m.r0.Dot(m.r0) == 1.0 && m.r1.Dot(m.r1) == 1.0 && m.r2.Dot(m.r2) == 1.0
    && m.r0.Dot(m.r1) == 0.0 && m.r0.Dot(m.r2) == 0.0 && m.r1.Dot(m.r2) == 0.0
  }

  /** A rotation: orthonormal rows, determinant one. */
  predicate IsRotation(m: M3) {
    Orthonormal(m) && m.Det() == 1.0
  }

  /** A rigid motion: rotate, then move. */
  function Move(rot: M3, t: V3, p: V3): V3 {
    rot.Apply(p).Plus(t)
  }

  // ----- dot and cross -----

  lemma DotLinear(a: V3, b: V3, c: V3, s: real)
    ensures a.Plus(b).Dot(c) == a.Dot(c) + b.Dot(c)
    ensures a.Minus(b).Dot(c) == a.Dot(c) - b.Dot(c)
    ensures a.Scale(s).Dot(c) == a.Dot(c) * s
    ensures a.Dot(c) == c.Dot(a)
  {
  }

  function Sq(r: real): real { r * r }

  lemma SqPositive(r: real)
    ensures Sq(r) >= 0.0
    ensures r != 0.0 ==> Sq(r) > 0.0
  {
    if r > 0.0 {
      Positive(r, r, Sq(r));
    } else if r < 0.0 {
      Positive(-r, -r, Sq(r));
    }
  }

  lemma Positive(a: real, b: real, p: real)
    requires a > 0.0 && b > 0.0 && p == a * b
    ensures p > 0.0
  {
    assert a * b > 0.0;
  }

  lemma SumPositive(v: V3)
    ensures Sq(v.x) + Sq(v.y) + Sq(v.z) >= 0.0
    ensures v != ZERO ==> Sq(v.x) + Sq(v.y) + Sq(v.z) > 0.0
  {
    hide Sq;
    SqPositive(v.x);
    SqPositive(v.y);
    SqPositive(v.z);
    if v.x == 0.0 && v.y == 0.0 && v.z == 0.0 {
      assert v == ZERO;
    }
  }

  lemma SquareZero(v: V3)
    ensures v.Dot(v) >= 0.0
    ensures v != ZERO ==> v.Dot(v) > 0.0
    ensures v == ZERO ==> v.Dot(v) == 0.0
  {
    SumPositive(v);
    assert Sq(v.x) == v.x * v.x && Sq(v.y) == v.y * v.y && Sq(v.z) == v.z * v.z;
  }

  lemma CrossPerpendicular(a: V3, b: V3)
    ensures a.Cross(b).Dot(a) == 0.0 && a.Cross(b).Dot(b) == 0.0
  {
  }

  // ----- identities, one coordinate at a time -----

  /** The axes renamed cyclically. */
  function Turn(v: V3): V3 { V3(v.y, v.z, v.x) }

  lemma TurnCross(a: V3, b: V3)
    ensures Turn(a).Cross(Turn(b)) == Turn(a.Cross(b))
    ensures Turn(a).Dot(Turn(b)) == a.Dot(b)
  {
  }

  /** The triple product expanded. */
  lemma BacCab(a: V3, b: V3, c: V3)
    ensures a.Cross(b.Cross(c)) == b.Scale(a.Dot(c)).Minus(c.Scale(a.Dot(b)))
  {
    hide V3.Dot, V3.Cross;
    BacCabX(a, b, c);
    BacCabX(Turn(a), Turn(b), Turn(c));
    BacCabX(Turn(Turn(a)), Turn(Turn(b)), Turn(Turn(c)));
    TurnBacCab(a, b, c);
    TurnBacCab(Turn(a), Turn(b), Turn(c));
  }

  lemma TurnBacCab(a: V3, b: V3, c: V3)
    ensures Turn(a).Cross(Turn(b).Cross(Turn(c))) == Turn(a.Cross(b.Cross(c)))
    ensures Turn(a).Dot(Turn(c)) == a.Dot(c) && Turn(a).Dot(Turn(b)) == a.Dot(b)
  {
    hide V3.Dot, V3.Cross;
    TurnCross(b, c);
    TurnCross(a, b.Cross(c));
    TurnCross(a, b);
    TurnCross(a, c);
  }

  lemma BacCabX(a: V3, b: V3, c: V3)
    ensures a.Cross(b.Cross(c)).x == b.x * a.Dot(c) - c.x * a.Dot(b)
  {
    var d := b.Cross(c);
    BacCabPart(a.x, a.y, a.z, b.x, b.y, b.z, c.x, c.y, c.z, d.y, d.z, a.Dot(c), a.Dot(b));
  }

  lemma BacCabPart(a0: real, a1: real, a2: real, b0: real, b1: real, b2: real, c0: real, c1: real, c2: real,
                   d1: real, d2: real, ac: real, ab: real)
    requires d2 == b0 * c1 - b1 * c0 && d1 == b2 * c0 - b0 * c2
    requires ac == a0 * c0 + a1 * c1 + a2 * c2 && ab == a0 * b0 + a1 * b1 + a2 * b2
    ensures a1 * d2 - a2 * d1 == b0 * ac - c0 * ab
  {
  }

  lemma TripleTurns(a: V3, b: V3, c: V3)
    ensures a.Cross(b).Dot(c) == b.Cross(c).Dot(a)
    ensures a.Cross(b).Dot(c) == a.Dot(b.Cross(c))
    ensures a.Cross(b).Dot(c) == -b.Cross(a).Dot(c)
  {
  }

  /** The identity of Binet and Cauchy. */
  lemma BinetCauchy(a: V3, b: V3, c: V3, d: V3)
    ensures a.Cross(b).Dot(c.Cross(d)) == a.Dot(c) * b.Dot(d) - a.Dot(d) * b.Dot(c)
  {
    hide V3.Dot, V3.Cross;
    TripleTurns(a, b, c.Cross(d));
    BacCab(b, c, d);
    DotLinear(a, c, c.Scale(b.Dot(d)), 1.0);
    DotLinear(c.Scale(b.Dot(d)), d.Scale(b.Dot(c)), a, 1.0);
    DotLinear(a, b.Cross(c.Cross(d)), a, 1.0);
    DotLinear(c, c, a, b.Dot(d));
    DotLinear(d, d, a, b.Dot(c));
    DotSymmetric(a, b.Cross(c.Cross(d)));
    DotSymmetric(a, c);
    DotSymmetric(a, d);
  }

  lemma DotSymmetric(a: V3, b: V3)
    ensures a.Dot(b) == b.Dot(a)
  {
  }

  lemma Anticommutes(a: V3, b: V3)
    ensures a.Cross(b) == b.Cross(a).Scale(-1.0)
    ensures a.Cross(a) == ZERO
  {
  }

  lemma CrossSum(a: V3, b: V3, c: V3)
    ensures a.Plus(b).Cross(c) == a.Cross(c).Plus(b.Cross(c))
    ensures c.Cross(a.Plus(b)) == c.Cross(a).Plus(c.Cross(b))
  {
  }

  lemma CrossScale(a: V3, b: V3, s: real)
    ensures a.Cross(b.Scale(s)) == a.Cross(b).Scale(s)
  {
    var p := a.Cross(b);
    Factor(a.y, b.z, a.z, b.y, p.x, s);
    Factor(a.z, b.x, a.x, b.z, p.y, s);
    Factor(a.x, b.y, a.y, b.x, p.z, s);
  }

  lemma Factor(a: real, b: real, c: real, d: real, p: real, s: real)
    requires p == a * b - c * d
    ensures a * (b * s) - c * (d * s) == p * s
  {
  }

  lemma ScaleCross(a: V3, b: V3, s: real)
    ensures a.Scale(s).Cross(b) == a.Cross(b).Scale(s)
  {
    hide V3.Cross;
    Anticommutes(a.Scale(s), b);
    CrossScale(b, a, s);
    Anticommutes(a, b);
  }

  // ----- matrices -----

  /** The transposed matrix combines the rows. */
  lemma Combines(m: M3, u: V3)
    ensures m.Transposed().Apply(u) == m.r0.Scale(u.x).Plus(m.r1.Scale(u.y)).Plus(m.r2.Scale(u.z))
  {
  }

  lemma DotRight(r: V3, a: V3, b: V3, s: real)
    ensures r.Dot(a.Plus(b)) == r.Dot(a) + r.Dot(b)
    ensures r.Dot(a.Minus(b)) == r.Dot(a) - r.Dot(b)
    ensures r.Dot(a.Scale(s)) == r.Dot(a) * s
  {
    hide V3.Dot, V3.Plus, V3.Minus, V3.Scale;
    DotLinear(a, b, r, s);
    DotSymmetric(r, a);
    DotSymmetric(r, b);
    DotSymmetric(r, a.Plus(b));
    DotSymmetric(r, a.Minus(b));
    DotSymmetric(r, a.Scale(s));
  }

  lemma ApplyLinear(m: M3, a: V3, b: V3, s: real)
    ensures m.Apply(a.Plus(b)) == m.Apply(a).Plus(m.Apply(b))
    ensures m.Apply(a.Minus(b)) == m.Apply(a).Minus(m.Apply(b))
    ensures m.Apply(a.Scale(s)) == m.Apply(a).Scale(s)
  {
    hide V3.Dot;
    DotRight(m.r0, a, b, s);
    DotRight(m.r1, a, b, s);
    DotRight(m.r2, a, b, s);
  }

  lemma ScalePlus(a: V3, b: V3, s: real)
    ensures a.Plus(b).Scale(s) == a.Scale(s).Plus(b.Scale(s))
  {
  }

  lemma ScaleScale(a: V3, s: real, t: real)
    ensures a.Scale(s).Scale(t) == a.Scale(s * t)
  {
    Associates(a.x, s, t);
    Associates(a.y, s, t);
    Associates(a.z, s, t);
  }

  lemma Associates(x: real, s: real, t: real)
    ensures (x * s) * t == x * (s * t)
  {
  }

  /** In an orthonormal system the third row is the product of the other two, and so on around. */
  lemma RotationRows(m: M3)
    requires IsRotation(m)
    ensures m.r0.Cross(m.r1) == m.r2 && m.r1.Cross(m.r2) == m.r0 && m.r2.Cross(m.r0) == m.r1
  {
    hide V3.Dot, V3.Cross;
    var a, b, c, p := m.r0, m.r1, m.r2, m.r0.Cross(m.r1);
    BinetCauchy(a, b, a, b);
    DotLinear(p, c, p, 1.0);
    DotLinear(p, c, c, 1.0);
    DotLinear(c, p, c, 1.0);
    DotLinear(p, c, p.Minus(c), 1.0);
    DotLinear(p.Minus(c), c, p, 1.0);
    DotLinear(p.Minus(c), c, c, 1.0);
    assert p.Minus(c).Dot(p.Minus(c)) == 0.0;
    SquareZero(p.Minus(c));
    assert p == c;
    BacCab(b, a, b);
    BacCab(a, a, b);
    DotLinear(a, b, a, 1.0);
    DotLinear(a, b, b, 1.0);
    Anticommutes(a, p);
  }
}
