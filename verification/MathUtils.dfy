/** The vector and matrix routines of src/math_utils.c, on arrays that they fill in place.

    Where the C code divides by zero and goes on with entries that are not
    finite, the method returns false and says nothing about its result.
 */
module MathUtils {
  import opened Vectors
  import opened Bases
  import opened PoseProofs

  function Val(a: array<real>): V3
    requires a.Length == 3
    reads a
  {
    V3(a[0], a[1], a[2])
  }

  method NewVec(v: V3) returns (a: array<real>)
    ensures fresh(a) && a.Length == 3 && Val(a) == v
  {
    a := new real[3];
    a[0], a[1], a[2] := v.x, v.y, v.z;
  }

  /** double[3][3] */
  datatype Matrix = Matrix(row0: array<real>, row1: array<real>, row2: array<real>) {
    predicate Valid() {
      && row0.Length == row1.Length == row2.Length == 3
      && row0 != row1 && row0 != row2 && row1 != row2
    }

    function Rows(): set<object> {
      {row0, row1, row2}
    }

    function Row(i: nat): (r: array<real>)
      requires i < 3
      ensures r in Rows()
    {
      if i == 0 then row0 else if i == 1 then row1 else row2
    }

    function Value(): M3
      requires Valid()
      reads row0, row1, row2
    {
      M3(Val(row0), Val(row1), Val(row2))
    }
  }

  method NewMatrix() returns (m: Matrix)
    ensures m.Valid() && fresh(m.Rows())
  {
    var a, b, c := new real[3], new real[3], new real[3];
    m := Matrix(a, b, c);
  }

  method MakeVec(pt1: array<real>, pt2: array<real>, res: array<real>)
    requires pt1.Length == pt2.Length == res.Length == 3
    modifies res
    ensures Val(res) == old(Val(pt1).Minus(Val(pt2)))
  {
    res[0], res[1], res[2] := pt1[0] - pt2[0], pt1[1] - pt2[1], pt1[2] - pt2[2];
  }

  method AddVecs(vec1: array<real>, vec2: array<real>, res: array<real>)
    requires vec1.Length == vec2.Length == res.Length == 3
    modifies res
    ensures Val(res) == old(Val(vec1).Plus(Val(vec2)))
  {
    res[0], res[1], res[2] := vec1[0] + vec2[0], vec1[1] + vec2[1], vec1[2] + vec2[2];
  }

  method MulVec(vec: array<real>, c: real, res: array<real>)
    requires vec.Length == res.Length == 3
    modifies res
    ensures Val(res) == old(Val(vec).Scale(c))
  {
    res[0] := vec[0] * c;
    res[1] := vec[1] * c;
    res[2] := vec[2] * c;
  }

  method CrossProduct(vec1: array<real>, vec2: array<real>, res: array<real>)
    requires vec1.Length == vec2.Length == res.Length == 3 && res != vec1 && res != vec2
    modifies res
    ensures Val(res) == Val(vec1).Cross(Val(vec2))
  {
    res[0] := vec1[1] * vec2[2] - vec1[2] * vec2[1];
    res[1] := vec1[2] * vec2[0] - vec1[0] * vec2[2];
    res[2] := vec1[0] * vec2[1] - vec1[1] * vec2[0];
  }

  method MakeBase(root: real -> real, vec1: array<real>, vec2: array<real>, res: Matrix) returns (finite: bool)
    requires vec1.Length == vec2.Length == 3 && res.Valid() && vec1 !in res.Rows() && vec2 !in res.Rows()
    modifies res.Rows()
    ensures finite == BaseFinite(root, Val(vec1), Val(vec2))
    ensures finite ==> res.Value() == Base(root, Val(vec1), Val(vec2))
  {
    hide V3.Dot, V3.Cross, V3.Scale, V3.Minus;
    var size := Size(root, Val(vec1));
    if size == 0.0 {
      return false;
    }
    MulVec(vec1, 1.0 / size, res.row0);
    var tmp1, tmp2 := new real[3], new real[3];
    MulVec(res.row0, Val(vec2).Dot(Val(res.row0)), tmp1);
    MakeVec(vec2, tmp1, tmp2);
    size := Size(root, Val(tmp2));
    if size == 0.0 {
      return false;
    }
    MulVec(tmp2, 1.0 / size, res.row1);
    CrossProduct(res.row0, res.row1, res.row2);
    finite := true;
  }

  method MatrixTimesVec(m: Matrix, vec: array<real>, res: array<real>)
    requires m.Valid() && vec.Length == res.Length == 3 && res != vec && res !in m.Rows()
    modifies res
    ensures Val(res) == m.Value().Apply(Val(vec))
  {
    res[0] := m.row0[0] * vec[0] + m.row0[1] * vec[1] + m.row0[2] * vec[2];
    res[1] := m.row1[0] * vec[0] + m.row1[1] * vec[1] + m.row1[2] * vec[2];
    res[2] := m.row2[0] * vec[0] + m.row2[1] * vec[1] + m.row2[2] * vec[2];
  }

  method TransposeInPlace(m: Matrix)
    requires m.Valid()
    modifies m.Rows()
    ensures m.Value() == old(m.Value()).Transposed()
  {
    m.row0[1], m.row1[0] := m.row1[0], m.row0[1];
    m.row0[2], m.row2[0] := m.row2[0], m.row0[2];
    m.row1[2], m.row2[1] := m.row2[1], m.row1[2];
  }

  method AssignMatrix(src: Matrix, tgt: Matrix)
    requires src.Valid() && tgt.Valid() && src.Rows() !! tgt.Rows()
    modifies tgt.Rows()
    ensures tgt.Value() == src.Value()
  {
    for i := 0 to 3
      invariant forall k, l :: 0 <= k < i && 0 <= l < 3 ==> tgt.Row(k)[l] == src.Row(k)[l]
    {
      for j := 0 to 3
        invariant forall k, l :: 0 <= k < i && 0 <= l < 3 ==> tgt.Row(k)[l] == src.Row(k)[l]
        invariant forall l :: 0 <= l < j ==> tgt.Row(i)[l] == src.Row(i)[l]
      {
        tgt.Row(i)[j] := src.Row(i)[j];
      }
    }
    assert forall k :: 0 <= k < 3 ==> Val(tgt.Row(k)) == Val(src.Row(k));
    assert tgt.row0 == tgt.Row(0) && tgt.row1 == tgt.Row(1) && tgt.row2 == tgt.Row(2);
  }

  /** Column j of a matrix. */
  function Col(m: M3, j: nat): V3
    requires j < 3
  {
    var t := m.Transposed();
    if j == 0 then t.r0 else if j == 1 then t.r1 else t.r2
  }

  method MulMatrix(m1: Matrix, m2: Matrix, res: Matrix)
    requires m1.Valid() && m2.Valid() && res.Valid() && m1.Rows() !! res.Rows() && m2.Rows() !! res.Rows()
    modifies res.Rows()
    ensures res.Value() == m1.Value().Times(m2.Value())
  {
    hide V3.Dot;
    ghost var b := m2.Value();
    for i := 0 to 3
      invariant forall k, l :: 0 <= k < i && 0 <= l < 3 ==> res.Row(k)[l] == Val(m1.Row(k)).Dot(Col(b, l))
    {
      var row := m1.Row(i);
      for j := 0 to 3
        invariant forall k, l :: 0 <= k < i && 0 <= l < 3 ==> res.Row(k)[l] == Val(m1.Row(k)).Dot(Col(b, l))
        invariant forall l :: 0 <= l < j ==> res.Row(i)[l] == Val(row).Dot(Col(b, l))
      {
        var entry := row[0] * m2.row0[j] + row[1] * m2.row1[j] + row[2] * m2.row2[j];
        EntryIsDot(Val(row), Col(b, j), row[0], row[1], row[2], m2.row0[j], m2.row1[j], m2.row2[j]);
        res.Row(i)[j] := entry;
      }
    }
    RowsTimes(m1.Value(), b, m1.Row(0), res.Row(0));
    RowsTimes(m1.Value(), b, m1.Row(1), res.Row(1));
    RowsTimes(m1.Value(), b, m1.Row(2), res.Row(2));
  }

  lemma EntryIsDot(v: V3, w: V3, a: real, b: real, c: real, d: real, e: real, f: real)
    requires v == V3(a, b, c) && w == V3(d, e, f)
    ensures a * d + b * e + c * f == v.Dot(w)
  {
  }

  lemma RowsTimes(m: M3, b: M3, row: array<real>, res: array<real>)
    requires row.Length == res.Length == 3
    requires forall l :: 0 <= l < 3 ==> res[l] == Val(row).Dot(Col(b, l))
    ensures Val(res) == b.Transposed().Apply(Val(row))
  {
    hide V3.Dot;
    var v, t := Val(row), b.Transposed();
    DotSymmetric(v, t.r0);
    DotSymmetric(v, t.r1);
    DotSymmetric(v, t.r2);
    assert res[0] == v.Dot(Col(b, 0)) && res[1] == v.Dot(Col(b, 1)) && res[2] == v.Dot(Col(b, 2));
  }

  method InvertMatrix(m: Matrix, out: Matrix) returns (finite: bool)
    requires m.Valid() && out.Valid() && m.Rows() !! out.Rows()
    modifies out.Rows()
    ensures finite == (m.Value().Det() != 0.0)
    ensures finite ==> out.Value() == Inverse(m.Value())
  {
    var a, b, c := m.row0, m.row1, m.row2;
    var det := a[0] * b[1] * c[2] - c[0] * b[1] * a[2]
             + b[0] * c[1] * a[2] - b[0] * a[1] * c[2]
             + c[0] * a[1] * b[2] - a[0] * c[1] * b[2];
    DetSum(a[0], a[1], a[2], b[0], b[1], b[2], c[0], c[1], c[2]);
    ghost var in0 := m.Value();
    assert det == in0.Det();
    hide V3.Dot, V3.Cross, V3.Scale, M3.Det;
    CrossProduct(b, c, out.row0);
    CrossProduct(c, a, out.row1);
    CrossProduct(a, b, out.row2);
    if det == 0.0 {
      return false;
    }
    MulVec(out.row0, 1.0 / det, out.row0);
    MulVec(out.row1, 1.0 / det, out.row1);
    MulVec(out.row2, 1.0 / det, out.row2);
    TransposeInPlace(out);
    finite := true;
  }

  lemma DetSum(a0: real, a1: real, a2: real, b0: real, b1: real, b2: real, c0: real, c1: real, c2: real)
    ensures a0 * b1 * c2 - c0 * b1 * a2 + b0 * c1 * a2 - b0 * a1 * c2 + c0 * a1 * b2 - a0 * c1 * b2
         == M3(V3(a0, a1, a2), V3(b0, b1, b2), V3(c0, c1, c2)).Det()
  {
    DetParts(a0, a1, a2, b0, b1, b2, c0, c1, c2, a1 * b2 - a2 * b1, a2 * b0 - a0 * b2, a0 * b1 - a1 * b0);
  }

  lemma DetParts(a0: real, a1: real, a2: real, b0: real, b1: real, b2: real, c0: real, c1: real, c2: real,
                 p0: real, p1: real, p2: real)
    requires p0 == a1 * b2 - a2 * b1 && p1 == a2 * b0 - a0 * b2 && p2 == a0 * b1 - a1 * b0
    ensures a0 * b1 * c2 - c0 * b1 * a2 + b0 * c1 * a2 - b0 * a1 * c2 + c0 * a1 * b2 - a0 * c1 * b2
         == p0 * c0 + p1 * c1 + p2 * c2
  {
  }
}
