/** The pose computation of src/pose.c with its static state.

    pose_init derives the local coordinates of the head centre and a first
    reference from the model; later calls, with or without centering, see three
    points.  The matrix handed to ltr_int_matrix_to_euler stands for the angles.
 */
module Pose {
  import opened Vectors
  import opened Bases
  import opened PoseProofs
  import opened MathUtils

  /** The first point against the centre of rotation, and two edges of the triangle. */
  method Edges(p0: array<real>, p1: array<real>, p2: array<real>, c: array<real>)
    returns (r0: array<real>, b1: array<real>, b2: array<real>)
    requires p0.Length == p1.Length == p2.Length == c.Length == 3
    ensures fresh(r0) && r0.Length == b1.Length == b2.Length == 3
    ensures Val(r0) == Val(p0).Minus(Val(c)) && Val(b1) == Val(p1).Minus(Val(p0)) && Val(b2) == Val(p2).Minus(Val(p0))
    ensures fresh(b1) && fresh(b2)
  {
    hide V3.Minus;
    Shifted(Val(p0), Val(p1), Val(p2), Val(c));
    r0 := new real[3];
    var r1, r2 := new real[3], new real[3];
    MakeVec(p0, c, r0);
    MakeVec(p1, c, r1);
    MakeVec(p2, c, r2);
    b1, b2 := new real[3], new real[3];
    MakeVec(r1, r0, b1);
    MakeVec(r2, r0, b2);
  }

  /** The model moved so that its centre of rotation is the origin: its base and its first point. */
  method ModelBase(root: real -> real, p0: array<real>, p1: array<real>, p2: array<real>, c: array<real>)
    returns (ok: bool, base: Matrix, r0: array<real>)
    requires p0.Length == p1.Length == p2.Length == c.Length == 3
    ensures base.Valid() && fresh(base.Rows()) && fresh(r0) && r0.Length == 3 && r0 !in base.Rows()
    ensures var ps := Points(Val(p0), Val(p1), Val(p2));
      ok == ps.Finite(root) && (ok ==> base.Value() == ps.Frame(root))
    ensures Val(r0) == Val(p0).Minus(Val(c))
  {
    hide BaseFinite, Base, V3.Minus, Points.Finite, Points.Frame;
    FrameIs(root, Val(p0), Val(p1), Val(p2));
    var b1, b2;
    r0, b1, b2 := Edges(p0, p1, p2, c);
    base := NewMatrix();
    ok := MakeBase(root, b1, b2, base);
  }

  lemma FrameIs(root: real -> real, p0: V3, p1: V3, p2: V3)
    ensures Points(p0, p1, p2).Finite(root) == BaseFinite(root, p1.Minus(p0), p2.Minus(p0))
    ensures Points(p0, p1, p2).Finite(root) ==> Points(p0, p1, p2).Frame(root) == Base(root, p1.Minus(p0), p2.Minus(p0))
  {
  }

  /** ltr_int_get_cbase */
  method GetCbase(root: real -> real, p0: array<real>, p1: array<real>, p2: array<real>, c: array<real>,
          cbase: array<real>)
    returns (ok: bool)
    requires p0.Length == p1.Length == p2.Length == c.Length == cbase.Length == 3
    modifies cbase
    ensures var ps := old(Points(Val(p0), Val(p1), Val(p2)));
      && ok == ps.Finite(root)
      && Val(cbase) == if ok then Local(root, ps, old(Val(c))) else old(Val(cbase))
  {
    hide Points.Finite, Points.Frame, M3.Apply, V3.Minus;
    Shifted(Val(p0), Val(p1), Val(p2), Val(c));
    var base, r0;
    ok, base, r0 := ModelBase(root, p0, p1, p2, c);
    if ok {
      var tmp := NewVec(ZERO);
      MakeVec(tmp, r0, tmp);
      MatrixTimesVec(base, tmp, cbase);
    }
  }

  lemma Shifted(p0: V3, p1: V3, p2: V3, c: V3)
    ensures p1.Minus(c).Minus(p0.Minus(c)) == p1.Minus(p0) && p2.Minus(c).Minus(p0.Minus(c)) == p2.Minus(p0)
    ensures ZERO.Minus(p0.Minus(c)) == c.Minus(p0)
  {
  }

  /** The transposed base of the points, as ltr_int_center and ltr_int_get_pose start. */
  method LocalFrame(root: real -> real, rp0: array<real>, rp1: array<real>, rp2: array<real>, rb: Matrix)
    returns (ok: bool)
    requires rp0.Length == rp1.Length == rp2.Length == 3 && rb.Valid() && {rp0, rp1, rp2} !! rb.Rows()
    modifies rb.Rows()
    ensures var ps := Points(Val(rp0), Val(rp1), Val(rp2));
      ok == ps.Finite(root) && (ok ==> rb.Value() == ps.Frame(root).Transposed())
  {
    hide BaseFinite, Base;
    var rb0, rb1 := new real[3], new real[3];
    MakeVec(rp1, rp0, rb0);
    MakeVec(rp2, rp0, rb1);
    ok := MakeBase(root, rb0, rb1, rb);
    TransposeInPlace(rb);
  }

  /** The points seen from c, one per column. */
  method Offsets(rp0: array<real>, rp1: array<real>, rp2: array<real>, c: array<real>) returns (rr: Matrix)
    requires rp0.Length == rp1.Length == rp2.Length == c.Length == 3
    ensures rr.Valid() && fresh(rr.Rows())
    ensures rr.Value() == Points(Val(rp0), Val(rp1), Val(rp2)).Spread(Val(c))
  {
    rr := NewMatrix();
    MakeVec(rp0, c, rr.row0);
    MakeVec(rp1, c, rr.row1);
    MakeVec(rp2, c, rr.row2);
    TransposeInPlace(rr);
  }

  /** The product of a spread with the matrix kept from centering. */
  method Rotation(rr: Matrix, tr: Matrix) returns (rot: M3)
    requires rr.Valid() && tr.Valid()
    ensures rot == rr.Value().Times(tr.Value())
  {
    hide M3.Times;
    var m := NewMatrix();
    MulMatrix(rr, tr, m);
    rot := m.Value();
  }

  /** The head centre in camera coordinates. */
  method CurrentCenter(root: real -> real, rp0: array<real>, rp1: array<real>, rp2: array<real>, cntrBase: array<real>)
    returns (ok: bool, center: array<real>)
    requires rp0.Length == rp1.Length == rp2.Length == cntrBase.Length == 3
    ensures fresh(center) && center.Length == 3
    ensures var ps := Points(Val(rp0), Val(rp1), Val(rp2));
      ok == ps.Finite(root) && (ok ==> Val(center) == Centre(root, ps, Val(cntrBase)))
  {
    hide BaseFinite, Base, M3.Apply;
    center := new real[3];
    var rb := NewMatrix();
    ok := LocalFrame(root, rp0, rp1, rp2, rb);
    if ok {
      var rc := new real[3];
      MatrixTimesVec(rb, cntrBase, rc);
      AddVecs(rc, rp0, center);
    }
  }

  /** ltr_int_center; centre is written even when the matrix turns out to be singular. */
  method Center(root: real -> real, rp0: array<real>, rp1: array<real>, rp2: array<real>, cntrBase: array<real>,
                center: array<real>, tr: Matrix)
    returns (ok: bool)
    requires rp0.Length == rp1.Length == rp2.Length == cntrBase.Length == center.Length == 3 && tr.Valid()
    requires center !in {rp0, rp1, rp2, cntrBase} && {rp0, rp1, rp2, cntrBase, center} !! tr.Rows()
    modifies center, tr.Rows()
    ensures var ps, local := old(Points(Val(rp0), Val(rp1), Val(rp2))), old(Val(cntrBase));
      && Val(center) == (if ps.Finite(root) then Centre(root, ps, local) else old(Val(center)))
      && ok == (ps.Finite(root) && ps.Spread(Centre(root, ps, local)).Det() != 0.0)
      && tr.Value() == if ok then Inverse(ps.Spread(Centre(root, ps, local))) else old(tr.Value())
  {
    hide Points.Finite, Points.Spread, Centre, M3.Det, Inverse;
    var c;
    ok, c := CurrentCenter(root, rp0, rp1, rp2, cntrBase);
    if !ok {
      return;
    }
    center[0], center[1], center[2] := c[0], c[1], c[2];
    var rr := Offsets(rp0, rp1, rp2, center);
    var tmpTr := NewMatrix();
    ok := InvertMatrix(rr, tmpTr);
    if ok {
      AssignMatrix(tmpTr, tr);
    }
  }

  /** ltr_int_get_pose, up to the conversion into angles. */
  method GetPose(root: real -> real, rp0: array<real>, rp1: array<real>, rp2: array<real>, cntrBase: array<real>,
                 center: array<real>, tr: Matrix, trBase: Matrix, trans: array<real>, absPose: array<real>)
    returns (ok: bool, rot: M3, absRot: M3)
    requires rp0.Length == rp1.Length == rp2.Length == cntrBase.Length == 3
    requires center.Length == trans.Length == absPose.Length == 3
    requires tr.Valid() && trBase.Valid() && trans != absPose
    requires {trans, absPose} !! {rp0, rp1, rp2, cntrBase, center} && {trans, absPose} !! tr.Rows() + trBase.Rows()
    modifies trans, absPose
    ensures var ps, local := Points(Val(rp0), Val(rp1), Val(rp2)), Val(cntrBase);
      && ok == ps.Finite(root)
      && (ok ==> var c := Centre(root, ps, local);
           Val(absPose) == c && Val(trans) == c.Minus(Val(center))
           && rot == ps.Spread(c).Times(tr.Value()) && absRot == ps.Spread(c).Times(trBase.Value()))
  {
    hide Points.Finite, Points.Spread, Centre, M3.Times, V3.Minus;
    rot, absRot := IDENTITY, IDENTITY;
    var currentCenter;
    ok, currentCenter := CurrentCenter(root, rp0, rp1, rp2, cntrBase);
    if ok {
      var rr := Offsets(rp0, rp1, rp2, currentCenter);
      rot := Rotation(rr, tr);
      absRot := Rotation(rr, trBase);
      MakeVec(currentCenter, center, trans);
      absPose[0], absPose[1], absPose[2] := currentCenter[0], currentCenter[1], currentCenter[2];
    }
  }

  /** The static variables of pose.c that the new rotation algorithm uses. */
  class Tracker {
    const root: real -> real
    const cBase: array<real>
    const trCenter: array<real>
    const trRot: Matrix
    const trRotBase: Matrix

    ghost var model: Points  // the model points given to Init, and its head centre
    ghost var head: V3
    ghost var reference: Points  // the points seen when it was centred last

    ghost predicate Separate() {
      && cBase.Length == trCenter.Length == 3 && cBase != trCenter && trRot.Valid() && trRotBase.Valid()
      && {cBase, trCenter} !! trRot.Rows() + trRotBase.Rows() && trRot.Rows() !! trRotBase.Rows()
    }

    function Memory(): set<object> {
      {this, cBase, trCenter} + trRot.Rows() + trRotBase.Rows()
    }

    /** The inverse of the spread of the points ps around the centre c is what tr holds. */
    ghost predicate Cancels(ps: Points, c: V3, tr: M3) {
      ps.Spread(c).Det() != 0.0 && tr == Inverse(ps.Spread(c))
    }

    ghost predicate Valid()
      reads this, Memory()
    {
      && Separate() && IsRoot(root) && Val(cBase).z != 0.0
      && model.Finite(root) && Val(cBase) == Local(root, model, head)
      && Cancels(model, head, trRotBase.Value())
      && reference.Finite(root) && Val(trCenter) == Centre(root, reference, Val(cBase))
      && Cancels(reference, Val(trCenter), trRot.Value())
    }

    constructor (root: real -> real)
      requires IsRoot(root)
      ensures this.root == root && Separate() && fresh(Memory() - {this})
    {
      this.root := root;
      cBase, trCenter := new real[3], new real[3];
      var a, b, c := new real[3], new real[3], new real[3];
      trRot := Matrix(a, b, c);
      a, b, c := new real[3], new real[3], new real[3];
      trRotBase := Matrix(a, b, c);
    }

    /** The end of ltr_int_pose_init: it succeeds exactly for a head centre off the plane of three points that span
        one. */
    method Init(p0: array<real>, p1: array<real>, p2: array<real>, hc: array<real>) returns (ok: bool)
      requires Separate() && IsRoot(root)
      requires p0.Length == p1.Length == p2.Length == hc.Length == 3 && {p0, p1, p2, hc} !! Memory()
      modifies Memory()
      ensures var ps, c := old(Points(Val(p0), Val(p1), Val(p2))), old(Val(hc));
        && ok == (!ps.Collinear() && ps.Spread(c).Det() != 0.0)
        && (ok ==> Valid() && model == reference == ps && head == c)
    {
      hide BaseFinite, Base, M3.Apply, M3.Det, Inverse, Points.Collinear, Points.Spread, Centre, Local, IsRoot,
        Points.Finite;
      ghost var ps, c := Points(Val(p0), Val(p1), Val(p2)), Val(hc);
      FiniteIffNotCollinear(root, ps);
      ok := GetCbase(root, p0, p1, p2, hc, cBase);
      if ok {
        CentreRoundTrip(root, ps, c);
        HeightOfCentre(root, ps, Val(cBase));
        ok := Center(root, p0, p1, p2, cBase, trCenter, trRot);
      }
      AssignMatrix(trRot, trRotBase);
      model, reference, head := ps, ps, c;
    }

    /** What ltr_int_process_pose does with three points when the new algorithm is chosen. */
    method Track(p0: array<real>, p1: array<real>, p2: array<real>, centering: bool, displacement: array<real>,
            absCenter: array<real>)
      returns (ok: bool, rot: M3, absRot: M3)
      requires Valid() && p0.Length == p1.Length == p2.Length == displacement.Length == absCenter.Length == 3
      requires {p0, p1, p2, displacement, absCenter} !! Memory()
      requires displacement != absCenter && {displacement, absCenter} !! {p0, p1, p2}
      modifies Memory(), displacement, absCenter
      ensures Valid() && model == old(model) && head == old(head)
      ensures var ps := old(Points(Val(p0), Val(p1), Val(p2)));
        && ok == !ps.Collinear()
        && reference == (if centering && ok then ps else old(reference))
        && (ok ==> Recovers(ps, rot, Val(displacement), absRot, Val(absCenter)))
    {
      hide BaseFinite, Base, M3.Apply, M3.Det, Inverse, Points.Collinear, Points.Spread, Centre, Local, IsRoot,
        Points.Finite, M3.Times, IsRotation;
      ghost var ps := Points(Val(p0), Val(p1), Val(p2));
      FiniteIffNotCollinear(root, ps);
      rot, absRot := IDENTITY, IDENTITY;
      if centering {
        if ps.Finite(root) {
          HeightOfCentre(root, ps, Val(cBase));
        }
        ok := Center(root, p0, p1, p2, cBase, trCenter, trRot);
        if !ok {
          return;
        }
        reference := ps;
      }
      ok, rot, absRot := GetPose(root, p0, p1, p2, cBase, trCenter, trRot, trRotBase, displacement, absCenter);
      if ok {
        Recovered(ps, rot, Val(displacement), absRot, Val(absCenter));
      }
    }

    /** Points moved rigidly against the reference, or against the model, give back exactly that motion. */
    ghost predicate Recovers(ps: Points, rot: M3, displacement: V3, absRot: M3, absCenter: V3)
      reads this, Memory()
      requires Separate()
    {
      && (forall r, t :: IsRotation(r) && ps == reference.Moved(r, t) ==>
            rot == r && displacement == Move(r, t, Val(trCenter)).Minus(Val(trCenter)))
      && (forall r, t :: IsRotation(r) && ps == model.Moved(r, t) ==>
            absRot == r && absCenter == Move(r, t, head))
    }

    lemma Recovered(ps: Points, rot: M3, displacement: V3, absRot: M3, absCenter: V3)
      requires Valid() && ps.Finite(root)
      requires absCenter == Centre(root, ps, Val(cBase)) && displacement == absCenter.Minus(Val(trCenter))
      requires rot == ps.Spread(absCenter).Times(trRot.Value())
          && absRot == ps.Spread(absCenter).Times(trRotBase.Value())
      ensures Recovers(ps, rot, displacement, absRot, absCenter)
    {
      hide BaseFinite, Base, M3.Apply, M3.Det, Inverse, Points.Spread, Centre, Local, IsRoot, Points.Finite, M3.Times,
        IsRotation;
      forall r, t | IsRotation(r) && ps == reference.Moved(r, t)
        ensures rot == r && displacement == Move(r, t, Val(trCenter)).Minus(Val(trCenter))
      {
        PoseRecovered(root, reference, Val(cBase), r, t);
      }
      CentreRoundTrip(root, model, head);
      forall r, t | IsRotation(r) && ps == model.Moved(r, t)
        ensures absRot == r && absCenter == Move(r, t, head)
      {
        PoseRecovered(root, model, Val(cBase), r, t);
      }
    }
  }
}
