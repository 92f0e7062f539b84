/** The older rotation algorithm of src/pose.c with its own static state. */
module OldPose {
  import opened Vectors
  import opened Bases
  import opened PoseProofs
  import opened MathUtils
  import Pose

  /** The base of the model and, in it, its centre of rotation. */
  method InitModel(root: real -> real, p0: array<real>, p1: array<real>, p2: array<real>, hc: array<real>,
                   modelRef: array<real>, centerBase: Matrix) returns (ok: bool)
    requires p0.Length == p1.Length == p2.Length == hc.Length == modelRef.Length == 3 && centerBase.Valid()
    requires {p0, p1, p2, hc, modelRef} !! centerBase.Rows() && modelRef !in {p0, p1, p2, hc}
    modifies modelRef, centerBase.Rows()
    ensures var ps := Points(Val(p0), Val(p1), Val(p2));
      && ok == ps.Finite(root)
      && (ok ==> centerBase.Value() == ps.Frame(root) && Val(modelRef) == Local(root, ps, Val(hc)))
  {
    hide Points.Finite, Points.Frame, M3.Apply, V3.Minus;
    Pose.Shifted(Val(p0), Val(p1), Val(p2), Val(hc));
    var base, r0;
    ok, base, r0 := Pose.ModelBase(root, p0, p1, p2, hc);
    if ok {
      AssignMatrix(base, centerBase);
      var vec3 := NewVec(ZERO);
      MakeVec(vec3, r0, vec3);
      MatrixTimesVec(base, vec3, modelRef);
    }
  }

  /** The base of the points seen, kept when centering, and then transposed. */
  method CurrentBase(root: real -> real, p0: array<real>, p1: array<real>, p2: array<real>, centering: bool,
                     newBase: Matrix, centerBase: Matrix) returns (ok: bool)
    requires p0.Length == p1.Length == p2.Length == 3 && newBase.Valid() && centerBase.Valid()
    requires {p0, p1, p2} !! newBase.Rows() + centerBase.Rows() && newBase.Rows() !! centerBase.Rows()
    modifies newBase.Rows(), centerBase.Rows()
    ensures var ps := Points(Val(p0), Val(p1), Val(p2));
      && ok == ps.Finite(root)
      && (ok ==> newBase.Value() == ps.Frame(root).Transposed())
      && centerBase.Value() == if ok && centering then ps.Frame(root) else old(centerBase.Value())
  {
    hide Points.Finite, Points.Frame, M3.Transposed, V3.Minus, BaseFinite, Base;
    Pose.FrameIs(root, Val(p0), Val(p1), Val(p2));
    var vec1, vec2 := new real[3], new real[3];
    MakeVec(p1, p0, vec1);
    MakeVec(p2, p0, vec2);
    ok := MakeBase(root, vec1, vec2, newBase);
    if ok {
      if centering {
        AssignMatrix(newBase, centerBase);
      }
      TransposeInPlace(newBase);
    }
  }

  /** The head centre in camera coordinates. */
  method NewCenter(root: real -> real, p0: array<real>, p1: array<real>, p2: array<real>, newBase: Matrix,
          modelRef: array<real>)
    returns (center: array<real>)
    requires p0.Length == p1.Length == p2.Length == modelRef.Length == 3 && newBase.Valid()
    requires var ps := Points(Val(p0), Val(p1), Val(p2));
      ps.Finite(root) && newBase.Value() == ps.Frame(root).Transposed()
    ensures fresh(center) && center.Length == 3
    ensures Val(center) == Centre(root, Points(Val(p0), Val(p1), Val(p2)), Val(modelRef))
  {
    hide Points.Finite, Points.Frame, M3.Transposed, M3.Apply, V3.Plus;
    var vec1 := new real[3];
    MatrixTimesVec(newBase, modelRef, vec1);
    center := new real[3];
    AddVecs(p0, vec1, center);
    PlusCommutes(Val(p0), Val(vec1));
  }

  method CopyVec(src: array<real>, tgt: array<real>)
    requires src.Length == tgt.Length == 3 && src != tgt
    modifies tgt
    ensures Val(tgt) == Val(src)
  {
    for i := 0 to 3
      invariant forall k :: 0 <= k < i ==> tgt[k] == src[k]
    {
      tgt[i] := src[i];
    }
  }

  /** One frame: centre base and centre reference follow when centering, the rotation and the displacement are against
      them. */
  method ProcessPoints(root: real -> real, p0: array<real>, p1: array<real>, p2: array<real>, centering: bool,
                       modelRef: array<real>, centerRef: array<real>, centerBase: Matrix,
                       displacement: array<real>, absCenter: array<real>) returns (ok: bool, rot: M3)
    requires p0.Length == p1.Length == p2.Length == modelRef.Length == centerRef.Length == 3
    requires displacement.Length == absCenter.Length == 3
    requires centerBase.Valid() && {p0, p1, p2, modelRef, centerRef, displacement, absCenter} !! centerBase.Rows()
    requires centerRef !in {p0, p1, p2, modelRef} && displacement !in {p0, p1, p2, modelRef, centerRef}
    requires absCenter !in {p0, p1, p2, modelRef, centerRef, displacement}
    modifies centerRef, centerBase.Rows(), displacement, absCenter
    ensures var ps := Points(Val(p0), Val(p1), Val(p2));
      && ok == ps.Finite(root)
      && (if ok && centering then
            centerBase.Value() == ps.Frame(root) && Val(centerRef) == Centre(root, ps, Val(modelRef))
          else centerBase.Value() == old(centerBase.Value()) && Val(centerRef) == old(Val(centerRef)))
      && (ok ==>
           && Val(absCenter) == Centre(root, ps, Val(modelRef))
           && Val(displacement) == Val(absCenter).Minus(Val(centerRef))
           && rot == ps.Frame(root).Transposed().Times(centerBase.Value()))
  {
    hide Points.Finite, Points.Frame, V3.Minus, M3.Times, M3.Transposed, Centre;
    rot := IDENTITY;
    var newBase := NewMatrix();
    ok := CurrentBase(root, p0, p1, p2, centering, newBase, centerBase);
    if !ok {
      return;
    }
    var newCenter := NewCenter(root, p0, p1, p2, newBase, modelRef);
    if centering {
      CopyVec(newCenter, centerRef);
    }
    CopyVec(newCenter, absCenter);
    MakeVec(newCenter, centerRef, displacement);
    rot := Pose.Rotation(newBase, centerBase);
  }

  class OldTracker {
    const root: real -> real
    const modelRef: array<real>
    const centerRef: array<real>
    const centerBase: Matrix

    ghost var model: Points  // the model points given to Init, and its head centre
    ghost var head: V3
    ghost var reference: Points  // the points whose base is the centre base
    ghost var centred: bool  // they were seen in a frame; before that the displacement is taken from an old reference

    ghost predicate Separate() {
      && modelRef.Length == centerRef.Length == 3 && modelRef != centerRef && centerBase.Valid()
      && {modelRef, centerRef} !! centerBase.Rows()
    }

    function Memory(): set<object> {
      {this, modelRef, centerRef} + centerBase.Rows()
    }

    ghost predicate Valid()
      reads this, Memory()
    {
      && Separate() && IsRoot(root)
      && model.Finite(root) && Val(modelRef) == Local(root, model, head)
      && reference.Finite(root) && centerBase.Value() == reference.Frame(root)
      && (centred ==> Val(centerRef) == Centre(root, reference, Val(modelRef)))
    }

    constructor (root: real -> real)
      requires IsRoot(root)
      ensures this.root == root && Separate() && fresh(Memory() - {this})
    {
      this.root := root;
      modelRef, centerRef := new real[3], new real[3];
      var a, b, c := new real[3], new real[3], new real[3];
      centerBase := Matrix(a, b, c);
    }

    /** The part of ltr_int_pose_init that serves the old algorithm; it leaves the centre reference as it was. */
    method Init(p0: array<real>, p1: array<real>, p2: array<real>, hc: array<real>) returns (ok: bool)
      requires Separate() && IsRoot(root)
      requires p0.Length == p1.Length == p2.Length == hc.Length == 3 && {p0, p1, p2, hc} !! Memory()
      modifies Memory()
      ensures var ps, c := old(Points(Val(p0), Val(p1), Val(p2))), old(Val(hc));
        && ok == !ps.Collinear()
        && (ok ==> Valid() && model == reference == ps && head == c && !centred)
      ensures Val(centerRef) == old(Val(centerRef))
    {
      hide Points.Finite, Points.Frame, Points.Collinear, IsRoot, Local, Centre, M3.Transposed;
      ghost var ps, c := Points(Val(p0), Val(p1), Val(p2)), Val(hc);
      FiniteIffNotCollinear(root, ps);
      ok := InitModel(root, p0, p1, p2, hc, modelRef, centerBase);
      model, reference, head, centred := ps, ps, c, false;
    }

    /** What ltr_int_process_pose does with three points when the old algorithm is chosen. */
    method Track(p0: array<real>, p1: array<real>, p2: array<real>, centering: bool, displacement: array<real>,
            absCenter: array<real>)
      returns (ok: bool, rot: M3)
      requires Valid() && p0.Length == p1.Length == p2.Length == displacement.Length == absCenter.Length == 3
      requires {p0, p1, p2, displacement, absCenter} !! Memory()
      requires displacement != absCenter && {displacement, absCenter} !! {p0, p1, p2}
      modifies Memory(), displacement, absCenter
      ensures Valid() && model == old(model) && head == old(head)
      ensures var ps := old(Points(Val(p0), Val(p1), Val(p2)));
        && ok == !ps.Collinear()
        && reference == (if centering && ok then ps else old(reference))
        && centred == (old(centred) || (centering && ok))
        && (ok ==> Recovers(ps, rot, Val(displacement), Val(absCenter)))
    {
      hide Points.Finite, Points.Frame, Points.Collinear, V3.Minus, IsRoot, M3.Times, M3.Transposed, Centre, Local,
        Recovers;
      ghost var ps := Points(Val(p0), Val(p1), Val(p2));
      FiniteIffNotCollinear(root, ps);
      ok, rot := ProcessPoints(root, p0, p1, p2, centering, modelRef, centerRef, centerBase, displacement, absCenter);
      if ok {
        if centering {
          reference, centred := ps, true;
        }
        Recovered(ps, rot, Val(displacement), Val(absCenter));
      }
    }

    /** Points moved rigidly against the reference give back the rotation and, once centred, the displacement; against
        the model, the head centre. */
    ghost predicate Recovers(ps: Points, rot: M3, displacement: V3, absCenter: V3)
      reads this, Memory()
      requires Separate()
    {
      && (forall r, t :: IsRotation(r) && ps == reference.Moved(r, t) ==>
            rot == r && (centred ==> displacement == Move(r, t, Val(centerRef)).Minus(Val(centerRef))))
      && (forall r, t :: IsRotation(r) && ps == model.Moved(r, t) ==> absCenter == Move(r, t, head))
    }

    lemma Recovered(ps: Points, rot: M3, displacement: V3, absCenter: V3)
      requires Valid() && ps.Finite(root)
      requires absCenter == Centre(root, ps, Val(modelRef)) && displacement == absCenter.Minus(Val(centerRef))
      requires rot == ps.Frame(root).Transposed().Times(reference.Frame(root))
      ensures Recovers(ps, rot, displacement, absCenter)
    {
      hide Points.Finite, Points.Frame, Centre, Local, IsRoot, M3.Times, M3.Transposed, IsRotation, M3.Apply, V3.Minus;
      forall r, t | IsRotation(r) && ps == reference.Moved(r, t)
        ensures rot == r && (centred ==> displacement == Move(r, t, Val(centerRef)).Minus(Val(centerRef)))
      {
        OldRotationAgrees(root, reference, r, t);
        CentreMoves(root, reference, Val(modelRef), r, t);
      }
      CentreRoundTrip(root, model, head);
      forall r, t | IsRotation(r) && ps == model.Moved(r, t)
        ensures absCenter == Move(r, t, head)
      {
        CentreMoves(root, model, Val(modelRef), r, t);
      }
    }
  }

  lemma PlusCommutes(a: V3, b: V3)
    ensures a.Plus(b) == b.Plus(a)
  {
  }
}
