/** The vessel code as written, where it departs from what it evidently
    intends, next to the corrected definitions the rest of the model uses. */
module Findings {
  import opened Numerics
  import opened Vectors
  import opened Vessels
  import opened ClosestApproach
  import opened Collision
  import opened Results

  /** Ownship's position at time t as the CPA code computes it: the y
      coordinate starts from ownship's x coordinate. */
  function OwnshipAtAsWritten(own: Vessel, t: real): Vec2 {
    Vec2(own.pos.x + own.v.x * t, own.pos.x + own.v.y * t)
  }

  /** The as-written position is ownship's true position exactly when
      ownship's two coordinates agree. */
  lemma OwnshipAtAsWrittenWrong(own: Vessel, t: real)
    ensures OwnshipAtAsWritten(own, t) == PositionAt(own, t) <==> own.pos.x == own.pos.y
  {
    if OwnshipAtAsWritten(own, t) == PositionAt(own, t) {
      assert own.pos.x + own.v.y * t == own.pos.y + own.v.y * t;
    }
  }

  /** The CPA computation as written: the same time and target position,
      but ownship's position, and with it the range and bearing, from the
      as-written ownship position. */
  function CpaAsWritten(m: MathLib, own: Vessel, target: Vessel): (r: Result<CpaFix, CpaError>)
    requires SqrtLaw(m) && 0.0 < m.pi
    ensures r.Err? <==> Cpa(m, own, target).Err?
    ensures r.Ok? ==> r.value.tcpa == Cpa(m, own, target).value.tcpa
    ensures r.Ok? ==> r.value.targetAt == Cpa(m, own, target).value.targetAt
    ensures r.Ok? ==> 0.0 <= r.value.bearing < 360.0
  {
    SubZero(target.v, own.v);
    if RelativeVelocity(own, target) == Zero then
      Err(SameVelocity)
    else
      var t := Tcpa(own, target);
      var targetAt := PositionAt(target, t);
      var ownshipAt := OwnshipAtAsWritten(own, t);
      var sep := Sub(targetAt, ownshipAt);
      Ok(CpaFix(t, targetAt, ownshipAt, Norm(m, sep), Bearing(m, sep.x, sep.y)))
  }

  /** The as-written fix agrees with the corrected one exactly for an
      ownship whose x and y coordinates are equal; for every other ownship
      it reports ownship somewhere it is not. */
  lemma CpaAsWrittenDiffers(m: MathLib, own: Vessel, target: Vessel)
    requires SqrtLaw(m) && 0.0 < m.pi
    requires own.v != target.v
    ensures CpaAsWritten(m, own, target).value == Cpa(m, own, target).value <==> own.pos.x == own.pos.y
    ensures own.pos.x != own.pos.y ==>
      CpaAsWritten(m, own, target).value.ownshipAt != PositionAt(own, Tcpa(own, target))
  {
    SubZero(target.v, own.v);
    OwnshipAtAsWrittenWrong(own, Tcpa(own, target));
  }

  /** The candidate velocity as the generator writes it, with the velocity
      of a vessel `v1` where ownship's is meant. The defining module binds
      no `v1`, so this is the value computed only when the class runs in a
      namespace that does, such as an interactive session that also defines
      the vessels; imported on its own, the line fails with a NameError. */
  function CandidateAsWritten(own: Vessel, target: Vessel, a: real, v1: Vessel): (w: Vec2)
    ensures Sub(w, CandidateVelocity(own, target, a)) == Sub(v1.v, own.v)
  {
    Add(Scale(-a, RelativePosition(own, target)), v1.v)
  }

  /** The as-written candidate is the intended one only when that other
      vessel happens to share ownship's velocity. */
  lemma CandidateAsWrittenDiffers(own: Vessel, target: Vessel, a: real, v1: Vessel)
    ensures CandidateAsWritten(own, target, a, v1) == CandidateVelocity(own, target, a) <==> v1.v == own.v
  {
    SubZero(CandidateAsWritten(own, target, a, v1), CandidateVelocity(own, target, a));
    SubZero(v1.v, own.v);
  }

  /** A target moving at the as-written candidate velocity misses: after
      1/a time units, when the intended course meets ownship, it is off by
      (V_v1 - V_own)/a, which is zero only when v1 moves as ownship does. */
  lemma CandidateAsWrittenMisses(own: Vessel, target: Vessel, a: real, v1: Vessel, t: Vessel)
    requires a != 0.0
    requires t.pos == target.pos && t.v == CandidateAsWritten(own, target, a, v1)
    ensures Separation(own, t, 1.0 / a) == Scale(1.0 / a, Sub(v1.v, own.v))
    ensures Separation(own, t, 1.0 / a) == Zero <==> v1.v == own.v
  {
    var d := RelativePosition(own, target);
    var k := 1.0 / a;
    var e := Sub(v1.v, own.v);
    assert k * a == 1.0;
    assert RelativeVelocity(own, t) == Add(Scale(-a, d), e);
    assert Separation(own, t, k) == Add(Add(d, Scale(k, Scale(-a, d))), Scale(k, e));
    ScaleBack(d, a, k);
    if e != Zero {
      ScaleNonZero(k, e);
    }
    SubZero(v1.v, own.v);
  }

  /** The generator with its overwrite of the requested number of samples
      by 10, and otherwise corrected: the candidates here are built from
      ownship's velocity, the defect at the candidate line being modelled
      separately by `CandidateAsWritten`. */
  function CoursesAsWritten(m: MathLib, own: Vessel, target: Vessel, n: nat, lo: real, hi: real)
    : (r: Result<Courses, CollisionError>)
    requires SqrtLaw(m) && 0.0 < m.pi
    ensures r.Ok? <==> RelativePosition(own, target) != Zero && lo != hi
    ensures r.Ok? ==> |r.value.speeds| == 10 && |r.value.headings| == 10
  {
    CoursesToCollide(m, own, target, 10, lo, hi)
  }

  /** Asked for n courses, the as-written generator returns n of them only
      when n is 10, where the corrected one always returns n. */
  lemma CoursesAsWrittenIgnoresN(m: MathLib, own: Vessel, target: Vessel, n: nat, lo: real, hi: real)
    requires SqrtLaw(m) && 0.0 < m.pi
    requires CoursesToCollide(m, own, target, n, lo, hi).Ok?
    ensures CoursesAsWritten(m, own, target, n, lo, hi).Ok?
    ensures |CoursesToCollide(m, own, target, n, lo, hi).value.speeds| == n
    ensures |CoursesAsWritten(m, own, target, n, lo, hi).value.speeds| == n <==> n == 10
  {}

  /** Three courses asked for, ten returned. */
  lemma CoursesAsWrittenThree(m: MathLib, own: Vessel, target: Vessel, lo: real, hi: real)
    requires SqrtLaw(m) && 0.0 < m.pi
    requires RelativePosition(own, target) != Zero && lo != hi
    ensures |CoursesToCollide(m, own, target, 3, lo, hi).value.speeds| == 3
    ensures |CoursesAsWritten(m, own, target, 3, lo, hi).value.speeds| == 10
  {}
}
