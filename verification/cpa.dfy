/** The closest point of approach (CPA) between ownship and a target vessel,
    both holding constant velocity. The separation D + Vr·t, with D the
    target's position and Vr its velocity relative to ownship, is a line in
    the plane; its squared length is a quadratic in t, least where the
    separation is perpendicular to Vr. */
module ClosestApproach {
  import opened Numerics
  import opened Vectors
  import opened Vessels
  import opened Results

  /** Velocity of the target relative to ownship, `vessel.V - self.V`. */
  function RelativeVelocity(own: Vessel, target: Vessel): Vec2 {
    Sub(target.v, own.v)
  }

  /** Position of the target relative to ownship, `vessel.pos - self.pos`. */
  function RelativePosition(own: Vessel, target: Vessel): Vec2 {
    Sub(target.pos, own.pos)
  }

  /** The displacement from ownship to the target at time t: the relative
      position carried along by the relative velocity. */
  function Separation(own: Vessel, target: Vessel, t: real): Vec2 {
    Add(RelativePosition(own, target), Scale(t, RelativeVelocity(own, target)))
  }

  /** The separation is the target's position less ownship's at that time. */
  lemma SeparationOfPositions(own: Vessel, target: Vessel, t: real)
    ensures Separation(own, target, t) == Sub(PositionAt(target, t), PositionAt(own, t))
  {}

  /** At time t the vessels are as close as they will ever be, or ever were. */
  ghost predicate IsClosestApproach(own: Vessel, target: Vessel, t: real) {
    forall u :: NormSq(Separation(own, target, t)) <= NormSq(Separation(own, target, u))
  }

  /** The time of closest approach, `-(Vr·D) / (Vr[0]² + Vr[1]²)`. The
      divisor is zero only when the vessels share a velocity. At that time
      the separation is perpendicular to the relative velocity: the
      derivative of the squared range vanishes. */
  function Tcpa(own: Vessel, target: Vessel): (t: real)
    requires RelativeVelocity(own, target) != Zero
    ensures Dot(Separation(own, target, t), RelativeVelocity(own, target)) == 0.0
  {
    var vr := RelativeVelocity(own, target);
    var d := RelativePosition(own, target);
    NormSqSign(vr);
    var t := -Dot(vr, d) / NormSq(vr);
    assert t * NormSq(vr) == -Dot(vr, d);
    assert Dot(Add(d, Scale(t, vr)), vr) == Dot(d, vr) + t * NormSq(vr);
    t
  }

  /** If the separation at time c is perpendicular to the velocity v, then
      at every time t the squared separation is that at c plus |v|²(t - c)²:
      Pythagoras along the line of relative motion. */
  lemma PerpendicularFoot(d: Vec2, v: Vec2, c: real, t: real)
    requires Dot(Add(d, Scale(c, v)), v) == 0.0
    ensures NormSq(Add(d, Scale(t, v))) == NormSq(Add(d, Scale(c, v))) + NormSq(v) * Sq(t - c)
  {
    var p := Add(d, Scale(c, v));
    assert Add(d, Scale(t, v)) == Add(p, Scale(t - c, v));
    NormSqAlongLine(p, v, t - c);
    SquareIsSq(t - c);
  }

  /** The squared separation at any time t exceeds that at the time of
      closest approach by |Vr|²(t - tcpa)². */
  lemma ClosestApproachIdentity(own: Vessel, target: Vessel, t: real)
    requires RelativeVelocity(own, target) != Zero
    ensures var c := Tcpa(own, target);
      NormSq(Separation(own, target, t))
        == NormSq(Separation(own, target, c)) + NormSq(RelativeVelocity(own, target)) * Sq(t - c)
  {
    PerpendicularFoot(RelativePosition(own, target), RelativeVelocity(own, target), Tcpa(own, target), t);
  }

  /** The time of closest approach is when the range is least, over all
      times, past and future. */
  lemma TcpaMinimises(own: Vessel, target: Vessel)
    requires RelativeVelocity(own, target) != Zero
    ensures IsClosestApproach(own, target, Tcpa(own, target))
  {
    var vr := RelativeVelocity(own, target);
    NormSqSign(vr);
    forall u
      ensures NormSq(Separation(own, target, Tcpa(own, target))) <= NormSq(Separation(own, target, u))
    {
      ClosestApproachIdentity(own, target, u);
      SqSign(u - Tcpa(own, target));
      MulNonNeg(NormSq(vr), Sq(u - Tcpa(own, target)));
    }
  }

  /** It is the only such time: every other time is strictly farther apart. */
  lemma TcpaUnique(own: Vessel, target: Vessel, t: real)
    requires RelativeVelocity(own, target) != Zero
    ensures IsClosestApproach(own, target, t) <==> t == Tcpa(own, target)
  {
    TcpaMinimises(own, target);
    var c := Tcpa(own, target);
    if t != c {
      var vr := RelativeVelocity(own, target);
      NormSqSign(vr);
      SqSign(t - c);
      MulPos(NormSq(vr), Sq(t - c));
      ClosestApproachIdentity(own, target, t);
      assert NormSq(Separation(own, target, c)) < NormSq(Separation(own, target, t));
    }
  }

  /** Vessels sharing a velocity keep their separation for ever, so every
      time is a time of closest approach and none is singled out. */
  lemma NoRelativeMotion(own: Vessel, target: Vessel, t: real)
    requires own.v == target.v
    ensures Separation(own, target, t) == RelativePosition(own, target)
    ensures IsClosestApproach(own, target, t)
  {
    forall u
      ensures Separation(own, target, u) == RelativePosition(own, target)
    {
      assert RelativeVelocity(own, target) == Zero;
    }
  }

  /** The range at the closest approach is never more than the range now. */
  lemma ClosestNotFarther(m: MathLib, own: Vessel, target: Vessel, t: real)
    requires SqrtLaw(m)
    requires IsClosestApproach(own, target, t)
    ensures Norm(m, Separation(own, target, t)) <= Norm(m, RelativePosition(own, target))
  {
    ClosestNotFartherSq(own, target, t);
    NormMonotone(m, Separation(own, target, t), RelativePosition(own, target));
  }

  /** A closest approach is no farther than the separation at time 0, squared. */
  lemma ClosestNotFartherSq(own: Vessel, target: Vessel, t: real)
    requires IsClosestApproach(own, target, t)
    ensures NormSq(Separation(own, target, t)) <= NormSq(RelativePosition(own, target))
  {
    assert Separation(own, target, 0.0) == RelativePosition(own, target);
  }

  /** What the CPA computation reports: the time, where the target and
      ownship will be, and the range and compass bearing from ownship to
      the target at that moment. */
  datatype CpaFix = CpaFix(tcpa: real, targetAt: Vec2, ownshipAt: Vec2, range: real, bearing: real)

  /** The source divides by zero when the vessels share a velocity and yields
      NaN; the model reports it instead. */
  datatype CpaError = SameVelocity

  /** The fix the CPA computation reports for time t: each vessel where its
      own motion takes it, so that the two positions differ by the
      separation D + Vr·t, the range is the length of that separation, zero
      exactly when the vessels meet, and the bearing a compass bearing. */
  function FixAt(m: MathLib, own: Vessel, target: Vessel, t: real): (r: CpaFix)
    requires SqrtLaw(m) && 0.0 < m.pi
    ensures r.tcpa == t
    ensures Sub(r.targetAt, r.ownshipAt) == Separation(own, target, t)
    ensures r.range == Norm(m, Separation(own, target, t))
    ensures r.range == 0.0 <==> r.targetAt == r.ownshipAt
    ensures 0.0 <= r.bearing < 360.0
  {
    SeparationOfPositions(own, target, t);
    SubZero(PositionAt(target, t), PositionAt(own, t));
    var targetAt := PositionAt(target, t);
    var ownshipAt := PositionAt(own, t);
    var sep := Sub(targetAt, ownshipAt);
    CpaFix(t, targetAt, ownshipAt, Norm(m, sep), Bearing(m, sep.x, sep.y))
  }

  /** The properties of a CPA fix, stated for the fix at the time of closest
      approach. */
  ghost predicate IsCpaFix(m: MathLib, own: Vessel, target: Vessel, f: CpaFix)
    requires SqrtLaw(m)
  {
    var sep := Sub(f.targetAt, f.ownshipAt);
    && f.targetAt == PositionAt(target, f.tcpa)
    && f.ownshipAt == PositionAt(own, f.tcpa)
    && IsClosestApproach(own, target, f.tcpa)
    && Dot(sep, RelativeVelocity(own, target)) == 0.0
    && 0.0 <= f.range && f.range * f.range == NormSq(sep)
    && (f.range == 0.0 <==> f.targetAt == f.ownshipAt)
    && f.range <= Norm(m, RelativePosition(own, target))
    && 0.0 <= f.bearing < 360.0
  }

  lemma FixAtTcpa(m: MathLib, own: Vessel, target: Vessel)
    requires SqrtLaw(m) && 0.0 < m.pi
    requires RelativeVelocity(own, target) != Zero
    ensures IsCpaFix(m, own, target, FixAt(m, own, target, Tcpa(own, target)))
  {
    var t := Tcpa(own, target);
    var f := FixAt(m, own, target, t);
    var sep := Sub(f.targetAt, f.ownshipAt);
    SeparationOfPositions(own, target, t);
    TcpaMinimises(own, target);
    ClosestNotFarther(m, own, target, t);
    NormSquared(m, sep);
    assert f.range == 0.0 <==> f.targetAt == f.ownshipAt by {
      assert sep == Zero <==> f.targetAt == f.ownshipAt;
    }
  }

  /** The closest point of approach between ownship and the target. */
  function Cpa(m: MathLib, own: Vessel, target: Vessel): (r: Result<CpaFix, CpaError>)
    requires SqrtLaw(m) && 0.0 < m.pi
    ensures r.Err? <==> own.v == target.v
    ensures r.Ok? ==> IsCpaFix(m, own, target, r.value)
  {
    SubZero(target.v, own.v);
    if RelativeVelocity(own, target) == Zero then
      Err(SameVelocity)
    else
      FixAtTcpa(m, own, target);
      Ok(FixAt(m, own, target, Tcpa(own, target)))
  }

  /** The CPA range and bearing point from ownship to the target: steering
      from ownship's CPA position on that bearing for that distance reaches
      the target's CPA position. */
  lemma CpaBearingPointsAtTarget(m: MathLib, own: Vessel, target: Vessel)
    requires SqrtLaw(m) && HalfTurnLaw(m) && Atan2Range(m) && Atan2Polar(m)
    requires Cpa(m, own, target).Ok?
    ensures var f := Cpa(m, own, target).value;
      Add(f.ownshipAt, HeadingVelocity(m, f.range, f.bearing)) == f.targetAt
  {
    var f := Cpa(m, own, target).value;
    HeadingRoundTrip(m, Sub(f.targetAt, f.ownshipAt));
  }

  /** Swapping the vessels negates the relative position and velocity, so
      the time of closest approach is the same and the separation reverses. */
  lemma TcpaSwap(own: Vessel, target: Vessel)
    requires RelativeVelocity(own, target) != Zero
    ensures RelativeVelocity(target, own) != Zero
    ensures Tcpa(target, own) == Tcpa(own, target)
    ensures Separation(target, own, Tcpa(own, target)) == Neg(Separation(own, target, Tcpa(own, target)))
  {
    var vr := RelativeVelocity(own, target);
    var d := RelativePosition(own, target);
    assert RelativeVelocity(target, own) == Neg(vr);
    assert RelativePosition(target, own) == Neg(d);
    assert Dot(Neg(vr), Neg(d)) == Dot(vr, d);
    assert NormSq(Neg(vr)) == NormSq(vr);
  }

  lemma NormNeg(m: MathLib, a: Vec2)
    requires SqrtLaw(m)
    ensures Norm(m, Neg(a)) == Norm(m, a)
  {
    assert Dot(Neg(a), Neg(a)) == Dot(a, a);
  }

  /** Seen from the target, the CPA is the same event: same time, the two
      positions exchanged, the same range, and (when the vessels do not
      meet) the reverse bearing. */
  lemma CpaSwap(m: MathLib, own: Vessel, target: Vessel)
    requires SqrtLaw(m) && 0.0 < m.pi
    ensures Cpa(m, own, target).Err? <==> Cpa(m, target, own).Err?
    ensures Cpa(m, own, target).Ok? ==>
      var f := Cpa(m, own, target).value;
      var g := Cpa(m, target, own).value;
      && g.tcpa == f.tcpa
      && g.targetAt == f.ownshipAt && g.ownshipAt == f.targetAt
      && g.range == f.range
      && (Atan2HalfTurn(m) && f.range != 0.0 ==> g.bearing == Mod360(f.bearing + 180.0))
  {
    if Cpa(m, own, target).Ok? {
      var f := Cpa(m, own, target).value;
      var g := Cpa(m, target, own).value;
      TcpaUnique(own, target, f.tcpa);
      TcpaUnique(target, own, g.tcpa);
      TcpaSwap(own, target);
      var sep := Sub(f.targetAt, f.ownshipAt);
      assert Sub(g.targetAt, g.ownshipAt) == Neg(sep);
      NormNeg(m, sep);
      if Atan2HalfTurn(m) && f.range != 0.0 {
        SubZero(f.targetAt, f.ownshipAt);
        BearingOpposite(m, sep.x, sep.y);
      }
    }
  }

  /** The time of closest approach is the one time at which the separation
      is perpendicular to the relative velocity. */
  lemma TcpaPerpendicular(own: Vessel, target: Vessel, t: real)
    requires RelativeVelocity(own, target) != Zero
    ensures Dot(Separation(own, target, t), RelativeVelocity(own, target)) == 0.0 <==> t == Tcpa(own, target)
  {
    var vr := RelativeVelocity(own, target);
    var d := RelativePosition(own, target);
    NormSqSign(vr);
    assert Dot(Separation(own, target, t), vr) == Dot(vr, d) + t * NormSq(vr);
    if Dot(Separation(own, target, t), vr) == 0.0 {
      DivUnique(-Dot(vr, d), NormSq(vr), t);
    }
  }

  /** The CPA computation reports the fix at whichever time the separation
      is perpendicular to a non-zero relative velocity. */
  lemma CpaAtPerpendicular(m: MathLib, own: Vessel, target: Vessel, t: real)
    requires SqrtLaw(m) && 0.0 < m.pi
    requires RelativeVelocity(own, target) != Zero
    requires Dot(Separation(own, target, t), RelativeVelocity(own, target)) == 0.0
    ensures Cpa(m, own, target) == Ok(FixAt(m, own, target, t))
  {
    TcpaPerpendicular(own, target, t);
    SubZero(target.v, own.v);
  }

  /** When the vessels meet at time t, that is the time of closest approach,
      and the fix reports both at the same point and a range of zero. */
  lemma CpaAtMeeting(m: MathLib, own: Vessel, target: Vessel, t: real)
    requires SqrtLaw(m) && 0.0 < m.pi
    requires RelativeVelocity(own, target) != Zero
    requires Separation(own, target, t) == Zero
    ensures Cpa(m, own, target).Ok?
    ensures var f := Cpa(m, own, target).value;
      f.tcpa == t && f.range == 0.0 && f.targetAt == f.ownshipAt
  {
    assert Dot(Separation(own, target, t), RelativeVelocity(own, target)) == 0.0;
    CpaAtPerpendicular(m, own, target, t);
    var f := FixAt(m, own, target, t);
    SeparationOfPositions(own, target, t);
    SubZero(PositionAt(target, t), PositionAt(own, t));
    assert f.targetAt == f.ownshipAt;
    assert Sub(f.targetAt, f.ownshipAt) == Zero;
  }
}
