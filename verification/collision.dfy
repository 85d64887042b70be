/** Courses on which a target vessel would collide with ownship. A target
    whose velocity relative to ownship is -a·D, for D the target's position
    relative to ownship and a > 0, runs straight down the line of sight and
    reaches ownship after 1/a time units. The generator samples a so that
    the closing speed a·|D| runs through a range of speeds, and reports each
    candidate velocity as a speed and a compass heading. */
module Collision {
  import opened Numerics
  import opened Vectors
  import opened Vessels
  import opened ClosestApproach
  import opened Results

  /** The least integer not below x, as `math.ceil` rounds. */
  function Ceil(x: real): (c: int)
    ensures x <= c as real < x + 1.0
  {
    -((-x).Floor)
  }

  /** Point i of the grid from `start` in steps of `step`. */
  function GridPoint(start: real, step: real, i: nat): real {
    start + i as real * step
  }

  /** Whether x comes before `stop` when counting from a start in steps of
      `step`: below it for a positive step, above it for a negative one. */
  predicate Before(x: real, stop: real, step: real) {
    if 0.0 < step then x < stop else stop < x
  }

  /** The number of points `numpy.arange` produces over the reals: the
      ceiling of (stop - start)/step, and none when that is not positive.
      There are none exactly when `start` itself does not come before `stop`. */
  function ArangeLength(start: real, stop: real, step: real): (r: nat)
    requires step != 0.0
    ensures r == 0 <==> !Before(start, stop, step)
  {
    var q := (stop - start) / step;
    var c := Ceil(q);
    assert q * step == stop - start;
    assert c <= 0 <==> q <= 0.0;
    assert q <= 0.0 <==> !Before(start, stop, step) by {
      if 0.0 < step {
        if 0.0 < q { MulPos(q, step); } else { MulNonNeg(-q, step); }
      } else {
        if 0.0 < q { MulPos(q, -step); } else { MulNonNeg(-q, -step); }
      }
    }
    if c < 0 then 0 else c
  }

  /** Index i is within the length exactly when it is below (stop - start)/step. */
  lemma ArangeLengthBound(start: real, stop: real, step: real, i: nat)
    requires step != 0.0
    ensures i < ArangeLength(start, stop, step) <==> (i as real) < (stop - start) / step
  {
    var q := (stop - start) / step;
    assert Ceil(q) as real < q + 1.0;
  }

  /** Grid point i comes before `stop` exactly when i is below (stop - start)/step. */
  lemma GridBefore(start: real, stop: real, step: real, i: nat)
    requires step != 0.0
    ensures Before(GridPoint(start, step, i), stop, step) <==> (i as real) < (stop - start) / step
  {
    var q := (stop - start) / step;
    var k := i as real;
    var g := GridPoint(start, step, i);
    assert q * step == stop - start;
    assert g - stop == (k - q) * step;
    if 0.0 < step {
      if k < q {
        MulPos(q - k, step);
      } else {
        MulNonNeg(k - q, step);
      }
    } else {
      if k < q {
        MulPos(q - k, -step);
        assert g - stop == (q - k) * (-step);
      } else {
        MulNonNeg(k - q, -step);
        assert stop - g == (k - q) * (-step);
      }
    }
  }

  /** Point i of the grid is produced exactly when it comes before `stop`. */
  lemma ArangeIndex(start: real, stop: real, step: real, i: nat)
    requires step != 0.0
    ensures i < ArangeLength(start, stop, step) <==> Before(GridPoint(start, step, i), stop, step)
  {
    ArangeLengthBound(start, stop, step, i);
    GridBefore(start, stop, step, i);
  }

  /** `numpy.arange(start, stop, step)` over the reals: start, start + step,
      start + 2·step, ... for as long as the points come before `stop`. */
  function Arange(start: real, stop: real, step: real): (r: seq<real>)
    requires step != 0.0
    ensures forall i :: 0 <= i < |r| ==> Before(r[i], stop, step)
    ensures !Before(GridPoint(start, step, |r|), stop, step)
  {
    var n := ArangeLength(start, stop, step);
    forall i: nat | i < n
      ensures Before(GridPoint(start, step, i), stop, step)
    {
      ArangeIndex(start, stop, step, i);
    }
    ArangeIndex(start, stop, step, n);
    seq(n, i requires 0 <= i < n => GridPoint(start, step, i))
  }

  /** The points of a grid are evenly spaced from its start, and every point
      of the grid that comes before `stop` is produced. */
  lemma ArangeMembers(start: real, stop: real, step: real)
    requires step != 0.0
    ensures var r := Arange(start, stop, step);
      && (forall i :: 0 <= i < |r| ==> r[i] == GridPoint(start, step, i))
      && (forall i: nat :: Before(GridPoint(start, step, i), stop, step) ==> i < |r|)
  {
    forall i: nat | Before(GridPoint(start, step, i), stop, step)
      ensures i < |Arange(start, stop, step)|
    {
      ArangeIndex(start, stop, step, i);
    }
  }

  /** Speed sample i of n, running from `lo` towards `hi` in even steps. */
  function SampleSpeed(i: nat, n: nat, lo: real, hi: real): real
    requires 0 < n
  {
    lo + i as real * (hi - lo) / n as real
  }

  /** The fraction i/n of a positive width w, for i < n, lies in [0, w). */
  lemma FractionBounds(i: nat, n: nat, w: real)
    requires i < n && 0.0 < w
    ensures 0.0 <= i as real * w / n as real < w
  {
    var f := i as real * w / n as real;
    assert f * n as real == i as real * w;
    if f < 0.0 {
      MulPos(-f, n as real);
      MulNonNeg(i as real, w);
    }
    if w <= f {
      MulNonNeg(f - w, n as real);
      MulPos(n as real - i as real, w);
    }
  }

  /** One more step adds w/n, so the fractions increase strictly with i. */
  lemma FractionStep(i: nat, n: nat, w: real)
    requires 0 < n && 0.0 < w
    ensures i as real * w / n as real < (i + 1) as real * w / n as real
  {
    var f := i as real * w / n as real;
    var g := (i + 1) as real * w / n as real;
    assert g - f == w / n as real;
  }

  /** With lo < hi the samples increase strictly, start at lo, and stay below hi. */
  lemma SampleSpeedBounds(i: nat, n: nat, lo: real, hi: real)
    requires lo < hi && i < n
    ensures lo <= SampleSpeed(i, n, lo, hi) < hi
    ensures i == 0 ==> SampleSpeed(i, n, lo, hi) == lo
    ensures i + 1 < n ==> SampleSpeed(i, n, lo, hi) < SampleSpeed(i + 1, n, lo, hi)
  {
    var w := hi - lo;
    FractionBounds(i, n, w);
    FractionStep(i, n, w);
    assert SampleSpeed(i, n, lo, hi) == lo + i as real * w / n as real;
    assert SampleSpeed(i + 1, n, lo, hi) == lo + (i + 1) as real * w / n as real;
  }

  /** Dividing by d and multiplying back, along the arange grid that the
      scale factors are drawn from. */
  lemma GridScaled(d: real, n: nat, lo: real, hi: real, i: nat)
    requires 0.0 < d && 0 < n
    ensures (lo / d + i as real * ((hi / d - lo / d) / n as real)) * d == SampleSpeed(i, n, lo, hi)
  {
    var step := (hi / d - lo / d) / n as real;
    assert (hi / d - lo / d) * d == hi - lo;
    assert step * d == (hi - lo) / n as real;
    calc {
      (lo / d + i as real * step) * d;
      lo / d * d + i as real * (step * d);
      lo + i as real * ((hi - lo) / n as real);
    }
  }

  /** The scale factors a: the arange from minSpeed/|D| to maxSpeed/|D| in
      n equal steps, `dnorm` standing for |D|. There are n of them, and a·|D|
      is speed sample i. */
  function ScaleFactors(dnorm: real, n: nat, lo: real, hi: real): (a: seq<real>)
    requires 0.0 < dnorm && 0 < n && lo != hi
    ensures |a| == n
    ensures forall i :: 0 <= i < n ==> a[i] * dnorm == SampleSpeed(i, n, lo, hi)
  {
    var start := lo / dnorm;
    var stop := hi / dnorm;
    var step := (stop - start) / n as real;
    assert stop - start != 0.0 by {
      assert (stop - start) * dnorm == hi - lo;
    }
    assert step * n as real == stop - start;
    DivUnique(stop - start, step, n as real);
    assert Ceil((stop - start) / step) == n;
    ArangeMembers(start, stop, step);
    forall i | 0 <= i < n
      ensures Arange(start, stop, step)[i] * dnorm == SampleSpeed(i, n, lo, hi)
    {
      GridScaled(dnorm, n, lo, hi, i);
    }
    Arange(start, stop, step)
  }

  /** The candidate target velocity for scale factor a, `-D·a + V_own`:
      relative to ownship the target then moves at -a·D, along the line of
      sight towards ownship for positive a. */
  function CandidateVelocity(own: Vessel, target: Vessel, a: real): (w: Vec2)
    ensures Sub(w, own.v) == Scale(-a, RelativePosition(own, target))
  {
    Add(Scale(-a, RelativePosition(own, target)), own.v)
  }

  /** The target, kept where it is and steered at `speed` on `heading`. */
  function Steer(m: MathLib, target: Vessel, speed: real, heading: real): Vessel {
    Make(m, target.length, target.pos.x, target.pos.y, speed, heading)
  }

  /** The speeds and compass headings of the collision courses, in the order
      of their scale factors. */
  datatype Courses = Courses(speeds: seq<real>, headings: seq<real>)

  /** Inputs for which no course can be computed: coincident vessels leave
      no line of sight, no samples were asked for, or the speed range is
      empty so the sampling step is zero. */
  datatype CollisionError = CoincidentVessels | NoSamples | ZeroStep

  /** The speed and heading that steer at velocity w. */
  function SpeedOf(m: MathLib, w: Vec2): real
    requires SqrtLaw(m)
  {
    Norm(m, w)
  }

  function HeadingOf(m: MathLib, w: Vec2): real
    requires 0.0 < m.pi
  {
    Bearing(m, w.x, w.y)
  }

  /** The n collision courses for the target, with closing speeds sampled
      from lo towards hi; by default ten courses between 2 and 25. */
  function CoursesToCollide(m: MathLib, own: Vessel, target: Vessel,
                            n: nat := 10, lo: real := 2.0, hi: real := 25.0)
    : (r: Result<Courses, CollisionError>)
    requires SqrtLaw(m) && 0.0 < m.pi
    ensures r.Ok? <==> RelativePosition(own, target) != Zero && 0 < n && lo != hi
    ensures r.Ok? ==> |r.value.speeds| == n && |r.value.headings| == n
    ensures r.Ok? ==> forall i :: 0 <= i < n ==>
      0.0 <= r.value.speeds[i] && 0.0 <= r.value.headings[i] < 360.0
  {
    var d := RelativePosition(own, target);
    if d == Zero then Err(CoincidentVessels)
    else if n == 0 then Err(NoSamples)
    else if lo == hi then Err(ZeroStep)
    else
      var a := ScaleFactors(Norm(m, d), n, lo, hi);
      Ok(Courses(
        seq(n, i requires 0 <= i < n => SpeedOf(m, CandidateVelocity(own, target, a[i]))),
        seq(n, i requires 0 <= i < n => HeadingOf(m, CandidateVelocity(own, target, a[i])))))
  }

  /** Steering a vessel at the speed and heading of w gives it velocity w,
      and leaves it where it is. */
  lemma SteerAt(m: MathLib, target: Vessel, w: Vec2)
    requires SqrtLaw(m) && HalfTurnLaw(m) && Atan2Range(m) && Atan2Polar(m)
    ensures Steer(m, target, SpeedOf(m, w), HeadingOf(m, w)).v == w
    ensures Steer(m, target, SpeedOf(m, w), HeadingOf(m, w)).pos == target.pos
  {
    HeadingRoundTrip(m, w);
  }

  /** A target whose velocity relative to ownship is -a·D, for non-zero a,
      has a moving relative position, and is at ownship after 1/a time units. */
  lemma InterceptMotion(own: Vessel, target: Vessel, a: real)
    requires a != 0.0 && RelativePosition(own, target) != Zero
    requires RelativeVelocity(own, target) == Scale(-a, RelativePosition(own, target))
    ensures RelativeVelocity(own, target) != Zero
    ensures Separation(own, target, 1.0 / a) == Zero
  {
    var d := RelativePosition(own, target);
    assert (1.0 / a) * a == 1.0;
    ScaleBack(d, a, 1.0 / a);
    ScaleNonZero(-a, d);
  }

  /** Such a target meets ownship: the time of closest approach is t = 1/a
      and the range then is zero, both vessels at the same point. */
  lemma Intercept(m: MathLib, own: Vessel, target: Vessel, a: real, t: real)
    requires SqrtLaw(m) && 0.0 < m.pi
    requires a != 0.0 && RelativePosition(own, target) != Zero
    requires RelativeVelocity(own, target) == Scale(-a, RelativePosition(own, target))
    requires t == 1.0 / a
    ensures Cpa(m, own, target).Ok?
    ensures var f := Cpa(m, own, target).value;
      f.tcpa == t && f.range == 0.0 && f.targetAt == f.ownshipAt
  {
    InterceptMotion(own, target, a);
    CpaAtMeeting(m, own, target, t);
  }

  /** A target steered at the speed and heading of candidate velocity a
      stays where it is and moves relative to ownship at -a·D, straight down
      the line of sight. */
  lemma SteeredCandidate(m: MathLib, own: Vessel, target: Vessel, a: real)
    requires SqrtLaw(m) && HalfTurnLaw(m) && Atan2Range(m) && Atan2Polar(m)
    ensures var w := CandidateVelocity(own, target, a);
      var t := Steer(m, target, SpeedOf(m, w), HeadingOf(m, w));
      && RelativePosition(own, t) == RelativePosition(own, target)
      && RelativeVelocity(own, t) == Scale(-a, RelativePosition(own, target))
  {
    SteerAt(m, target, CandidateVelocity(own, target, a));
  }

  /** Moving at -a·D relative to ownship, with a·|D| = s, is closing at speed |s|. */
  lemma ClosingSpeed(m: MathLib, own: Vessel, t: Vessel, a: real, dn: real, s: real)
    requires SqrtLaw(m)
    requires RelativeVelocity(own, t) == Scale(-a, RelativePosition(own, t))
    requires dn == Norm(m, RelativePosition(own, t)) && a * dn == s
    ensures Norm(m, RelativeVelocity(own, t)) == Abs(s)
  {
    NormScale(m, -a, RelativePosition(own, t));
    assert Abs(-a) * dn == Abs(s);
  }

  /** The target, moving relative to ownship, is at its closest approach
      after dn/s time units. */
  ghost predicate ClosestAfter(own: Vessel, t: Vessel, dn: real, s: real) {
    RelativeVelocity(own, t) != Zero && Tcpa(own, t) * s == dn
  }

  /** Closing at a non-zero speed s from distance |D| = dn, the target is at
      ownship at the time of closest approach, which is dn/s. */
  lemma InterceptTime(own: Vessel, t: Vessel, a: real, dn: real, s: real)
    requires RelativePosition(own, t) != Zero
    requires RelativeVelocity(own, t) == Scale(-a, RelativePosition(own, t))
    requires a * dn == s && s != 0.0
    ensures RelativeVelocity(own, t) != Zero
    ensures Separation(own, t, Tcpa(own, t)) == Zero
    ensures Tcpa(own, t) * s == dn
  {
    NonZeroFactor(a, dn);
    InterceptMotion(own, t, a);
    TcpaPerpendicular(own, t, 1.0 / a);
    ReciprocalTimes(a, dn, s, Tcpa(own, t));
  }

  /** Closing at a non-zero speed s from distance |D| = dn, the target meets
      ownship at the time of closest approach, after dn/s time units. */
  lemma MeetsAfter(m: MathLib, own: Vessel, t: Vessel, a: real, dn: real, s: real)
    requires SqrtLaw(m) && 0.0 < m.pi
    requires RelativePosition(own, t) != Zero
    requires RelativeVelocity(own, t) == Scale(-a, RelativePosition(own, t))
    requires a * dn == s && s != 0.0
    ensures ClosestAfter(own, t, dn, s)
    ensures Cpa(m, own, t).Ok?
    ensures Cpa(m, own, t).value.tcpa == Tcpa(own, t)
    ensures Cpa(m, own, t).value.range == 0.0
  {
    InterceptTime(own, t, a, dn, s);
    CpaAtMeeting(m, own, t, Tcpa(own, t));
  }

  /** Entry i of the courses is the speed and heading of the candidate
      velocity for scale factor i. */
  lemma CourseEntry(m: MathLib, own: Vessel, target: Vessel, n: nat, lo: real, hi: real, i: nat)
    requires SqrtLaw(m) && 0.0 < m.pi
    requires CoursesToCollide(m, own, target, n, lo, hi).Ok? && i < n
    ensures var c := CoursesToCollide(m, own, target, n, lo, hi).value;
      var a := ScaleFactors(Norm(m, RelativePosition(own, target)), n, lo, hi)[i];
      && c.speeds[i] == SpeedOf(m, CandidateVelocity(own, target, a))
      && c.headings[i] == HeadingOf(m, CandidateVelocity(own, target, a))
  {}

  /** The target steered at the candidate velocity for scale factor a, with
      a·|D| = s, closes on ownship at speed |s| and, when s is not zero, meets
      it at the time of closest approach, |D|/s time units from now. */
  lemma CandidateCollides(m: MathLib, own: Vessel, target: Vessel, a: real, s: real)
    requires SqrtLaw(m) && HalfTurnLaw(m) && Atan2Range(m) && Atan2Polar(m)
    requires RelativePosition(own, target) != Zero
    requires a * Norm(m, RelativePosition(own, target)) == s
    ensures var w := CandidateVelocity(own, target, a);
      var t := Steer(m, target, SpeedOf(m, w), HeadingOf(m, w));
      && Norm(m, RelativeVelocity(own, t)) == Abs(s)
      && (s != 0.0 ==>
           && ClosestAfter(own, t, Norm(m, RelativePosition(own, target)), s)
           && Cpa(m, own, t).Ok?
           && Cpa(m, own, t).value.tcpa == Tcpa(own, t)
           && Cpa(m, own, t).value.range == 0.0)
  {
    var w := CandidateVelocity(own, target, a);
    var t := Steer(m, target, SpeedOf(m, w), HeadingOf(m, w));
    var dn := Norm(m, RelativePosition(own, target));
    SteeredCandidate(m, own, target, a);
    ClosingSpeed(m, own, t, a, dn, s);
    if s != 0.0 {
      MeetsAfter(m, own, t, a, dn, s);
    }
  }

  /** Every course the generator reports is a collision course: the target,
      steered at speed i on heading i, closes on ownship at sample speed i
      and, when that speed is not zero, reaches it at the time of closest
      approach, |D| divided by that speed from now. */
  lemma CoursesCollide(m: MathLib, own: Vessel, target: Vessel, n: nat, lo: real, hi: real, i: nat)
    requires SqrtLaw(m) && HalfTurnLaw(m) && Atan2Range(m) && Atan2Polar(m)
    requires CoursesToCollide(m, own, target, n, lo, hi).Ok? && i < n
    ensures var c := CoursesToCollide(m, own, target, n, lo, hi).value;
      var t := Steer(m, target, c.speeds[i], c.headings[i]);
      && Norm(m, RelativeVelocity(own, t)) == Abs(SampleSpeed(i, n, lo, hi))
      && (SampleSpeed(i, n, lo, hi) != 0.0 ==>
           && ClosestAfter(own, t, Norm(m, RelativePosition(own, target)), SampleSpeed(i, n, lo, hi))
           && Cpa(m, own, t).Ok?
           && Cpa(m, own, t).value.tcpa == Tcpa(own, t)
           && Cpa(m, own, t).value.range == 0.0)
  {
    var dn := Norm(m, RelativePosition(own, target));
    CourseEntry(m, own, target, n, lo, hi, i);
    CandidateCollides(m, own, target, ScaleFactors(dn, n, lo, hi)[i], SampleSpeed(i, n, lo, hi));
  }

  /** For 0 < lo < hi every reported course closes on ownship at a speed in
      [lo, hi), and ends at range zero. */
  lemma ClosingSpeedsInRange(m: MathLib, own: Vessel, target: Vessel, n: nat, lo: real, hi: real, i: nat)
    requires SqrtLaw(m) && HalfTurnLaw(m) && Atan2Range(m) && Atan2Polar(m)
    requires 0.0 < lo < hi
    requires CoursesToCollide(m, own, target, n, lo, hi).Ok? && i < n
    ensures var c := CoursesToCollide(m, own, target, n, lo, hi).value;
      var t := Steer(m, target, c.speeds[i], c.headings[i]);
      var closing := Norm(m, RelativeVelocity(own, t));
      && lo <= closing < hi
      && closing == SampleSpeed(i, n, lo, hi)
      && Cpa(m, own, t).Ok? && Cpa(m, own, t).value.range == 0.0
  {
    var s := SampleSpeed(i, n, lo, hi);
    SampleSpeedBounds(i, n, lo, hi);
    assert 0.0 < s;
    CoursesCollide(m, own, target, n, lo, hi, i);
    assert Abs(s) == s;
  }

  /** The closing speed of reported course i. */
  ghost function ClosingSpeedOf(m: MathLib, own: Vessel, target: Vessel, c: Courses, i: nat): real
    requires SqrtLaw(m) && 0.0 < m.pi && i < |c.speeds| && i < |c.headings|
  {
    Norm(m, RelativeVelocity(own, Steer(m, target, c.speeds[i], c.headings[i])))
  }

  /** For 0 < lo, course i closes at speed sample i. */
  lemma CourseClosesAt(m: MathLib, own: Vessel, target: Vessel, n: nat, lo: real, hi: real, i: nat)
    requires SqrtLaw(m) && HalfTurnLaw(m) && Atan2Range(m) && Atan2Polar(m)
    requires 0.0 < lo < hi
    requires CoursesToCollide(m, own, target, n, lo, hi).Ok? && i < n
    ensures ClosingSpeedOf(m, own, target, CoursesToCollide(m, own, target, n, lo, hi).value, i)
      == SampleSpeed(i, n, lo, hi)
  {
    ClosingSpeedsInRange(m, own, target, n, lo, hi, i);
  }

  /** For lo < hi the closing speeds of the reported courses increase
      strictly along the list, from lo for the first one. */
  lemma ClosingSpeedsIncrease(m: MathLib, own: Vessel, target: Vessel, n: nat, lo: real, hi: real, i: nat)
    requires SqrtLaw(m) && HalfTurnLaw(m) && Atan2Range(m) && Atan2Polar(m)
    requires 0.0 < lo < hi
    requires CoursesToCollide(m, own, target, n, lo, hi).Ok? && i + 1 < n
    ensures var c := CoursesToCollide(m, own, target, n, lo, hi).value;
      && (i == 0 ==> ClosingSpeedOf(m, own, target, c, i) == lo)
      && ClosingSpeedOf(m, own, target, c, i) < ClosingSpeedOf(m, own, target, c, i + 1)
  {
    CourseClosesAt(m, own, target, n, lo, hi, i);
    CourseClosesAt(m, own, target, n, lo, hi, i + 1);
    SampleSpeedBounds(i, n, lo, hi);
  }

  /** With the default arguments the generator gives ten courses for
      vessels that are apart, closing at 2, 4.3, 6.6, ... up to 22.7. */
  lemma DefaultCourses(m: MathLib, own: Vessel, target: Vessel)
    requires SqrtLaw(m) && HalfTurnLaw(m) && Atan2Range(m) && Atan2Polar(m)
    requires RelativePosition(own, target) != Zero
    ensures CoursesToCollide(m, own, target).Ok?
    ensures var c := CoursesToCollide(m, own, target).value;
      && |c.speeds| == 10
      && forall i: nat :: i < 10 ==> ClosingSpeedOf(m, own, target, c, i) == 2.0 + 2.3 * i as real
  {
    var c := CoursesToCollide(m, own, target).value;
    forall i: nat | i < 10
      ensures ClosingSpeedOf(m, own, target, c, i) == 2.0 + 2.3 * i as real
    {
      CourseClosesAt(m, own, target, 10, 2.0, 25.0, i);
    }
  }
}
