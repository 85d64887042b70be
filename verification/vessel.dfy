/** A vessel moving at constant velocity in the plane, and the compass
    conventions the vessel code uses: x points east, y points north, and
    headings and bearings are degrees clockwise from north. */
module Vessels {
  import opened Numerics
  import opened Vectors

  /** The state a vessel is built with. The heading is kept as given, not
      reduced to [0, 360); the velocity is derived from speed and heading
      once, when the vessel is built, and never recomputed. */
  datatype Vessel = Vessel(length: real, pos: Vec2, speed: real, heading: real, v: Vec2)

  /** Radians of a compass angle in degrees, as the constructor converts
      the heading. Converting back gives the degrees again, and a heading in
      [0, 360) is an angle in [0, 2·pi). */
  function Deg2Rad(m: MathLib, degrees: real): (r: real)
    ensures 0.0 < m.pi ==> Rad2Deg(m, r) == degrees
    ensures 0.0 < m.pi && 0.0 <= degrees < 360.0 ==> 0.0 <= r < 2.0 * m.pi
  {
    var r := degrees * m.pi / 180.0;
    assert 0.0 < m.pi ==>
      (Rad2Deg(m, r) == degrees && (0.0 <= degrees < 360.0 ==> 0.0 <= r < 2.0 * m.pi)) by {
      if 0.0 < m.pi {
        DegreesRoundTrip(m.pi, degrees);
      }
    }
    r
  }

  /** The velocity of a vessel making `speed` on compass heading `heading`:
      the east component is speed·sin, the north component speed·cos, so
      its length is the speed (squared here, to stay clear of the square
      root). */
  function HeadingVelocity(m: MathLib, speed: real, heading: real): (v: Vec2)
    ensures Pythagoras(m) ==> NormSq(v) == speed * speed
  {
    var h := Deg2Rad(m, heading);
    assert NormSq(Vec2(speed * m.sin(h), speed * m.cos(h)))
        == speed * speed * (m.sin(h) * m.sin(h) + m.cos(h) * m.cos(h));
    Vec2(speed * m.sin(h), speed * m.cos(h))
  }

  /** Building a vessel. Its velocity has the given speed as its length
      (squared here, to stay clear of the square root). */
  function Make(m: MathLib, length: real, x: real, y: real, speed: real, heading: real): (s: Vessel)
    ensures s.length == length && s.pos == Vec2(x, y)
    ensures s.speed == speed && s.heading == heading
    ensures s.v == HeadingVelocity(m, speed, heading)
    ensures Pythagoras(m) ==> NormSq(s.v) == speed * speed
  {
    Vessel(length, Vec2(x, y), speed, heading, HeadingVelocity(m, speed, heading))
  }

  /** Where a vessel is `t` time units from now (earlier for negative t). */
  function PositionAt(s: Vessel, t: real): Vec2 {
    Add(s.pos, Scale(t, s.v))
  }

  /** The compass bearing of the displacement (dx, dy): `atan2` is given the
      east component first, so 0 is north and 90 is east. The result is
      reduced into [0, 360) by Python's floating-point `%`. */
  function Bearing(m: MathLib, dx: real, dy: real): (b: real)
    requires 0.0 < m.pi
    ensures 0.0 <= b < 360.0
  {
    Mod360(Rad2Deg(m, m.atan2(dx, dy)) + 360.0)
  }

  /** The speed a vessel is built with is the length of its velocity, up to sign. */
  lemma MakeSpeed(m: MathLib, length: real, x: real, y: real, speed: real, heading: real)
    requires SqrtLaw(m) && Pythagoras(m)
    ensures Norm(m, Make(m, length, x, y, speed, heading).v) == Abs(speed)
  {
    var s := Make(m, length, x, y, speed, heading);
    AbsSquare(speed);
    SqrtUnique(m, NormSq(s.v), Abs(speed));
  }

  /** The four cardinal headings: north, east, south and west. */
  lemma CardinalHeadings(m: MathLib, speed: real)
    requires HalfTurnLaw(m) && QuarterTurnValues(m)
    ensures HeadingVelocity(m, speed, 0.0) == Vec2(0.0, speed)
    ensures HeadingVelocity(m, speed, 90.0) == Vec2(speed, 0.0)
    ensures HeadingVelocity(m, speed, 180.0) == Vec2(0.0, -speed)
    ensures HeadingVelocity(m, speed, 270.0) == Vec2(-speed, 0.0)
  {
    assert Deg2Rad(m, 0.0) == 0.0;
    assert Deg2Rad(m, 90.0) == m.pi / 2.0;
    assert Deg2Rad(m, 180.0) == HalfTurn(m, 0.0);
    assert Deg2Rad(m, 270.0) == HalfTurn(m, m.pi / 2.0);
  }

  /** The sine and cosine repeat after a full turn. */
  lemma FullTurn(m: MathLib, t: real)
    requires HalfTurnLaw(m)
    ensures m.sin(t + 2.0 * m.pi) == m.sin(t) && m.cos(t + 2.0 * m.pi) == m.cos(t)
  {
    assert t + 2.0 * m.pi == HalfTurn(m, HalfTurn(m, t));
  }

  /** 360 degrees is a full turn in radians. */
  lemma Deg2RadFullTurn(m: MathLib, heading: real)
    ensures Deg2Rad(m, heading + 360.0) == Deg2Rad(m, heading) + 2.0 * m.pi
  {
    assert (heading + 360.0) * m.pi == heading * m.pi + 360.0 * m.pi;
  }

  /** A heading and the same heading plus a full turn give the same velocity,
      so keeping the heading un-reduced is harmless. */
  lemma HeadingFullTurn(m: MathLib, speed: real, heading: real)
    requires HalfTurnLaw(m)
    ensures HeadingVelocity(m, speed, heading + 360.0) == HeadingVelocity(m, speed, heading)
  {
    Deg2RadFullTurn(m, heading);
    FullTurn(m, Deg2Rad(m, heading));
  }

  /** Degrees of an angle in radians, as the bearing code converts it. An
      angle in (-pi, pi], the range of `atan2`, becomes one in (-180, 180]
      with the same sign. */
  function Rad2Deg(m: MathLib, radians: real): (r: real)
    requires 0.0 < m.pi
    ensures -m.pi < radians <= m.pi ==>
      -180.0 < r <= 180.0 && (0.0 <= r <==> 0.0 <= radians)
  {
    var r := radians * 180.0 / m.pi;
    assert -m.pi < radians <= m.pi ==> -180.0 < r <= 180.0 && (0.0 <= r <==> 0.0 <= radians) by {
      if -m.pi < radians <= m.pi {
        DegreeBounds(m.pi, radians, r);
      }
    }
    r
  }

  /** Half a turn in radians is 180 degrees. */
  lemma Rad2DegHalfTurn(m: MathLib, beta: real)
    requires 0.0 < m.pi
    ensures Rad2Deg(m, beta - m.pi) == Rad2Deg(m, beta) - 180.0
    ensures Rad2Deg(m, beta + m.pi) == Rad2Deg(m, beta) + 180.0
  {
    var d := Rad2Deg(m, beta);
    assert d * m.pi == beta * 180.0;
    DivUnique((beta - m.pi) * 180.0, m.pi, d - 180.0);
    DivUnique((beta + m.pi) * 180.0, m.pi, d + 180.0);
  }

  /** Converted back to radians, the bearing of (dx, dy) is the arctangent
      itself when that is non-negative, and the arctangent plus a full turn
      otherwise. */
  lemma BearingRadians(m: MathLib, dx: real, dy: real)
    requires 0.0 < m.pi
    requires -m.pi < m.atan2(dx, dy) <= m.pi
    ensures var beta := m.atan2(dx, dy);
      Deg2Rad(m, Bearing(m, dx, dy)) == if 0.0 <= beta then beta else beta + 2.0 * m.pi
  {
    var beta := m.atan2(dx, dy);
    var deg := Rad2Deg(m, beta);
    assert deg * m.pi == beta * 180.0;
    DegreeBounds(m.pi, beta, deg);
    if 0.0 <= beta {
      Mod360Unique(deg + 360.0, 1, deg);
    } else {
      Mod360Unique(deg + 360.0, 0, deg + 360.0);
      assert (deg + 360.0) * m.pi == deg * m.pi + 360.0 * m.pi;
    }
  }

  /** Steering on the bearing of (dx, dy) points along the arctangent of
      (dx, dy): the sine and cosine agree. */
  lemma BearingTrig(m: MathLib, dx: real, dy: real)
    requires HalfTurnLaw(m) && Atan2Range(m)
    ensures var h := Deg2Rad(m, Bearing(m, dx, dy));
      m.sin(h) == m.sin(m.atan2(dx, dy)) && m.cos(h) == m.cos(m.atan2(dx, dy))
  {
    BearingRadians(m, dx, dy);
    if m.atan2(dx, dy) < 0.0 {
      FullTurn(m, m.atan2(dx, dy));
    }
  }

  /** A radius times the sine and cosine of the arctangent of (x, y) gives
      back (x, y); so does any heading whose angle has the same sine and cosine. */
  lemma PolarComponents(m: MathLib, w: Vec2, heading: real)
    requires SqrtLaw(m) && Atan2Polar(m)
    requires var h := Deg2Rad(m, heading);
      m.sin(h) == m.sin(m.atan2(w.x, w.y)) && m.cos(h) == m.cos(m.atan2(w.x, w.y))
    ensures HeadingVelocity(m, m.sqrt(w.x * w.x + w.y * w.y), heading) == w
  {}

  /** Construction inverts the bearing: a vessel steered at the length of w
      on the bearing of w moves with velocity w. */
  lemma HeadingRoundTrip(m: MathLib, w: Vec2)
    requires SqrtLaw(m) && HalfTurnLaw(m) && Atan2Range(m) && Atan2Polar(m)
    ensures HeadingVelocity(m, Norm(m, w), Bearing(m, w.x, w.y)) == w
  {
    BearingTrig(m, w.x, w.y);
    PolarComponents(m, w, Bearing(m, w.x, w.y));
    NormComponents(m, w);
  }

  /** Scaling a point by a positive factor keeps its arctangent. */
  lemma Atan2Scaled(m: MathLib, k: real, y: real, x: real)
    requires Atan2Direction(m)
    requires 0.0 < Dot(Vec2(y, x), Scale(k, Vec2(y, x)))
    ensures m.atan2(k * y, k * x) == m.atan2(y, x)
  {
    assert y * (k * x) == x * (k * y);
  }

  /** The bearing depends only on the direction of the displacement. */
  lemma BearingScaleInvariant(m: MathLib, k: real, dx: real, dy: real)
    requires 0.0 < m.pi && Atan2Direction(m)
    requires 0.0 < k
    ensures Bearing(m, k * dx, k * dy) == Bearing(m, dx, dy)
  {
    if dx != 0.0 || dy != 0.0 {
      var d := Vec2(dx, dy);
      assert Dot(d, Scale(k, d)) == k * NormSq(d);
      NormSqSign(d);
      MulPos(k, NormSq(d));
      Atan2Scaled(m, k, dx, dy);
    }
  }

  /** Reversing a non-zero displacement turns its bearing by 180 degrees. */
  lemma BearingOpposite(m: MathLib, dx: real, dy: real)
    requires 0.0 < m.pi && Atan2HalfTurn(m)
    requires dx != 0.0 || dy != 0.0
    ensures Bearing(m, -dx, -dy) == Mod360(Bearing(m, dx, dy) + 180.0)
  {
    var beta := m.atan2(dx, dy);
    var a := Rad2Deg(m, beta) + 360.0;
    Rad2DegHalfTurn(m, beta);
    Mod360HalfTurn(a);
    if 0.0 < beta {
      assert m.atan2(-dx, -dy) == beta - m.pi;
      assert Bearing(m, -dx, -dy) == Mod360(a - 180.0);
    } else {
      assert m.atan2(-dx, -dy) == beta + m.pi;
      assert Bearing(m, -dx, -dy) == Mod360(a + 180.0);
    }
  }
}
