/** The numerical primitives the vessel code borrows from its array library:
    sine, cosine, the two-argument arctangent, the square root and the
    constant pi. They are transcendental, so the model receives them as
    values and states, as ghost predicates, the laws of real analysis it
    relies on. Python's floating-point `%` is modelled exactly over `real`. */
module Numerics {

  /** The library functions, as first-class values. `atan2(y, x)` is the
      angle of the point (x, y), as in the library. */
  datatype MathLib = MathLib(
    sin: real -> real,
    cos: real -> real,
    atan2: (real, real) -> real,
    sqrt: real -> real,
    pi: real)

  /** The square root of x, when x is non-negative, is non-negative and
      squares back to x. */
  ghost predicate SqrtAt(m: MathLib, x: real) {
    0.0 <= x ==> 0.0 <= m.sqrt(x) && m.sqrt(x) * m.sqrt(x) == x
  }

  /** The square root law, at every point. It is stated through `SqrtAt`
      so that proofs use it only at the points they name. */
  ghost predicate SqrtLaw(m: MathLib) {
    forall x :: SqrtAt(m, x)
  }

  /** The angle half a turn further on. */
  function HalfTurn(m: MathLib, t: real): real {
    t + m.pi
  }

  /** pi is positive, and half a turn negates the sine and the cosine. */
  ghost predicate HalfTurnLaw(m: MathLib) {
    && 0.0 < m.pi
    && (forall t :: m.sin(HalfTurn(m, t)) == -m.sin(t) && m.cos(HalfTurn(m, t)) == -m.cos(t))
  }

  /** The sine and cosine at 0 and at a quarter turn. */
  ghost predicate QuarterTurnValues(m: MathLib) {
    && m.sin(0.0) == 0.0 && m.cos(0.0) == 1.0
    && m.sin(m.pi / 2.0) == 1.0 && m.cos(m.pi / 2.0) == 0.0
  }

  /** sin² + cos² = 1. */
  ghost predicate Pythagoras(m: MathLib) {
    forall t :: m.sin(t) * m.sin(t) + m.cos(t) * m.cos(t) == 1.0
  }

  /** The arctangent of (y, x) lies in (-pi, pi]. */
  ghost predicate Atan2Range(m: MathLib) {
    forall y, x :: -m.pi < m.atan2(y, x) <= m.pi
  }

  /** The arctangent of (y, x) is the polar angle of the point (x, y): the
      radius times its sine and cosine give back y and x. */
  ghost predicate Atan2Polar(m: MathLib) {
    forall y, x {:trigger m.atan2(y, x)} ::
      && m.sqrt(y * y + x * x) * m.sin(m.atan2(y, x)) == y
      && m.sqrt(y * y + x * x) * m.cos(m.atan2(y, x)) == x
  }

  /** The arctangent depends only on the direction of the point: two points
      on the same ray from the origin have the same arctangent. */
  ghost predicate Atan2Direction(m: MathLib) {
    forall y, x, y', x' {:trigger m.atan2(y, x), m.atan2(y', x')} ::
      y * x' == x * y' && 0.0 < y * y' + x * x' ==> m.atan2(y', x') == m.atan2(y, x)
  }

  /** Reversing a non-zero point turns its arctangent by half a turn,
      staying in (-pi, pi]. */
  ghost predicate Atan2HalfTurn(m: MathLib) {
    forall y, x, y', x' {:trigger m.atan2(y, x), m.atan2(y', x')} ::
      y' == -y && x' == -x && (y != 0.0 || x != 0.0) ==>
        m.atan2(y', x') == if 0.0 < m.atan2(y, x) then m.atan2(y, x) - m.pi else m.atan2(y, x) + m.pi
  }

  /** The product of two positive numbers is positive. */
  lemma MulPos(a: real, b: real)
    requires 0.0 < a && 0.0 < b
    ensures 0.0 < a * b
  {}

  /** The product of two non-negative numbers is non-negative. */
  lemma MulNonNeg(a: real, b: real)
    requires 0.0 <= a && 0.0 <= b
    ensures 0.0 <= a * b
  {}

  /** If n squares to x, then |k|·n squares to k²·x. */
  lemma ScaledSquare(k: real, n: real, x: real)
    requires n * n == x
    ensures (Abs(k) * n) * (Abs(k) * n) == k * k * x
  {
    assert (Abs(k) * n) * (Abs(k) * n) == (Abs(k) * Abs(k)) * (n * n);
    AbsSquare(k);
  }

  /** An angle in (-pi, pi] is, in degrees, in (-180, 180], with the same sign. */
  lemma DegreeBounds(pi: real, beta: real, deg: real)
    requires 0.0 < pi && -pi < beta <= pi
    requires deg * pi == beta * 180.0
    ensures 0.0 <= beta ==> 0.0 <= deg <= 180.0
    ensures beta < 0.0 ==> -180.0 < deg < 0.0
  {
    if 180.0 < deg {
      MulPos(deg - 180.0, pi);
    }
    if deg <= -180.0 {
      MulNonNeg(-180.0 - deg, pi);
    }
    if 0.0 <= beta && deg < 0.0 {
      MulPos(-deg, pi);
    }
    if beta < 0.0 && 0.0 <= deg {
      MulNonNeg(deg, pi);
    }
  }

  /** Degrees to radians and back is the identity, and [0, 360) degrees is
      [0, 2·pi) radians. */
  lemma DegreesRoundTrip(pi: real, degrees: real)
    requires 0.0 < pi
    ensures (degrees * pi / 180.0) * 180.0 / pi == degrees
    ensures 0.0 <= degrees < 360.0 ==> 0.0 <= degrees * pi / 180.0 < 2.0 * pi
  {
    var p := degrees * pi;
    assert (p / 180.0) * 180.0 == p;
    DivUnique(p, pi, degrees);
    if 0.0 <= degrees < 360.0 {
      MulNonNeg(degrees, pi);
      MulPos(360.0 - degrees, pi);
    }
  }

  /** A quotient is determined by multiplying back. */
  lemma DivUnique(a: real, p: real, q: real)
    requires p != 0.0 && q * p == a
    ensures a / p == q
  {}

  /** A factor of a non-zero product is not zero. */
  lemma NonZeroFactor(a: real, d: real)
    requires a * d != 0.0
    ensures a != 0.0
  {}

  /** If a·d = s, then 1/a times s is d. */
  lemma ReciprocalTimes(a: real, d: real, s: real, t: real)
    requires a != 0.0 && a * d == s && t == 1.0 / a
    ensures t * s == d
  {
    assert t * s == (t * a) * d;
  }

  /** The identity, a proof device only: it keeps the solver from rewriting
      `x * x` into a form its sign reasoning cannot use. */
  function Id(x: real): real { x }

  /** The square of x. The second factor goes through `Id` so that sign
      reasoning sees a product of two terms rather than a bare square. */
  function Sq(x: real): real { x * Id(x) }

  lemma SquareIsSq(x: real)
    ensures Sq(x) == x * x
  {}

  /** A square is never negative, and positive for every number but zero. */
  lemma SqSign(x: real)
    ensures 0.0 <= Sq(x)
    ensures x != 0.0 ==> 0.0 < Sq(x)
  {
    if x < 0.0 {
      MulPos(-x, -Id(x));
      assert (-x) * (-Id(x)) == Sq(x);
    } else if 0.0 < x {
      MulPos(x, Id(x));
    }
  }

  function Abs(x: real): (r: real)
    ensures 0.0 <= r && (r == x || r == -x)
  {
    if x < 0.0 then -x else x
  }

  lemma AbsSquare(x: real)
    ensures Abs(x) * Abs(x) == x * x
  {}

  /** Between non-negative numbers, squares compare as the numbers do. */
  lemma SquareMonotone(a: real, b: real)
    requires 0.0 <= a && 0.0 <= b
    requires a * a <= b * b
    ensures a <= b
  {
    if b < a {
      assert (a - b) * (a + b) == a * a - b * b;
      MulPos(a - b, a + b);
    }
  }

  /** The square root of zero is zero, and of a positive number positive. */
  lemma SqrtZero(m: MathLib, x: real)
    requires SqrtLaw(m)
    requires 0.0 <= x
    ensures m.sqrt(x) == 0.0 <==> x == 0.0
  {
    assert SqrtAt(m, x);
    var s := m.sqrt(x);
    assert 0.0 <= s && s * s == x;
    if x == 0.0 {
      SqrtUnique(m, x, 0.0);
    }
  }

  /** A square root is determined by being non-negative and squaring to its argument. */
  lemma SqrtUnique(m: MathLib, x: real, r: real)
    requires SqrtLaw(m)
    requires 0.0 <= r && r * r == x
    ensures m.sqrt(x) == r
  {
    assert SqrtAt(m, x);
    var s := m.sqrt(x);
    assert 0.0 <= s && s * s == x;
    SquareMonotone(r, s);
    SquareMonotone(s, r);
  }

  /** The remainder of Python's `%` on floats for the modulus 360 used by
      the bearing code: it has the sign of the modulus, so it lies in [0, 360). */
  function Mod360(x: real): (r: real)
    ensures 0.0 <= r < 360.0
  {
    x - 360.0 * (x / 360.0).Floor as real
  }

  /** Mod360 is the unique r in [0, 360) that differs from x by a whole
      number of turns. */
  lemma Mod360Unique(x: real, k: int, r: real)
    requires 0.0 <= r < 360.0 && x == r + (k as real) * 360.0
    ensures Mod360(x) == r
  {
    var q := x / 360.0;
    var f := q.Floor;
    assert k as real <= q < k as real + 1.0;
    assert f as real <= q < f as real + 1.0;
    assert f == k;
  }

  /** Adding a whole number of turns leaves the remainder unchanged. */
  lemma Mod360Shift(x: real, k: int)
    ensures Mod360(x + (k as real) * 360.0) == Mod360(x)
  {
    var j := (x / 360.0).Floor;
    Mod360Unique(x + (k as real) * 360.0, j + k, Mod360(x));
  }

  /** A half turn added to the remainder, or a half turn taken off instead
      of added, lands on the same remainder as adding a half turn. */
  lemma Mod360HalfTurn(x: real)
    ensures Mod360(Mod360(x) + 180.0) == Mod360(x + 180.0)
    ensures Mod360(x - 180.0) == Mod360(x + 180.0)
  {
    var j := (x / 360.0).Floor;
    assert Mod360(x) + 180.0 == (x + 180.0) + (-j as real) * 360.0;
    Mod360Shift(x + 180.0, -j);
    assert x - 180.0 == (x + 180.0) + (-1 as real) * 360.0;
    Mod360Shift(x + 180.0, -1);
  }
}
