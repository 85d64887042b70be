/** Planar vectors over the reals: the two-element position and velocity
    arrays of the vessel code, with the vector algebra it uses. */
module Vectors {
  import opened Numerics

  datatype Vec2 = Vec2(x: real, y: real)

  const Zero := Vec2(0.0, 0.0)

  function Add(a: Vec2, b: Vec2): Vec2 {
    Vec2(a.x + b.x, a.y + b.y)
  }

  function Sub(a: Vec2, b: Vec2): Vec2 {
    Vec2(a.x - b.x, a.y - b.y)
  }

  lemma SubZero(a: Vec2, b: Vec2)
    ensures Sub(a, b) == Zero <==> a == b
  {}

  function Neg(a: Vec2): Vec2 {
    Vec2(-a.x, -a.y)
  }

  function Scale(k: real, a: Vec2): Vec2 {
    Vec2(k * a.x, k * a.y)
  }

  function Dot(a: Vec2, b: Vec2): real {
    a.x * b.x + a.y * b.y
  }

  /** The squared length, `v[0]**2 + v[1]**2`. */
  function NormSq(a: Vec2): real {
    Dot(a, a)
  }

  /** The squared length is never negative, and positive for every vector but zero. */
  lemma NormSqSign(a: Vec2)
    ensures 0.0 <= NormSq(a)
    ensures a != Zero ==> 0.0 < NormSq(a)
  {
    SquareIsSq(a.x);
    SquareIsSq(a.y);
    assert NormSq(a) == Sq(a.x) + Sq(a.y);
    SqSign(a.x);
    SqSign(a.y);
    if a != Zero {
      assert a.x != 0.0 || a.y != 0.0;
    }
  }

  /** The squared length is zero exactly for the zero vector. */
  lemma NormSqZero(a: Vec2)
    ensures NormSq(a) == 0.0 <==> a == Zero
  {
    NormSqSign(a);
  }

  /** The Euclidean length, as the library's vector norm computes it. */
  function Norm(m: MathLib, a: Vec2): (r: real)
    requires SqrtLaw(m)
    ensures 0.0 <= r
    ensures r == 0.0 <==> a == Zero
  {
    NormSqSign(a);
    SqrtZero(m, NormSq(a));
    assert SqrtAt(m, NormSq(a));
    m.sqrt(Dot(a, a))
  }

  /** The length squares back to the squared length. */
  lemma NormSquared(m: MathLib, a: Vec2)
    requires SqrtLaw(m)
    ensures Norm(m, a) * Norm(m, a) == NormSq(a)
  {
    NormSqSign(a);
    assert SqrtAt(m, NormSq(a));
  }

  /** Lengths compare as squared lengths do. */
  lemma NormMonotone(m: MathLib, a: Vec2, b: Vec2)
    requires SqrtLaw(m)
    requires NormSq(a) <= NormSq(b)
    ensures Norm(m, a) <= Norm(m, b)
  {
    NormSquared(m, a);
    NormSquared(m, b);
    SquareMonotone(Norm(m, a), Norm(m, b));
  }

  /** The length in coordinates, as the square root of the sum of squares. */
  lemma NormComponents(m: MathLib, a: Vec2)
    requires SqrtLaw(m)
    ensures Norm(m, a) == m.sqrt(a.x * a.x + a.y * a.y)
  {
    assert Norm(m, a) == m.sqrt(Dot(a, a));
    assert Dot(a, a) == a.x * a.x + a.y * a.y;
  }

  /** Expanding the squared length of d + t·v as a quadratic in t. */
  lemma NormSqAlongLine(d: Vec2, v: Vec2, t: real)
    ensures NormSq(Add(d, Scale(t, v))) == NormSq(d) + 2.0 * t * Dot(d, v) + t * t * NormSq(v)
  {}

  /** Scaling a vector scales its squared length by the square of the factor. */
  lemma NormSqScale(k: real, a: Vec2)
    ensures NormSq(Scale(k, a)) == k * k * NormSq(a)
  {}

  /** A non-zero multiple of a non-zero vector is not zero. */
  lemma ScaleNonZero(k: real, a: Vec2)
    requires k != 0.0 && a != Zero
    ensures Scale(k, a) != Zero
  {
    if a.x != 0.0 {
      assert k * a.x != 0.0 by {
        if k * a.x == 0.0 {
          assert a.x == (1.0 / k) * (k * a.x);
        }
      }
    } else {
      assert k * a.y != 0.0 by {
        if k * a.y == 0.0 {
          assert a.y == (1.0 / k) * (k * a.y);
        }
      }
    }
  }

  /** Going back along -k·a for 1/k time units cancels a. */
  lemma ScaleBack(a: Vec2, k: real, t: real)
    requires t * k == 1.0
    ensures Add(a, Scale(t, Scale(-k, a))) == Zero
  {
    assert t * (-k * a.x) == -(t * k) * a.x;
    assert t * (-k * a.y) == -(t * k) * a.y;
  }

  /** Scaling a vector scales its length by the absolute value of the factor. */
  lemma NormScale(m: MathLib, k: real, a: Vec2)
    requires SqrtLaw(m)
    ensures Norm(m, Scale(k, a)) == Abs(k) * Norm(m, a)
  {
    var n := Norm(m, a);
    var r := Abs(k) * n;
    NormSquared(m, a);
    ScaledSquare(k, n, NormSq(a));
    NormSqScale(k, a);
    assert 0.0 <= r by {
      MulNonNeg(Abs(k), n);
    }
    SqrtUnique(m, NormSq(Scale(k, a)), r);
  }
}
