/** The floating-point library the mesh and outline code calls, with floats
    read as reals. The transcendental functions and glm's pi constant are
    uninterpreted: they are fields of a record that every generator takes. */
module Numerics {

  /** cos, sin, pow and sqrt from <cmath>, and glm::pi<float>(). Angles are
      in radians, as in the program. */
  datatype Transcendental = Transcendental(
    pi: real,
    cos: real -> real,
    sin: real -> real,
    pow: (real, real) -> real,
    sqrt: real -> real)

  /** A point in the plane; the program's outline points are vec3 with z = 0. */
  datatype Point2 = Point2(x: real, y: real)

  function Abs(x: real): (r: real)
    ensures r >= 0.0 && (r == x || r == -x)
  {
    if x < 0.0 then -x else x
  }

  /** Signed power: copysign(pow(fabs(base), exp), base). The magnitude of
      pow's result carries the sign of the base. */
  function Spow(m: Transcendental, base: real, exp: real): (r: real)
    ensures Abs(r) == Abs(m.pow(Abs(base), exp))
    ensures base < 0.0 ==> r <= 0.0
    ensures base >= 0.0 ==> r >= 0.0
  {
    var magnitude := Abs(m.pow(Abs(base), exp));
    if base < 0.0 then -magnitude else magnitude
  }

  /** spow is odd in its base away from zero, which keeps the superellipsoid
      symmetric for every exponent. */
  lemma SpowOdd(m: Transcendental, base: real, exp: real)
    requires base != 0.0
    ensures Spow(m, -base, exp) == -Spow(m, base, exp)
    ensures (base < 0.0 ==> Spow(m, base, exp) <= 0.0) && (base > 0.0 ==> Spow(m, base, exp) >= 0.0)
  {
    assert Abs(-base) == Abs(base);
  }

  /** With exponent 1 spow is the identity, provided pow is on non-negative bases. */
  lemma SpowIdentity(m: Transcendental, base: real)
    requires forall y :: y >= 0.0 ==> m.pow(y, 1.0) == y
    ensures Spow(m, base, 1.0) == base
  {
    assert m.pow(Abs(base), 1.0) == Abs(base);
  }

  /** The classic parametric heart curve
      (16 sin^3 t, 13 cos t - 5 cos 2t - 2 cos 3t - cos 4t), shared by the
      heart surface and the outline. */
  function HeartCurve(m: Transcendental, t: real): Point2
  {
    Point2(16.0 * m.pow(m.sin(t), 3.0),
           13.0 * m.cos(t) - 5.0 * m.cos(2.0 * t) - 2.0 * m.cos(3.0 * t) - m.cos(4.0 * t))
  }

  /** The heart curve is symmetric about the vertical axis: t and -t give
      mirror-image points, given that sin is odd, cos is even and pow(_, 3)
      is odd. */
  lemma HeartCurveMirror(m: Transcendental, t: real)
    requires forall a :: m.sin(-a) == -m.sin(a)
    requires forall a :: m.cos(-a) == m.cos(a)
    requires forall y :: m.pow(-y, 3.0) == -m.pow(y, 3.0)
    ensures HeartCurve(m, -t) == Point2(-HeartCurve(m, t).x, HeartCurve(m, t).y)
  {
    assert m.sin(-t) == -m.sin(t);
    assert m.pow(-m.sin(t), 3.0) == -m.pow(m.sin(t), 3.0);
    assert m.cos(-t) == m.cos(t);
    assert m.cos(2.0 * -t) == m.cos(2.0 * t) by { assert 2.0 * -t == -(2.0 * t); }
    assert m.cos(3.0 * -t) == m.cos(3.0 * t) by { assert 3.0 * -t == -(3.0 * t); }
    assert m.cos(4.0 * -t) == m.cos(4.0 * t) by { assert 4.0 * -t == -(4.0 * t); }
  }

  /** The heart curve fits in the box [-16, 16] x [-21, 21], given that sin^3 t
      and the four cosines it uses lie in [-1, 1]. */
  lemma HeartCurveBounds(m: Transcendental, t: real)
    requires -1.0 <= m.pow(m.sin(t), 3.0) <= 1.0
    requires -1.0 <= m.cos(t) <= 1.0 && -1.0 <= m.cos(2.0 * t) <= 1.0
    requires -1.0 <= m.cos(3.0 * t) <= 1.0 && -1.0 <= m.cos(4.0 * t) <= 1.0
    ensures -16.0 <= HeartCurve(m, t).x <= 16.0
    ensures -21.0 <= HeartCurve(m, t).y <= 21.0
  {
  }
}
