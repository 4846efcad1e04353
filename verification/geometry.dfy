/** Two-dimensional affine matrices as the W3C Geometry Interfaces Module
    Level 1 defines them for `DOMMatrix`/`SVGMatrix`: six coefficients
    `a, b, c, d, e, f` standing for the 3x3 matrix

        | a c e |
        | b d f |
        | 0 0 1 |

    acting on column vectors. Exact reals replace IEEE doubles. */
module Geometry {

  import opened Wrappers

  datatype Point = Point(x: real, y: real)

  datatype Matrix = Matrix(a: real, b: real, c: real, d: real, e: real, f: real)

  /** The matrix a fresh `createSVGMatrix()` returns. */
  const Identity: Matrix := Matrix(1.0, 0.0, 0.0, 1.0, 0.0, 0.0)

  /** Matrix product `m . n`: applying the result is applying `n` first and
      then `m` (see `ApplyMultiply`). */
  function Multiply(m: Matrix, n: Matrix): Matrix {
    Matrix(
      m.a * n.a + m.c * n.b,
      m.b * n.a + m.d * n.b,
      m.a * n.c + m.c * n.d,
      m.b * n.c + m.d * n.d,
      m.a * n.e + m.c * n.f + m.e,
      m.b * n.e + m.d * n.f + m.f)
  }

  function Translation(x: real, y: real): Matrix {
    Matrix(1.0, 0.0, 0.0, 1.0, x, y)
  }

  /** Uniform scaling about the origin, as `scale(factor)` with the other
      arguments left at their defaults. */
  function Scaling(s: real): Matrix {
    Matrix(s, 0.0, 0.0, s, 0.0, 0.0)
  }

  /** `transformPoint` of a point with `z = 0, w = 1` by a 2D matrix. */
  function Apply(m: Matrix, p: Point): Point {
    Point(m.a * p.x + m.c * p.y + m.e, m.b * p.x + m.d * p.y + m.f)
  }

  function Det(m: Matrix): real {
    m.a * m.d - m.b * m.c
  }

  predicate Invertible(m: Matrix) {
    Det(m) != 0.0
  }

  /** `inverse()`. When the matrix cannot be inverted the standard fills every
      coefficient with NaN; exact reals have no NaN, so that case is `None`. */
  function Inverse(m: Matrix): (r: Option<Matrix>)
    ensures r.None? <==> !Invertible(m)
    ensures r.Some? ==> Multiply(m, r.value) == Identity && Multiply(r.value, m) == Identity
  {
    if Det(m) == 0.0 then None
    else
      var k := 1.0 / Det(m);
      assert Det(m) * k == 1.0;
      var n := Matrix(m.d * k, -m.b * k, -m.c * k, m.a * k,
                      (m.c * m.f - m.d * m.e) * k, (m.b * m.e - m.a * m.f) * k);
      InverseIsTwoSided(m, n, k);
      Some(n)
  }

  lemma InverseIsTwoSided(m: Matrix, n: Matrix, k: real)
    requires Det(m) * k == 1.0
    requires n == Matrix(m.d * k, -m.b * k, -m.c * k, m.a * k,
                         (m.c * m.f - m.d * m.e) * k, (m.b * m.e - m.a * m.f) * k)
    ensures Multiply(m, n) == Identity && Multiply(n, m) == Identity
  {
    InverseIsRightInverse(m, n, k);
    InverseIsLeftInverse(m, n, k);
  }

  lemma InverseIsRightInverse(m: Matrix, n: Matrix, k: real)
    requires Det(m) * k == 1.0
    requires n == Matrix(m.d * k, -m.b * k, -m.c * k, m.a * k,
                         (m.c * m.f - m.d * m.e) * k, (m.b * m.e - m.a * m.f) * k)
    ensures Multiply(m, n) == Identity
  {
    assert m.a * n.e + m.c * n.f == -m.e * (Det(m) * k);
    assert m.b * n.e + m.d * n.f == -m.f * (Det(m) * k);
  }

  lemma InverseIsLeftInverse(m: Matrix, n: Matrix, k: real)
    requires Det(m) * k == 1.0
    requires n == Matrix(m.d * k, -m.b * k, -m.c * k, m.a * k,
                         (m.c * m.f - m.d * m.e) * k, (m.b * m.e - m.a * m.f) * k)
    ensures Multiply(n, m) == Identity
  {
  }

  /** Applying a product applies its factors right to left. */
  lemma ApplyMultiply(m: Matrix, n: Matrix, p: Point)
    ensures Apply(Multiply(m, n), p) == Apply(m, Apply(n, p))
  {
    var q := Apply(n, p);
    assert Apply(Multiply(m, n), p).x == m.a * q.x + m.c * q.y + m.e;
    assert Apply(Multiply(m, n), p).y == m.b * q.x + m.d * q.y + m.f;
  }

  lemma ApplyIdentity(p: Point)
    ensures Apply(Identity, p) == p
  {
  }

  /** The determinant is multiplicative, so products of invertible matrices
      stay invertible. */
  lemma DetMultiply(m: Matrix, n: Matrix)
    ensures Det(Multiply(m, n)) == Det(m) * Det(n)
  {
  }

  /** Multiplying the linear part by `s` multiplies the determinant by `s * s`. */
  lemma DetScaledLinear(m: Matrix, n: Matrix, s: real)
    requires n.a == s * m.a && n.b == s * m.b && n.c == s * m.c && n.d == s * m.d
    ensures Det(n) == s * s * Det(m)
  {
  }

  /** An invertible matrix is one-to-one on points: only the point its
      inverse yields is sent to `p`. */
  lemma ApplyInverse(m: Matrix, p: Point, q: Point)
    requires Invertible(m)
    ensures Apply(m, q) == p <==> q == Apply(Inverse(m).value, p)
  {
    var n := Inverse(m).value;
    ApplyMultiply(n, m, q);
    ApplyMultiply(m, n, p);
    ApplyIdentity(q);
    ApplyIdentity(p);
  }
}
