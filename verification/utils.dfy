/** The transform model of `src/utils.ts`: one running matrix that
    `translate` and `scale` post-multiply, the inverse mapping
    `transformedPoint`, `reset`, and the change notifications the module's
    emitter broadcasts. The module-level singleton becomes an explicit
    `Transform` value; the emitter becomes the log of notifications in
    broadcast order. */
module Utils {

  import opened Wrappers
  import opened Geometry

  /** The payloads broadcast on the `TRANSLATE`, `SCALE` and `RESET` keys. */
  datatype Notification = Translated(x: real, y: real) | Scaled(factor: real) | WasReset

  datatype Transform = Transform(matrix: Matrix, log: seq<Notification>)

  /** One contact point of a touch event: its stable `identifier` and its
      coordinates relative to the surface. */
  datatype TouchPoint = TouchPoint(identifier: int, x: real, y: real)

  /** The two numeric primitives the source takes from the platform and the
      model leaves uninterpreted: `base ** exponent` for real exponents and
      `Math.sqrt`. */
  datatype Numerics = Numerics(pow: (real, real) -> real, sqrt: real -> real)

  ghost predicate SqrtNonNegative(num: Numerics) {
    forall v :: 0.0 <= v ==> 0.0 <= num.sqrt(v)
  }

  function Notify(log: seq<Notification>, emitChanges: bool, n: Notification): seq<Notification> {
    if emitChanges then log + [n] else log
  }

  /** `translate(x, y, emitChanges)`: post-multiplies a translation, so the
      offset is measured in the transform's own (already scaled) space. */
  function Translate(t: Transform, x: real, y: real, emitChanges: bool): (r: Transform)
    ensures r.matrix.a == t.matrix.a && r.matrix.b == t.matrix.b
    ensures r.matrix.c == t.matrix.c && r.matrix.d == t.matrix.d
    ensures r.matrix.e == t.matrix.a * x + t.matrix.c * y + t.matrix.e
    ensures r.matrix.f == t.matrix.b * x + t.matrix.d * y + t.matrix.f
    ensures Det(r.matrix) == Det(t.matrix)
    ensures emitChanges ==> r.log == t.log + [Translated(x, y)]
    ensures !emitChanges ==> r.log == t.log
  {
    Transform(Multiply(t.matrix, Translation(x, y)), Notify(t.log, emitChanges, Translated(x, y)))
  }

  /** `scale(factor, emitChanges)`: post-multiplies a uniform scaling. */
  function Scale(t: Transform, factor: real, emitChanges: bool): (r: Transform)
    ensures r.matrix.a == t.matrix.a * factor && r.matrix.b == t.matrix.b * factor
    ensures r.matrix.c == t.matrix.c * factor && r.matrix.d == t.matrix.d * factor
    ensures r.matrix.e == t.matrix.e && r.matrix.f == t.matrix.f
    ensures Invertible(t.matrix) && factor != 0.0 <==> Invertible(r.matrix)
    ensures emitChanges ==> r.log == t.log + [Scaled(factor)]
    ensures !emitChanges ==> r.log == t.log
  {
    DetMultiply(t.matrix, Scaling(factor));
    Transform(Multiply(t.matrix, Scaling(factor)), Notify(t.log, emitChanges, Scaled(factor)))
  }

  /** `transformedPoint(x, y)`: the screen point taken through the inverse of
      the current matrix, i.e. the transform-space point drawn at `(x, y)`.
      `None` stands for the all-NaN point a singular matrix yields. */
  function TransformedPoint(t: Transform, x: real, y: real): (r: Option<Point>)
    ensures r.Some? <==> Invertible(t.matrix)
    ensures r.Some? ==> Apply(t.matrix, r.value) == Point(x, y)
    ensures r.Some? ==> forall q :: Apply(t.matrix, q) == Point(x, y) ==> q == r.value
  {
    match Inverse(t.matrix)
    case None => None
    case Some(n) =>
      var p := Apply(n, Point(x, y));
      forall q | Apply(t.matrix, q) == Point(x, y)
        ensures q == p
      {
        ApplyInverse(t.matrix, Point(x, y), q);
      }
      ApplyInverse(t.matrix, Point(x, y), p);
      Some(p)
  }

  /** `reset()`: back to the identity, always broadcasting `RESET`. */
  function Reset(t: Transform): (r: Transform)
    ensures Invertible(r.matrix) && r.matrix == Identity
    ensures r.log == t.log + [WasReset]
  {
    Transform(Identity, t.log + [WasReset])
  }

  /** After `reset()` the transform-space point of every screen point is
      the screen point itself. */
  lemma ResetMakesTransformedPointIdentity(t: Transform, x: real, y: real)
    ensures TransformedPoint(Reset(t), x, y) == Some(Point(x, y))
  {
  }

  /** `getDistance(touch1, touch2)`: the Euclidean distance, through the
      uninterpreted square root. */
  function GetDistance(num: Numerics, t1: TouchPoint, t2: TouchPoint): (r: real)
    ensures SqrtNonNegative(num) ==> 0.0 <= r
  {
    var dx := t1.x - t2.x;
    var dy := t1.y - t2.y;
    num.sqrt(dx * dx + dy * dy)
  }

  /** The distance does not depend on which touch comes first. */
  lemma GetDistanceSymmetric(num: Numerics, t1: TouchPoint, t2: TouchPoint)
    ensures GetDistance(num, t1, t2) == GetDistance(num, t2, t1)
  {
  }

  /** After `translate(x, y)` every screen point maps to its old
      transform-space point shifted back by `(x, y)`. */
  lemma TranslateShiftsTransformedPoint(t: Transform, x: real, y: real, emitChanges: bool, px: real, py: real)
    requires Invertible(t.matrix)
    ensures TransformedPoint(Translate(t, x, y, emitChanges), px, py).Some?
    ensures TransformedPoint(Translate(t, x, y, emitChanges), px, py).value
         == Point(TransformedPoint(t, px, py).value.x - x, TransformedPoint(t, px, py).value.y - y)
  {
    var r := Translate(t, x, y, emitChanges);
    var q := TransformedPoint(t, px, py).value;
    var q' := Point(q.x - x, q.y - y);
    ApplyMultiply(t.matrix, Translation(x, y), q');
    assert Apply(Translation(x, y), q') == q;
  }

  /** After `scale(s)` with `s != 0` every screen point maps to its old
      transform-space point divided by `s`. */
  lemma ScaleDividesTransformedPoint(t: Transform, s: real, emitChanges: bool, px: real, py: real)
    requires Invertible(t.matrix) && s != 0.0
    ensures TransformedPoint(Scale(t, s, emitChanges), px, py).Some?
    ensures TransformedPoint(Scale(t, s, emitChanges), px, py).value
         == Point(TransformedPoint(t, px, py).value.x / s, TransformedPoint(t, px, py).value.y / s)
  {
    var q := TransformedPoint(t, px, py).value;
    var q' := Point(q.x / s, q.y / s);
    ApplyMultiply(t.matrix, Scaling(s), q');
    assert Apply(Scaling(s), q') == q;
  }

  /** `translate(x, y)` followed by `translate(-x, -y)` restores the matrix. */
  lemma TranslateRoundTrip(t: Transform, x: real, y: real)
    ensures Translate(Translate(t, x, y, false), -x, -y, false) == t
  {
  }

  /** `scale(s)` followed by `scale(1 / s)` restores the matrix. */
  lemma ScaleRoundTrip(t: Transform, s: real)
    requires s != 0.0
    ensures Scale(Scale(t, s, false), 1.0 / s, false) == t
  {
  }
}
