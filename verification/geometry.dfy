/** Two-dimensional real vectors, standing in for glam's `Vec2` (nannou's
    `Point2`) with `f32` components taken as reals. The square root that
    `length`, `distance` and `normalize` use is not defined here: every
    operation that needs it takes it as a parameter, and the lemmas assume only
    that it is the non-negative square root (`IsSqrt`). */
module Geometry {

  datatype Vec2 = Vec2(x: real, y: real)

  /** `Vec2::ZERO`, also `Vec2::default()`. */
  const Zero: Vec2 := Vec2(0.0, 0.0)

  function Add(a: Vec2, b: Vec2): Vec2 { Vec2(a.x + b.x, a.y + b.y) }

  function Sub(a: Vec2, b: Vec2): Vec2 { Vec2(a.x - b.x, a.y - b.y) }

  function Neg(v: Vec2): Vec2 { Vec2(-v.x, -v.y) }

  function Scale(v: Vec2, k: real): Vec2 { Vec2(v.x * k, v.y * k) }

  /** `v / k` for a scalar `k`, component by component. */
  function Div(v: Vec2, k: real): Vec2
    requires k != 0.0
  {
    Vec2(v.x / k, v.y / k)
  }

  function LengthSquared(v: Vec2): real { v.x * v.x + v.y * v.y }

  /** glam's `a.distance_squared(b)`, that is `(a - b).length_squared()`. */
  function DistanceSquared(a: Vec2, b: Vec2): real { LengthSquared(Sub(a, b)) }

  /** `sqrt` applied to `r`, named so that the facts `IsSqrt` states are
      used only where a proof asks for them. */
  function Root(sqrt: real -> real, r: real): real { sqrt(r) }

  /** The non-negative square root of every non-negative real. */
  ghost predicate IsSqrt(sqrt: real -> real) {
    forall r :: RootOf(Root(sqrt, r), r)
  }

  /** `a` is the non-negative square root of `r`, when `r` has one. */
  predicate RootOf(a: real, r: real) {
    0.0 <= r ==> 0.0 <= a && a * a == r
  }

  function Length(v: Vec2, sqrt: real -> real): real { sqrt(LengthSquared(v)) }

  /** glam's `a.distance(b)`, that is `(a - b).length()`. */
  function Distance(a: Vec2, b: Vec2, sqrt: real -> real): real { Length(Sub(a, b), sqrt) }

  /** glam's `normalize`: `v * (1 / |v|)`. Every caller guards it with a
      positive length (on the zero vector glam yields NaN components). */
  function Normalize(v: Vec2, sqrt: real -> real): Vec2
    requires Length(v, sqrt) != 0.0
  {
    Scale(v, 1.0 / Length(v, sqrt))
  }

  /** nannou's axis-aligned `Rect`, by its four edges. */
  datatype Rect = Rect(left: real, right: real, bottom: real, top: real)

  /** `Rect::from_w_h`: a rectangle of the given size centred on the origin. */
  function RectFromWH(w: real, h: real): Rect {
    Rect(-w / 2.0, w / 2.0, -h / 2.0, h / 2.0)
  }

  datatype Option<T> = None | Some(value: T) {
    /** `Option::unwrap_or` (`unwrap_or_default` passes the type's default). */
    function UnwrapOr(default: T): T {
      match this
      case Some(v) => v
      case None => default
    }
  }

  /** glam's `try_normalize`: `None` exactly when the vector has no direction
      (its length is zero), otherwise the normalised vector. */
  function TryNormalize(v: Vec2, sqrt: real -> real): (r: Option<Vec2>)
    requires IsSqrt(sqrt)
    ensures r.None? <==> LengthSquared(v) == 0.0
    ensures r.Some? ==> LengthSquared(r.value) == 1.0
  {
    LengthFacts(v, sqrt);
    if Length(v, sqrt) != 0.0 then
      NormalizeIsUnit(v, sqrt);
      Some(Normalize(v, sqrt))
    else
      None
  }

  // ---- arithmetic facts -------------------------------------------------

  lemma SquareSign(a: real)
    ensures 0.0 <= a * a
    ensures a != 0.0 ==> 0.0 < a * a
  {
    if a < 0.0 {
      assert (-a) * (-a) > 0.0;
    } else if a > 0.0 {
      assert a * a > 0.0;
    }
  }

  lemma SumOfSquaresNonNegative(a: real, b: real)
    ensures 0.0 <= a * a + b * b
  {
    SquareSign(a);
    SquareSign(b);
  }

  lemma LengthSquaredAt(v: Vec2, s: real)
    requires s == v.x * v.x + v.y * v.y
    ensures LengthSquared(v) == s
  {
  }

  lemma LengthSquaredNonNegative(v: Vec2)
    ensures 0.0 <= LengthSquared(v)
  {
    SumOfSquaresNonNegative(v.x, v.y);
    LengthSquaredAt(v, v.x * v.x + v.y * v.y);
  }

  /** The length is the non-negative root of the squared length; it is zero
      exactly when the squared length is. */
  lemma LengthFacts(v: Vec2, sqrt: real -> real)
    requires IsSqrt(sqrt)
    ensures 0.0 <= Length(v, sqrt)
    ensures Length(v, sqrt) * Length(v, sqrt) == LengthSquared(v)
    ensures Length(v, sqrt) == 0.0 <==> LengthSquared(v) == 0.0
  {
    LengthSquaredNonNegative(v);
    assert Length(v, sqrt) == Root(sqrt, LengthSquared(v));
    if LengthSquared(v) == 0.0 {
      RootOfZero(Length(v, sqrt));
    }
  }

  lemma RootOfZero(l: real)
    requires 0.0 <= l && l * l == 0.0
    ensures l == 0.0
  {
    if l > 0.0 {
      LessSquares(0.0, l);
    }
  }

  /** The square root of a square of a non-negative number is that number. */
  lemma SqrtOfSquare(sqrt: real -> real, a: real)
    requires IsSqrt(sqrt) && 0.0 <= a
    ensures sqrt(a * a) == a
  {
    SquareSign(a);
    assert sqrt(a * a) == Root(sqrt, a * a);
    RootUnique(sqrt(a * a), a);
  }

  lemma RootUnique(s: real, a: real)
    requires 0.0 <= s && 0.0 <= a && s * s == a * a
    ensures s == a
  {
    if s < a {
      LessSquares(s, a);
    } else if a < s {
      LessSquares(a, s);
    }
  }

  /** Squaring is strictly increasing on the non-negative reals. */
  lemma LessSquares(a: real, b: real)
    requires 0.0 <= a < b
    ensures a * a < b * b
  {
    var d := b - a;
    assert b * b == a * a + 2.0 * a * d + d * d;
    assert d * d > 0.0;
    assert a * d >= 0.0;
  }

  lemma LengthSquaredScale(v: Vec2, k: real)
    ensures LengthSquared(Scale(v, k)) == (k * k) * LengthSquared(v)
  {
  }

  lemma InverseSquare(n: real, s: real)
    requires n > 0.0 && n * n == s
    ensures (1.0 / n) * (1.0 / n) * s == 1.0
  {
    var q := 1.0 / n;
    assert q * n == 1.0;
    assert q * q * s == q * q * (n * n);
    assert q * q * (n * n) == (q * n) * (q * n);
  }

  /** A normalised vector has length one. */
  lemma NormalizeIsUnit(v: Vec2, sqrt: real -> real)
    requires IsSqrt(sqrt) && Length(v, sqrt) != 0.0
    ensures LengthSquared(Normalize(v, sqrt)) == 1.0
  {
    LengthFacts(v, sqrt);
    var n := Length(v, sqrt);
    LengthSquaredScale(v, 1.0 / n);
    InverseSquare(n, LengthSquared(v));
  }

  /** The distance between two points does not depend on their order. */
  lemma DistanceSquaredSymmetric(a: Vec2, b: Vec2)
    ensures DistanceSquared(a, b) == DistanceSquared(b, a)
  {
    assert Sub(b, a) == Scale(Sub(a, b), -1.0);
    LengthSquaredScale(Sub(a, b), -1.0);
  }

  lemma LengthOfNeg(v: Vec2, sqrt: real -> real)
    ensures LengthSquared(Neg(v)) == LengthSquared(v)
    ensures Length(Neg(v), sqrt) == Length(v, sqrt)
  {
    assert Neg(v) == Scale(v, -1.0);
    LengthSquaredScale(v, -1.0);
  }

  lemma DistanceSymmetric(a: Vec2, b: Vec2, sqrt: real -> real)
    ensures Distance(b, a, sqrt) == Distance(a, b, sqrt)
  {
    assert Sub(b, a) == Neg(Sub(a, b));
    LengthOfNeg(Sub(a, b), sqrt);
  }

  /** Reversing a vector reverses its direction. */
  lemma NormalizeNeg(v: Vec2, sqrt: real -> real)
    requires Length(v, sqrt) != 0.0
    ensures Length(Neg(v), sqrt) != 0.0
    ensures Normalize(Neg(v), sqrt) == Neg(Normalize(v, sqrt))
  {
    LengthOfNeg(v, sqrt);
  }
}
