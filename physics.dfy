/** The exact-arithmetic part of the 2D physics value types `Vector2D` and
    `Point2D`.  Kotlin `Double` is idealised as `real`; the operations that need
    `sqrt`, `atan` or a division by a magnitude are not part of this model. */
module Physics {

  datatype Option<T> = None | Some(value: T)

  function Abs(x: real): real { if x < 0.0 then -x else x }

  /** A displacement `(dx, dy)`; every operator builds a new value. */
  datatype Vector2D = Vector2D(dx: real, dy: real) {

    /** `v * scalar` */
    function Times(scalar: real): Vector2D {
      Vector2D(dx * scalar, dy * scalar)
    }

    /** `v / scalar`.  Kotlin divides doubles without failing: a zero scalar gives
        infinite or NaN components, which have no real counterpart, so that case
        is `None` here. */
    function Div(scalar: real): Option<Vector2D> {
      if scalar == 0.0 then None else Some(Vector2D(dx / scalar, dy / scalar))
    }

    /** The dot product `v * w`. */
    function Dot(v: Vector2D): real {
      dx * v.dx + dy * v.dy
    }

    function Plus(v: Vector2D): Vector2D {
      Vector2D(dx + v.dx, dy + v.dy)
    }

    /** `v + p`: a vector added to a point gives a point. */
    function PlusPoint(p: Point2D): Point2D {
      Point2D(dx + p.x, dy + p.y)
    }

    function Neg(): Vector2D {
      Vector2D(-dx, -dy)
    }

    function Minus(v: Vector2D): Vector2D {
      Vector2D(dx - v.dx, dy - v.dy)
    }
  }

  const Zero := Vector2D(0.0, 0.0)
  const Origin := Point2D(0.0, 0.0)

  /** The top-level `Double.times(v)`: a scalar on the left. */
  function ScalarTimes(scalar: real, v: Vector2D): Vector2D {
    Vector2D(v.dx * scalar, v.dy * scalar)
  }

  /** A position `(x, y)`. */
  datatype Point2D = Point2D(x: real, y: real) {

    /** `p + q`, a coordinatewise sum of two points. */
    function Plus(p: Point2D): Point2D {
      Point2D(x + p.x, y + p.y)
    }

    /** `p + v`: the point translated by `v`. */
    function PlusVector(v: Vector2D): Point2D {
      Point2D(x + v.dx, y + v.dy)
    }

    function ToVector(): Vector2D {
      Vector2D(x, y)
    }

    /** The vector that leads from this point to `p`. */
    function ImpactVector(p: Point2D): Vector2D {
      Vector2D(p.x - x, p.y - y)
    }

    /** `distance(p)` before its square root: `|x - p.x|^2 + |p.y - y|^2`. */
    function DistanceSquared(p: Point2D): real {
      Abs(x - p.x) * Abs(x - p.x) + Abs(p.y - y) * Abs(p.y - y)
    }
  }

  // ---------------------------------------------------------------------------
  // Vector2D

  lemma PlusCommutative(v: Vector2D, w: Vector2D)
    ensures v.Plus(w) == w.Plus(v)
    ensures v.Plus(w).dx == v.dx + w.dx && v.Plus(w).dy == v.dy + w.dy
  {
  }

  lemma PlusAssociative(u: Vector2D, v: Vector2D, w: Vector2D)
    ensures u.Plus(v).Plus(w) == u.Plus(v.Plus(w))
  {
  }

  lemma ZeroIsPlusIdentity(v: Vector2D)
    ensures v.Plus(Zero) == v && Zero.Plus(v) == v
  {
  }

  lemma NegInvolution(v: Vector2D)
    ensures v.Neg().Neg() == v
    ensures v.Plus(v.Neg()) == Zero
  {
  }

  lemma MinusIsPlusNeg(v: Vector2D, w: Vector2D)
    ensures v.Minus(w) == v.Plus(w.Neg())
    ensures v.Minus(w) == w.Minus(v).Neg()
  {
  }

  lemma DotSymmetric(v: Vector2D, w: Vector2D)
    ensures v.Dot(w) == w.Dot(v)
  {
  }

  lemma DotSelfNonNegative(v: Vector2D)
    ensures v.Dot(v) >= 0.0
  {
    SquareSign(v.dx);
    SquareSign(v.dy);
    assert v.Dot(v) == v.dx * v.dx + v.dy * v.dy;
  }

  lemma ScalarTimesCommutes(v: Vector2D, s: real)
    ensures v.Times(s) == ScalarTimes(s, v)
  {
  }

  /** Over the reals, dividing by a nonzero scalar undoes multiplying by it;
      dividing by zero has no finite result. */
  lemma DivUndoesTimes(v: Vector2D, s: real)
    ensures s != 0.0 ==> v.Times(s).Div(s) == Some(v)
    ensures v.Div(0.0) == None
  {
    if s != 0.0 {
      var w := v.Times(s);
      assert w.dx / s == v.dx && w.dy / s == v.dy;
      assert w.Div(s) == Some(Vector2D(w.dx / s, w.dy / s));
    }
  }

  lemma DotBilinear(v: Vector2D, w: Vector2D, u: Vector2D, s: real)
    ensures v.Plus(w).Dot(u) == v.Dot(u) + w.Dot(u)
    ensures v.Times(s).Dot(u) == s * v.Dot(u)
  {
    assert (v.dx + w.dx) * u.dx == v.dx * u.dx + w.dx * u.dx;
    assert (v.dy + w.dy) * u.dy == v.dy * u.dy + w.dy * u.dy;
    assert v.dx * s * u.dx == s * (v.dx * u.dx);
    assert v.dy * s * u.dy == s * (v.dy * u.dy);
  }

  lemma VectorPointPlusCommutes(v: Vector2D, p: Point2D)
    ensures v.PlusPoint(p) == p.PlusVector(v)
  {
  }

  // ---------------------------------------------------------------------------
  // Point2D

  lemma PointPlusCommutative(p: Point2D, q: Point2D)
    ensures p.Plus(q) == q.Plus(p)
    ensures p.Plus(q).x == p.x + q.x && p.Plus(q).y == p.y + q.y
  {
  }

  /** `toVector` keeps both coordinates, so it is undone by adding the vector to
      the origin, and it is the impact vector seen from the origin. */
  lemma ToVectorRoundTrip(p: Point2D)
    ensures p.ToVector().dx == p.x && p.ToVector().dy == p.y
    ensures p.ToVector().PlusPoint(Origin) == p
    ensures Origin.ImpactVector(p) == p.ToVector()
  {
  }

  lemma ImpactVectorAntisymmetric(p: Point2D, q: Point2D)
    ensures p.ImpactVector(q) == q.ImpactVector(p).Neg()
  {
  }

  lemma ImpactVectorSelfIsZero(p: Point2D)
    ensures p.ImpactVector(p) == Zero
  {
  }

  /** Translating a point by `v` and measuring the impact vector back gives `v`. */
  lemma ImpactVectorOfTranslation(p: Point2D, v: Vector2D)
    ensures p.ImpactVector(p.PlusVector(v)) == v
    ensures p.PlusVector(p.ImpactVector(v.PlusPoint(p))) == v.PlusPoint(p)
  {
  }

  /** The squared distance is the impact vector's dot product with itself. */
  lemma DistanceSquaredIsImpactDot(p: Point2D, q: Point2D)
    ensures p.DistanceSquared(q) == p.ImpactVector(q).Dot(p.ImpactVector(q))
  {
    SquareOfDifference(p.x, q.x);
    AbsSquared(q.y - p.y);
  }

  /** Hence it is symmetric, ... */
  lemma DistanceSquaredSymmetric(p: Point2D, q: Point2D)
    ensures p.DistanceSquared(q) == q.DistanceSquared(p)
  {
    DistanceSquaredIsImpactDot(p, q);
    DistanceSquaredIsImpactDot(q, p);
    ImpactVectorAntisymmetric(q, p);
    NegDot(p.ImpactVector(q));
  }

  /** ... never negative, ... */
  lemma DistanceSquaredNonNegative(p: Point2D, q: Point2D)
    ensures p.DistanceSquared(q) >= 0.0
  {
    AbsSquared(p.x - q.x);
    AbsSquared(q.y - p.y);
    SquareSign(p.x - q.x);
    SquareSign(q.y - p.y);
  }

  /** ... and zero from a point to itself. */
  lemma DistanceSquaredToSelf(p: Point2D)
    ensures p.DistanceSquared(p) == 0.0
  {
    assert Abs(p.x - p.x) == 0.0 && Abs(p.y - p.y) == 0.0;
  }

  lemma NegDot(v: Vector2D)
    ensures v.Neg().Dot(v.Neg()) == v.Dot(v)
  {
    assert (-v.dx) * (-v.dx) == v.dx * v.dx;
    assert (-v.dy) * (-v.dy) == v.dy * v.dy;
  }

  /** `|a - b|^2` is the square of `b - a`. */
  lemma SquareOfDifference(a: real, b: real)
    ensures Abs(a - b) * Abs(a - b) == (b - a) * (b - a)
  {
    AbsSquared(a - b);
    assert (a - b) * (a - b) == (b - a) * (b - a);
  }

  lemma AbsSquared(a: real)
    ensures Abs(a) * Abs(a) == a * a
  {
  }

  lemma SquareSign(a: real)
    ensures a * a >= 0.0
    ensures a != 0.0 ==> a * a > 0.0
  {
    if a < 0.0 {
      assert a * a == (-a) * (-a);
    }
  }
}
