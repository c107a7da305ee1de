/** Points and displacements in 3-space (the source's `MyPoint`).

The source stores single-precision floats; here coordinates are exact reals,
so every statement below holds under real arithmetic and says nothing about
float rounding. A `Point` is a value: `Add` and `Mult` build a new point and
cannot change their operands.
 */
module Points {

  datatype Point = Point(x: real, y: real, z: real)
  {
    /** Component-wise sum. */
    function Add(other: Point): Point
    {
      Point(x + other.x, y + other.y, z + other.z)
    }

    /** Every component scaled by `f`. */
    function Mult(f: real): Point
    {
      Point(x * f, y * f, z * f)
    }
  }

  /** `add` and `mult` act coordinate by coordinate, so points form a
      vector space: the sum commutes, scaling by 1 changes nothing, and
      scaling distributes over sums of points and of factors. */
  lemma AddMultLaws(p: Point, q: Point, f: real, g: real)
    ensures p.Add(q) == q.Add(p)
    ensures p.Mult(1.0) == p
    ensures p.Add(q).Mult(f) == p.Mult(f).Add(q.Mult(f))
    ensures p.Mult(f).Add(p.Mult(g)) == p.Mult(f + g)
  {
  }

  /** The blend `p.mult(1-t).add(q.mult(t))` that every interpolation in the
      tessellators is written as: `p` at `t = 0`, `q` at `t = 1`. */
  function Lerp(p: Point, q: Point, t: real): Point
  {
    p.Mult(1.0 - t).Add(q.Mult(t))
  }

  /** The blend starts at its first point and ends at its second. */
  lemma LerpEndpoints(p: Point, q: Point)
    ensures Lerp(p, q, 0.0) == p
    ensures Lerp(p, q, 1.0) == q
  {
  }

  function Min(u: real, v: real): real { if u <= v then u else v }
  function Max(u: real, v: real): real { if u <= v then v else u }

  /** `p` lies in the axis-aligned box spanned by `lo` and `hi`. */
  predicate Within(p: Point, lo: Point, hi: Point)
  {
    && lo.x <= p.x <= hi.x
    && lo.y <= p.y <= hi.y
    && lo.z <= p.z <= hi.z
  }

  lemma ProductNonnegative(a: real, b: real)
    requires a >= 0.0 && b >= 0.0
    ensures a * b >= 0.0
  {
  }

  lemma ScalarBlendBetween(u: real, v: real, lo: real, hi: real, t: real)
    requires lo <= u <= hi && lo <= v <= hi
    requires 0.0 <= t <= 1.0
    ensures lo <= u * (1.0 - t) + v * t <= hi
  {
    var s := 1.0 - t;
    ProductNonnegative(u - lo, s);
    ProductNonnegative(v - lo, t);
    ProductNonnegative(hi - u, s);
    ProductNonnegative(hi - v, t);
  }

  /** A blend with `t` in [0, 1] stays in any box holding both ends. */
  lemma LerpWithin(p: Point, q: Point, t: real, lo: Point, hi: Point)
    requires Within(p, lo, hi) && Within(q, lo, hi)
    requires 0.0 <= t <= 1.0
    ensures Within(Lerp(p, q, t), lo, hi)
  {
    ScalarBlendBetween(p.x, q.x, lo.x, hi.x, t);
    ScalarBlendBetween(p.y, q.y, lo.y, hi.y, t);
    ScalarBlendBetween(p.z, q.z, lo.z, hi.z, t);
  }

  /** `p - q`, used only to state winding. */
  function Minus(p: Point, q: Point): Point
  {
    Point(p.x - q.x, p.y - q.y, p.z - q.z)
  }

  /** Right-handed cross product. */
  function Cross(u: Point, v: Point): Point
  {
    Point(u.y * v.z - u.z * v.y, u.z * v.x - u.x * v.z, u.x * v.y - u.y * v.x)
  }

  /** Two vectors in a plane z = const have a vertical cross product. */
  lemma CrossFlat(u: Point, v: Point)
    requires u.z == 0.0 && v.z == 0.0
    ensures Cross(u, v) == Point(0.0, 0.0, u.x * v.y - u.y * v.x)
  {
  }

  /** The z-component of `p x q` when both are read as plane vectors:
      positive when `q` lies counter-clockwise of `p` seen from +z. */
  function Turn(p: Point, q: Point): real
  {
    p.x * q.y - p.y * q.x
  }

  lemma TurnSwap(p: Point, q: Point)
    ensures Turn(q, p) == -Turn(p, q)
  {
  }
}
