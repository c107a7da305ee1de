/** `makeCylinder`: a unit-height cylinder around the z axis, cut into
    wedges. Each wedge is a bottom-cap triangle, a top-cap triangle and a
    `makeQuad` grid over the lateral face between the two rim points.

The rim points come from `cos` and `sin` of the wedge's two angles. Those
are not modelled; the caller supplies them as `trig(n, i)`, the cosines and
sines of the angles the source computes for wedge `i` of `n`. Every
statement below holds for any such values.
 */
module Cylinder {
  import opened Points
  import opened Streams
  import opened Divisions
  import opened Tessellation

  /** Cosine and sine of the wedge's first angle (`i * rads`) and of its
      second (`i * rads + rads`). */
  datatype Wedge = Wedge(cos0: real, sin0: real, cos1: real, sin1: real)

  /** The cap centres: the source's `origin`, moved to z = -0.5 for the
      bottom cap and to z = 0.5 for the top cap. */
  const BottomCentre := Point(0.0, 0.0, -0.5)
  const TopCentre := Point(0.0, 0.0, 0.5)

  /** `p2f`: the bottom rim point at the wedge's first angle. */
  function P2f(radius: real, w: Wedge): Point
  {
    Point(radius * w.cos0, radius * w.sin0, -0.5)
  }

  /** `p1f`: the bottom rim point at the wedge's second angle. */
  function P1f(radius: real, w: Wedge): Point
  {
    Point(radius * w.cos1, radius * w.sin1, -0.5)
  }

  /** A bottom rim point carried straight up to the top rim. */
  function Back(p: Point): Point
  {
    Point(p.x, p.y, 0.5)
  }

  /** The bottom-cap triangle `(origin, p1f, p2f)`, origin at z = -0.5. */
  function BottomCap(radius: real, w: Wedge): Triangle
  {
    Triangle(BottomCentre, P1f(radius, w), P2f(radius, w))
  }

  /** The top-cap triangle `(origin, p2b, p1b)`, origin at z = 0.5. */
  function TopCap(radius: real, w: Wedge): Triangle
  {
    Triangle(TopCentre, Back(P2f(radius, w)), Back(P1f(radius, w)))
  }

  /** The lateral face, `makeQuad(p1f, p1b, p2b, p2f, heightDivisions)`. */
  function Lateral(radius: real, heightDivisions: int, w: Wedge): seq<Triangle>
  {
    var p1f := P1f(radius, w);
    var p2f := P2f(radius, w);
    MakeQuad(p1f, Back(p1f), Back(p2f), p2f, heightDivisions)
  }

  /** One iteration of the wedge loop: bottom cap, top cap, lateral grid. */
  function WedgeTriangles(radius: real, heightDivisions: int, w: Wedge): seq<Triangle>
  {
    [BottomCap(radius, w), TopCap(radius, w)] + Lateral(radius, heightDivisions, w)
  }

  /** The wedge loop run `n` times. */
  function WedgeBlocks(radius: real, n: int, heightDivisions: int, trig: (int, int) -> Wedge): seq<seq<Triangle>>
  {
    if n <= 0 then [] else seq(n, i => WedgeTriangles(radius, heightDivisions, trig(n, i)))
  }

  /** `makeCylinder(radius, radialDivisions, heightDivisions)`: both counts
      clamped, then one wedge per radial division. */
  function MakeCylinder(radius: real, radialDivisions: int, heightDivisions: int, trig: (int, int) -> Wedge): seq<Triangle>
  {
    var d := LateralDivisions(radialDivisions, heightDivisions);
    Concat(WedgeBlocks(radius, d.radial, d.height, trig))
  }

  /** Number of triangles in one wedge with `h` height divisions. */
  function WedgeSize(h: int): int
  {
    2 + 2 * h * h
  }

  /** A wedge is two cap triangles and `2 h^2` lateral ones. */
  lemma WedgeCount(radius: real, h: int, w: Wedge)
    requires h >= 1
    ensures |WedgeTriangles(radius, h, w)| == 2 + 2 * h * h
  {
    var p1f := P1f(radius, w);
    var p2f := P2f(radius, w);
    MakeQuadCount(p1f, Back(p1f), Back(p2f), p2f, h);
  }

  lemma WedgeBlocksUniform(radius: real, n: int, h: int, trig: (int, int) -> Wedge)
    requires h >= 1
    ensures Uniform(WedgeBlocks(radius, n, h, trig), WedgeSize(h))
  {
    forall i | 0 <= i < |WedgeBlocks(radius, n, h, trig)|
      ensures |WedgeBlocks(radius, n, h, trig)[i]| == WedgeSize(h)
    {
      WedgeCount(radius, h, trig(n, i));
    }
  }

  lemma Commute(a: int, b: int)
    ensures a * b == b * a
  {
  }

  /** With valid counts, `n` wedges of `2 + 2 h^2` triangles each. */
  lemma WedgeBlocksCount(radius: real, n: int, h: int, trig: (int, int) -> Wedge)
    requires n >= 1 && h >= 1
    ensures |Concat(WedgeBlocks(radius, n, h, trig))| == n * (2 + 2 * h * h)
  {
    WedgeBlocksUniform(radius, n, h, trig);
    ConcatUniformLength(WedgeBlocks(radius, n, h, trig), WedgeSize(h));
    Commute(n, WedgeSize(h));
  }

  /** `radialDivisions * (2 + 2 * heightDivisions^2)` triangles, counted
      after clamping. */
  lemma MakeCylinderCount(radius: real, radialDivisions: int, heightDivisions: int, trig: (int, int) -> Wedge)
    ensures var d := LateralDivisions(radialDivisions, heightDivisions);
            |MakeCylinder(radius, radialDivisions, heightDivisions, trig)| == d.radial * (2 + 2 * d.height * d.height)
  {
    var d := LateralDivisions(radialDivisions, heightDivisions);
    WedgeBlocksCount(radius, d.radial, d.height, trig);
  }

  /** A call with out-of-range counts is the call with the clamp targets. */
  lemma MakeCylinderClamp(radius: real, radialDivisions: int, heightDivisions: int, trig: (int, int) -> Wedge)
    ensures var d := LateralDivisions(radialDivisions, heightDivisions);
            MakeCylinder(radius, radialDivisions, heightDivisions, trig) == MakeCylinder(radius, d.radial, d.height, trig)
  {
    AtLeastIdempotent(radialDivisions, 3);
    AtLeastIdempotent(heightDivisions, 1);
  }

  /** Wedge `i` is the `i`-th run of `2 + 2 h^2` triangles, made from the
      `i`-th pair of angles. */
  lemma MakeCylinderWedgeOrder(radius: real, radialDivisions: int, heightDivisions: int, trig: (int, int) -> Wedge, i: nat)
    requires i < LateralDivisions(radialDivisions, heightDivisions).radial
    ensures var d := LateralDivisions(radialDivisions, heightDivisions);
            Block(MakeCylinder(radius, radialDivisions, heightDivisions, trig), WedgeSize(d.height), i)
              == WedgeTriangles(radius, d.height, trig(d.radial, i))
  {
    var d := LateralDivisions(radialDivisions, heightDivisions);
    WedgeBlocksUniform(radius, d.radial, d.height, trig);
    ConcatUniformBlock(WedgeBlocks(radius, d.radial, d.height, trig), WedgeSize(d.height), i);
  }

  /** The top cap is the bottom cap carried up to z = 0.5 with its two rim
      vertices swapped, so the two caps are wound in opposite senses; the
      bottom cap lies flat at z = -0.5 with its first vertex on the axis. */
  lemma WedgeCapsMirror(radius: real, w: Wedge)
    ensures var bottom := BottomCap(radius, w);
            && bottom.a.z == -0.5 && bottom.b.z == -0.5 && bottom.c.z == -0.5
            && bottom.a.x == 0.0 && bottom.a.y == 0.0
            && TopCap(radius, w) == Triangle(Back(bottom.a), Back(bottom.c), Back(bottom.b))
  {
  }

  /** A fan triangle from a centre on the z axis to two points at the
      centre's height has a vertical normal, as long as the turn between
      the two points. */
  lemma FlatFanNormal(o: Point, p: Point, q: Point)
    requires o.x == 0.0 && o.y == 0.0 && p.z == o.z && q.z == o.z
    ensures Triangle(o, p, q).Normal() == Point(0.0, 0.0, Turn(p, q))
  {
    assert Minus(p, o) == Point(p.x, p.y, 0.0);
    assert Minus(q, o) == Point(q.x, q.y, 0.0);
    CrossFlat(Point(p.x, p.y, 0.0), Point(q.x, q.y, 0.0));
  }

  /** The turn from the wedge's first rim point to its second. */
  function RimTurn(radius: real, w: Wedge): real
  {
    Turn(P2f(radius, w), P1f(radius, w))
  }

  /** The cap normals are vertical: the bottom cap's is `-k` and the top
      cap's `+k` along z, where `k` is the turn from the first rim point
      to the second. */
  lemma WedgeCapNormals(radius: real, w: Wedge)
    ensures BottomCap(radius, w).Normal() == Point(0.0, 0.0, -RimTurn(radius, w))
    ensures TopCap(radius, w).Normal() == Point(0.0, 0.0, RimTurn(radius, w))
  {
    var p := P2f(radius, w);
    var q := P1f(radius, w);
    FlatFanNormal(BottomCentre, q, p);
    FlatFanNormal(TopCentre, Back(p), Back(q));
    TurnSwap(p, q);
    assert Turn(Back(p), Back(q)) == Turn(p, q);
  }

  lemma ScaledTurn(r: real, a: real, b: real, c: real, d: real)
    ensures (r * a) * (r * d) - (r * b) * (r * c) == r * r * (a * d - b * c)
  {
  }

  /** The rim turn is `radius^2` times the sine of the angle between the
      two rim directions. */
  lemma RimTurnScaled(radius: real, w: Wedge)
    ensures RimTurn(radius, w) == radius * radius * (w.cos0 * w.sin1 - w.sin0 * w.cos1)
  {
    ScaledTurn(radius, w.cos0, w.sin0, w.cos1, w.sin1);
  }

  lemma SignOfProduct(s: real, k: real, t: real)
    requires s > 0.0 && k > 0.0 && t == s * k
    ensures t > 0.0
  {
  }

  /** The square `s` of a non-zero `r` is positive. */
  lemma SquareOf(r: real, s: real)
    requires r != 0.0 && s == r * r
    ensures s > 0.0
  {
    if r > 0.0 {
      SignOfProduct(r, r, s);
    } else {
      SignOfProduct(-r, -r, s);
    }
  }

  /** The rim turns counter-clockwise whenever the radius is non-zero and
      the sine of the angle step is positive. */
  lemma RimTurnPositive(radius: real, w: Wedge)
    requires radius != 0.0
    requires w.cos0 * w.sin1 - w.sin0 * w.cos1 > 0.0
    ensures RimTurn(radius, w) > 0.0
  {
    RimTurnScaled(radius, w);
    var square := radius * radius;
    SquareOf(radius, square);
    SignOfProduct(square, w.cos0 * w.sin1 - w.sin0 * w.cos1, RimTurn(radius, w));
  }

  /** For a non-zero radius and a positive sine of the angle step
      (`cos a0 sin a1 - sin a0 cos a1`, which is `sin(2 pi / n)` for the
      source's angles when `n >= 3`), both caps face away from the
      cylinder: the bottom cap's normal points down and the top cap's up. */
  lemma WedgeCapsFaceOutward(radius: real, w: Wedge)
    requires radius != 0.0
    requires w.cos0 * w.sin1 - w.sin0 * w.cos1 > 0.0
    ensures BottomCap(radius, w).Normal().z < 0.0
    ensures TopCap(radius, w).Normal().z > 0.0
  {
    RimTurnPositive(radius, w);
    WedgeCapNormals(radius, w);
  }

  /** The lateral grid meets the caps: its corner vertices are the caps'
      rim vertices, `p1f` and `p2f` below, `p1b` and `p2b` above. */
  lemma WedgeSeams(radius: real, h: int, w: Wedge)
    requires h >= 1
    ensures |Lateral(radius, h, w)| == 2 * h * h
    ensures Lateral(radius, h, w)[1].c == BottomCap(radius, w).c
    ensures Lateral(radius, h, w)[2 * h - 2].a == BottomCap(radius, w).b
    ensures Lateral(radius, h, w)[2 * h * h - 2 * h].c == TopCap(radius, w).b
    ensures Lateral(radius, h, w)[2 * h * h - 2].b == TopCap(radius, w).c
  {
    var p1f := P1f(radius, w);
    var p2f := P2f(radius, w);
    MakeQuadCorners(p1f, Back(p1f), Back(p2f), p2f, h);
  }

  /** The lower corner of the box spanned by a wedge's rim points, which
      runs from z = -0.5 to z = 0.5. */
  function WedgeLow(radius: real, w: Wedge): Point
  {
    Point(Min(P1f(radius, w).x, P2f(radius, w).x), Min(P1f(radius, w).y, P2f(radius, w).y), -0.5)
  }

  /** The upper corner of that box. */
  function WedgeHigh(radius: real, w: Wedge): Point
  {
    Point(Max(P1f(radius, w).x, P2f(radius, w).x), Max(P1f(radius, w).y, P2f(radius, w).y), 0.5)
  }

  /** Every lateral triangle of a wedge lies on the flat face between the
      two rim edges: within their bounding box, and between the caps. */
  lemma WedgeLateralWithin(radius: real, h: int, w: Wedge)
    ensures AllWithin(Lateral(radius, h, w), WedgeLow(radius, w), WedgeHigh(radius, w))
  {
    var p1f := P1f(radius, w);
    var p2f := P2f(radius, w);
    MakeQuadWithin(p1f, Back(p1f), Back(p2f), p2f, h, WedgeLow(radius, w), WedgeHigh(radius, w));
  }

  /** Every vertex `makeCylinder` emits lies between the two cap planes. */
  lemma MakeCylinderHeight(radius: real, radialDivisions: int, heightDivisions: int, trig: (int, int) -> Wedge)
    ensures forall t :: t in MakeCylinder(radius, radialDivisions, heightDivisions, trig) ==>
              && -0.5 <= t.a.z <= 0.5 && -0.5 <= t.b.z <= 0.5 && -0.5 <= t.c.z <= 0.5
  {
    var d := LateralDivisions(radialDivisions, heightDivisions);
    var blocks := WedgeBlocks(radius, d.radial, d.height, trig);
    forall t | t in MakeCylinder(radius, radialDivisions, heightDivisions, trig)
      ensures -0.5 <= t.a.z <= 0.5 && -0.5 <= t.b.z <= 0.5 && -0.5 <= t.c.z <= 0.5
    {
      ConcatMember(blocks, t);
      var i :| 0 <= i < |blocks| && t in blocks[i];
      var w := trig(d.radial, i);
      assert blocks[i] == [BottomCap(radius, w), TopCap(radius, w)] + Lateral(radius, d.height, w);
      WedgeLateralWithin(radius, d.height, w);
    }
  }
}
