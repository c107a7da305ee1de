/** `makeCube`: the unit cube centred at the origin, each face a `makeQuad`
    grid. */
module Cube {
  import opened Points
  import opened Streams
  import opened Divisions
  import opened Tessellation

  /** The four corners handed to one `makeQuad` call, in parameter order. */
  datatype Quad = Quad(ll: Point, lr: Point, ur: Point, ul: Point)

  // The eight corners, named as in the source ("front" is the z = -0.5 side).
  const FrontLowerLeft := Point(-0.5, -0.5, -0.5)
  const FrontLowerRight := Point(0.5, -0.5, -0.5)
  const FrontUpperRight := Point(0.5, 0.5, -0.5)
  const FrontUpperLeft := Point(-0.5, 0.5, -0.5)
  const BackLowerLeft := Point(-0.5, -0.5, 0.5)
  const BackUpperLeft := Point(-0.5, 0.5, 0.5)
  const BackLowerRight := Point(0.5, -0.5, 0.5)
  const BackUpperRight := Point(0.5, 0.5, 0.5)

  /** The six `makeQuad` calls, in source order: z = -0.5, x = -0.5,
      z = 0.5, y = 0.5, y = -0.5, x = 0.5. */
  const Faces: seq<Quad> := [
    Quad(FrontLowerLeft, FrontLowerRight, FrontUpperRight, FrontUpperLeft),
    Quad(BackLowerLeft, FrontLowerLeft, FrontUpperLeft, BackUpperLeft),
    Quad(BackLowerRight, BackLowerLeft, BackUpperLeft, BackUpperRight),
    Quad(FrontUpperLeft, FrontUpperRight, BackUpperRight, BackUpperLeft),
    Quad(BackLowerLeft, BackLowerRight, FrontLowerRight, FrontLowerLeft),
    Quad(FrontLowerRight, BackLowerRight, BackUpperRight, FrontUpperRight)
  ]

  /** The grid `makeQuad` emits for one face. */
  function FaceTriangles(face: Quad, subs: int): seq<Triangle>
  {
    MakeQuad(face.ll, face.lr, face.ur, face.ul, subs)
  }

  /** What a run of `makeQuad` calls emits, one block per face. */
  function QuadBlocks(faces: seq<Quad>, subs: int): seq<seq<Triangle>>
  {
    seq(|faces|, f requires 0 <= f < |faces| => FaceTriangles(faces[f], subs))
  }

  /** `makeCube(subdivisions)`: the count is clamped to at least 1, then the
      six faces are emitted in table order. */
  function MakeCube(subdivisions: int): seq<Triangle>
  {
    Concat(QuadBlocks(Faces, AtLeast(subdivisions, 1)))
  }

  lemma QuadBlocksUniform(faces: seq<Quad>, subs: int)
    requires subs >= 1
    ensures Uniform(QuadBlocks(faces, subs), 2 * subs * subs)
  {
    forall f | 0 <= f < |faces|
      ensures |QuadBlocks(faces, subs)[f]| == 2 * subs * subs
    {
      var face := faces[f];
      MakeQuadCount(face.ll, face.lr, face.ur, face.ul, subs);
    }
  }

  /** A run of `makeQuad` calls emits `2 s^2` triangles per face. */
  lemma QuadBlocksCount(faces: seq<Quad>, subs: int)
    requires subs >= 1
    ensures |Concat(QuadBlocks(faces, subs))| == 2 * subs * subs * |faces|
  {
    QuadBlocksUniform(faces, subs);
    ConcatUniformLength(QuadBlocks(faces, subs), 2 * subs * subs);
  }

  /** The `f`-th run of `2 s^2` triangles is face `f`'s grid, unchanged. */
  lemma QuadBlocksBlock(faces: seq<Quad>, subs: int, f: nat)
    requires subs >= 1
    requires f < |faces|
    ensures Block(Concat(QuadBlocks(faces, subs)), 2 * subs * subs, f) == FaceTriangles(faces[f], subs)
  {
    QuadBlocksUniform(faces, subs);
    ConcatUniformBlock(QuadBlocks(faces, subs), 2 * subs * subs, f);
  }

  lemma SixTimes(s: int)
    ensures 2 * s * s * 6 == 12 * s * s
  {
  }

  /** With a count of at least one, six faces of `2 s^2` triangles each. */
  lemma MakeCubeCountUnclamped(subs: int)
    requires subs >= 1
    ensures |MakeCube(subs)| == 12 * subs * subs
  {
    QuadBlocksCount(Faces, subs);
    assert |Faces| == 6;
    SixTimes(subs);
  }

  /** A clamped call is the call made directly with the clamp target. */
  lemma MakeCubeClamp(subdivisions: int)
    ensures MakeCube(subdivisions) == MakeCube(AtLeast(subdivisions, 1))
    ensures subdivisions < 1 ==> MakeCube(subdivisions) == MakeCube(1)
  {
    AtLeastIdempotent(subdivisions, 1);
  }

  /** Six faces of `2 s^2` triangles each: `12 s^2`, with a count below 1
      clamped to 1. */
  lemma MakeCubeCount(subdivisions: int)
    ensures subdivisions >= 1 ==> |MakeCube(subdivisions)| == 12 * subdivisions * subdivisions
    ensures subdivisions < 1 ==> |MakeCube(subdivisions)| == 12
  {
    MakeCubeClamp(subdivisions);
    MakeCubeCountUnclamped(AtLeast(subdivisions, 1));
  }

  /** The faces come out in table order, each as one unbroken run of
      `2 s^2` triangles in the order `makeQuad` emits them. */
  lemma MakeCubeFaceOrder(subs: int, f: nat)
    requires subs >= 1
    requires f < 6
    ensures Block(MakeCube(subs), 2 * subs * subs, f) == FaceTriangles(Faces[f], subs)
  {
    assert AtLeast(subs, 1) == subs;
    QuadBlocksBlock(Faces, subs, f);
  }

  /** `p` is on the surface of the cube [-0.5, 0.5]^3. */
  predicate OnCubeSurface(p: Point)
  {
    && -0.5 <= p.x <= 0.5 && -0.5 <= p.y <= 0.5 && -0.5 <= p.z <= 0.5
    && (p.x == -0.5 || p.x == 0.5 || p.y == -0.5 || p.y == 0.5 || p.z == -0.5 || p.z == 0.5)
  }

  /** The component-wise smallest corner of a face. */
  function FaceLow(face: Quad): Point
  {
    Point(Min(Min(face.ll.x, face.lr.x), Min(face.ur.x, face.ul.x)),
          Min(Min(face.ll.y, face.lr.y), Min(face.ur.y, face.ul.y)),
          Min(Min(face.ll.z, face.lr.z), Min(face.ur.z, face.ul.z)))
  }

  /** The component-wise largest corner of a face. */
  function FaceHigh(face: Quad): Point
  {
    Point(Max(Max(face.ll.x, face.lr.x), Max(face.ur.x, face.ul.x)),
          Max(Max(face.ll.y, face.lr.y), Max(face.ur.y, face.ul.y)),
          Max(Max(face.ll.z, face.lr.z), Max(face.ur.z, face.ul.z)))
  }

  /** Every triangle a run of `makeQuad` calls emits lies in the bounding box
      of the face it came from. */
  lemma QuadBlocksWithin(faces: seq<Quad>, subs: int, t: Triangle)
    requires t in Concat(QuadBlocks(faces, subs))
    ensures exists f :: 0 <= f < |faces| && TriangleWithin(t, FaceLow(faces[f]), FaceHigh(faces[f]))
  {
    var blocks := QuadBlocks(faces, subs);
    ConcatMember(blocks, t);
    var f :| 0 <= f < |blocks| && t in blocks[f];
    var face := faces[f];
    MakeQuadWithin(face.ll, face.lr, face.ur, face.ul, subs, FaceLow(face), FaceHigh(face));
  }

  /** Each face of the table is a flat square on the cube's surface: its
      bounding box has one coordinate pinned to -0.5 or 0.5. */
  lemma FaceBoxOnSurface(f: int, p: Point)
    requires 0 <= f < 6
    requires Within(p, FaceLow(Faces[f]), FaceHigh(Faces[f]))
    ensures OnCubeSurface(p)
  {
  }

  /** Every vertex of every triangle lies on the cube's surface, whatever
      the subdivision count. */
  lemma MakeCubeOnSurface(subdivisions: int)
    ensures forall t :: t in MakeCube(subdivisions) ==>
              OnCubeSurface(t.a) && OnCubeSurface(t.b) && OnCubeSurface(t.c)
  {
    forall t | t in MakeCube(subdivisions)
      ensures OnCubeSurface(t.a) && OnCubeSurface(t.b) && OnCubeSurface(t.c)
    {
      QuadBlocksWithin(Faces, AtLeast(subdivisions, 1), t);
      var f :| 0 <= f < 6 && TriangleWithin(t, FaceLow(Faces[f]), FaceHigh(Faces[f]));
      FaceBoxOnSurface(f, t.a);
      FaceBoxOnSurface(f, t.b);
      FaceBoxOnSurface(f, t.c);
    }
  }

  /** Undivided, every triangle of a run of `makeQuad` calls is one face's
      (ll, lr, ur) or (ll, ur, ul). */
  lemma QuadBlocksSingle(faces: seq<Quad>, subs: int, t: Triangle)
    requires subs == 1
    requires t in Concat(QuadBlocks(faces, subs))
    ensures exists f :: 0 <= f < |faces| &&
              (t == Triangle(faces[f].ll, faces[f].lr, faces[f].ur) ||
               t == Triangle(faces[f].ll, faces[f].ur, faces[f].ul))
  {
    var blocks := QuadBlocks(faces, subs);
    ConcatMember(blocks, t);
    var f :| 0 <= f < |blocks| && t in blocks[f];
    MakeQuadSingle(faces[f].ll, faces[f].lr, faces[f].ur, faces[f].ul);
  }

  /** A coordinate of a cube corner. */
  predicate Half(v: real)
  {
    v == -0.5 || v == 0.5
  }

  /** `p` is one of the cube's eight corners. */
  predicate CubeCorner(p: Point)
  {
    Half(p.x) && Half(p.y) && Half(p.z)
  }

  /** All four corners of a face are cube corners. */
  predicate CornerFace(q: Quad)
  {
    CubeCorner(q.ll) && CubeCorner(q.lr) && CubeCorner(q.ur) && CubeCorner(q.ul)
  }

  /** Every vertex of every triangle in `ts` is a cube corner. */
  predicate AllCorners(ts: seq<Triangle>)
  {
    forall t :: t in ts ==> CubeCorner(t.a) && CubeCorner(t.b) && CubeCorner(t.c)
  }

  /** Every face of the table has cube corners as its four corners. */
  lemma FaceCorners(f: int)
    requires 0 <= f < 6
    ensures CornerFace(Faces[f])
  {
  }

  /** Undivided, a run of faces with cube corners emits only cube corners. */
  lemma QuadBlocksUnitCorners(faces: seq<Quad>, subs: int)
    requires subs == 1
    requires forall f :: 0 <= f < |faces| ==> CornerFace(faces[f])
    ensures AllCorners(Concat(QuadBlocks(faces, subs)))
  {
    forall t | t in Concat(QuadBlocks(faces, subs))
      ensures CubeCorner(t.a) && CubeCorner(t.b) && CubeCorner(t.c)
    {
      QuadBlocksSingle(faces, subs, t);
    }
  }

  /** Undivided, every vertex of the cube is one of its eight corners. */
  lemma MakeCubeUnitCorners(subdivisions: int)
    requires subdivisions <= 1
    ensures AllCorners(MakeCube(subdivisions))
  {
    forall f | 0 <= f < |Faces|
      ensures CornerFace(Faces[f])
    {
      FaceCorners(f);
    }
    QuadBlocksUnitCorners(Faces, AtLeast(subdivisions, 1));
  }

  /** `makeCube(1)`, and any call that clamps to it, emits 12 triangles whose
      every vertex coordinate is -0.5 or 0.5. */
  lemma MakeCubeUnit(subdivisions: int)
    requires subdivisions <= 1
    ensures |MakeCube(subdivisions)| == 12
    ensures AllCorners(MakeCube(subdivisions))
  {
    MakeCubeCount(subdivisions);
    MakeCubeUnitCorners(subdivisions);
  }

  /** Undivided, the `f`-th pair of triangles of a run of `makeQuad` calls
      is face `f`'s `(ll, lr, ur)` followed by its `(ll, ur, ul)`. */
  lemma QuadBlocksUnitBlock(faces: seq<Quad>, subs: int, f: nat)
    requires subs == 1
    requires f < |faces|
    ensures Block(Concat(QuadBlocks(faces, subs)), 2, f)
            == [Triangle(faces[f].ll, faces[f].lr, faces[f].ur),
                Triangle(faces[f].ll, faces[f].ur, faces[f].ul)]
  {
    QuadBlocksBlock(faces, subs, f);
    MakeQuadSingle(faces[f].ll, faces[f].lr, faces[f].ur, faces[f].ul);
  }

  /** Undivided, the `f`-th pair of triangles `makeCube` emits is face
      `f`'s `(ll, lr, ur)` followed by its `(ll, ur, ul)`. */
  lemma MakeCubeUnitFace(subdivisions: int, f: nat)
    requires subdivisions <= 1
    requires f < 6
    ensures Block(MakeCube(subdivisions), 2, f)
            == [Triangle(Faces[f].ll, Faces[f].lr, Faces[f].ur),
                Triangle(Faces[f].ll, Faces[f].ur, Faces[f].ul)]
  {
    QuadBlocksUnitBlock(Faces, AtLeast(subdivisions, 1), f);
  }

  /** The first triangle of the front face (z = -0.5) has the right-handed normal +z,
      pointing into the cube. */
  lemma FrontFaceFirstNormal()
    ensures Triangle(FrontLowerLeft, FrontLowerRight, FrontUpperRight).Normal() == Point(0.0, 0.0, 1.0)
  {
    assert Minus(FrontLowerRight, FrontLowerLeft) == Point(1.0, 0.0, 0.0);
    assert Minus(FrontUpperRight, FrontLowerLeft) == Point(1.0, 1.0, 0.0);
  }

  /** The second triangle of the front face has the same normal, +z. */
  lemma FrontFaceSecondNormal()
    ensures Triangle(FrontLowerLeft, FrontUpperRight, FrontUpperLeft).Normal() == Point(0.0, 0.0, 1.0)
  {
    assert Minus(FrontUpperRight, FrontLowerLeft) == Point(1.0, 1.0, 0.0);
    assert Minus(FrontUpperLeft, FrontLowerLeft) == Point(0.0, 1.0, 0.0);
  }

  /** The first triangle of the left face (x = -0.5) has the right-handed normal +x,
      pointing into the cube. */
  lemma LeftFaceFirstNormal()
    ensures Triangle(BackLowerLeft, FrontLowerLeft, FrontUpperLeft).Normal() == Point(1.0, 0.0, 0.0)
  {
    assert Minus(FrontLowerLeft, BackLowerLeft) == Point(0.0, 0.0, -1.0);
    assert Minus(FrontUpperLeft, BackLowerLeft) == Point(0.0, 1.0, -1.0);
  }

  /** The second triangle of the left face has the same normal, +x. */
  lemma LeftFaceSecondNormal()
    ensures Triangle(BackLowerLeft, FrontUpperLeft, BackUpperLeft).Normal() == Point(1.0, 0.0, 0.0)
  {
    assert Minus(FrontUpperLeft, BackLowerLeft) == Point(0.0, 1.0, -1.0);
    assert Minus(BackUpperLeft, BackLowerLeft) == Point(0.0, 1.0, 0.0);
  }

  /** The first triangle of the back face (z = 0.5) has the right-handed normal -z,
      pointing into the cube. */
  lemma BackFaceFirstNormal()
    ensures Triangle(BackLowerRight, BackLowerLeft, BackUpperLeft).Normal() == Point(0.0, 0.0, -1.0)
  {
    assert Minus(BackLowerLeft, BackLowerRight) == Point(-1.0, 0.0, 0.0);
    assert Minus(BackUpperLeft, BackLowerRight) == Point(-1.0, 1.0, 0.0);
  }

  /** The second triangle of the back face has the same normal, -z. */
  lemma BackFaceSecondNormal()
    ensures Triangle(BackLowerRight, BackUpperLeft, BackUpperRight).Normal() == Point(0.0, 0.0, -1.0)
  {
    assert Minus(BackUpperLeft, BackLowerRight) == Point(-1.0, 1.0, 0.0);
    assert Minus(BackUpperRight, BackLowerRight) == Point(0.0, 1.0, 0.0);
  }

  /** The first triangle of the top face (y = 0.5) has the right-handed normal -y,
      pointing into the cube. */
  lemma TopFaceFirstNormal()
    ensures Triangle(FrontUpperLeft, FrontUpperRight, BackUpperRight).Normal() == Point(0.0, -1.0, 0.0)
  {
    assert Minus(FrontUpperRight, FrontUpperLeft) == Point(1.0, 0.0, 0.0);
    assert Minus(BackUpperRight, FrontUpperLeft) == Point(1.0, 0.0, 1.0);
  }

  /** The second triangle of the top face has the same normal, -y. */
  lemma TopFaceSecondNormal()
    ensures Triangle(FrontUpperLeft, BackUpperRight, BackUpperLeft).Normal() == Point(0.0, -1.0, 0.0)
  {
    assert Minus(BackUpperRight, FrontUpperLeft) == Point(1.0, 0.0, 1.0);
    assert Minus(BackUpperLeft, FrontUpperLeft) == Point(0.0, 0.0, 1.0);
  }

  /** The first triangle of the bottom face (y = -0.5) has the right-handed normal +y,
      pointing into the cube. */
  lemma BottomFaceFirstNormal()
    ensures Triangle(BackLowerLeft, BackLowerRight, FrontLowerRight).Normal() == Point(0.0, 1.0, 0.0)
  {
    assert Minus(BackLowerRight, BackLowerLeft) == Point(1.0, 0.0, 0.0);
    assert Minus(FrontLowerRight, BackLowerLeft) == Point(1.0, 0.0, -1.0);
  }

  /** The second triangle of the bottom face has the same normal, +y. */
  lemma BottomFaceSecondNormal()
    ensures Triangle(BackLowerLeft, FrontLowerRight, FrontLowerLeft).Normal() == Point(0.0, 1.0, 0.0)
  {
    assert Minus(FrontLowerRight, BackLowerLeft) == Point(1.0, 0.0, -1.0);
    assert Minus(FrontLowerLeft, BackLowerLeft) == Point(0.0, 0.0, -1.0);
  }

  /** The first triangle of the right face (x = 0.5) has the right-handed normal -x,
      pointing into the cube. */
  lemma RightFaceFirstNormal()
    ensures Triangle(FrontLowerRight, BackLowerRight, BackUpperRight).Normal() == Point(-1.0, 0.0, 0.0)
  {
    assert Minus(BackLowerRight, FrontLowerRight) == Point(0.0, 0.0, 1.0);
    assert Minus(BackUpperRight, FrontLowerRight) == Point(0.0, 1.0, 1.0);
  }

  /** The second triangle of the right face has the same normal, -x. */
  lemma RightFaceSecondNormal()
    ensures Triangle(FrontLowerRight, BackUpperRight, FrontUpperRight).Normal() == Point(-1.0, 0.0, 0.0)
  {
    assert Minus(BackUpperRight, FrontLowerRight) == Point(0.0, 1.0, 1.0);
    assert Minus(FrontUpperRight, FrontLowerRight) == Point(0.0, 1.0, 0.0);
  }
}
