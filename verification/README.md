# cgShape tessellation, modelled in Dafny

`cgShape` turns a handful of parameters into a triangle soup for a unit
solid and hands the triangles, one by one, to an `addTriangle` sink. This
project models the tessellating part of it:

- `MyPoint.add` and `MyPoint.mult`, and the blend `p.mult(1-f).add(q.mult(f))`
  that every interpolation is written as (`points.dfy`);
- the parameter clamping at the top of every public assembler (`divisions.dfy`);
- `makeQuadCol`, which cuts one strip into rows of two triangles, and
  `makeQuad`, which cuts a quadrilateral into columns and hands each to
  `makeQuadCol` (`tessellation.dfy`);
- `makeCube`, six `makeQuad` calls over the cube's eight corners (`cube.dfy`);
- `makeCylinder`, one wedge per radial division: a bottom-cap triangle, a
  top-cap triangle and a `makeQuad` grid over the lateral face
  (`cylinder.dfy`);
- `makeCone` and `makeSphere`, which clamp their counts and emit nothing
  (`stubs.dfy`).

The sink becomes "append to the emitted sequence". Each routine is a pure
function returning its triangles in the order the sink receives them. A
loop that emits a fixed block of triangles per iteration is modelled as the
concatenation of those blocks (`streams.dfy`). Generic lemmas there take
a block `i` and an offset `j` within it to the position `len * i + j` of
the stream. `Block(ts, len, i)` is the `i`-th run of `len` triangles, and
on a concatenation of blocks of length `len` it gives back block `i`.

Coordinates are exact reals. The source uses `float`. Every statement here
holds under exact arithmetic and says nothing about float rounding.

The rim points of the cylinder come from `Math.cos` and `Math.sin` of
`i * rads` and `i * rads + rads`, where `rads` is `toRadians(360f / n)`
computed in float. These are not modelled. `MakeCylinder` takes a
parameter `trig(n, i)` that supplies, for wedge `i` of `n`, the cosine and
sine of `i * rads` and of `i * rads + rads`. Every statement about the
cylinder holds for any values it supplies.

## Behaviour of the code worth knowing

- The cylinder's lateral face is a full `makeQuad` grid, called with
  `(p1f, p1b, p2b, p2f)` and `heightDivisions`. A wedge is therefore
  `2 + 2 h^2` triangles (`Cylinder.WedgeCount`).
- `makeCone` and `makeSphere` stop after clamping and emit nothing.
- `makeSphere` clamps `slices` and `stacks` only from below, to 3
  (`Stubs.MakeSphereClamp` keeps 6 slices).
- The cube's faces are wound so that the right-handed normal of every
  triangle of `makeCube(1)` points into the cube: +z, +x, -z, -y, +y and -x
  for the six faces in emission order (`Cube.MakeCubeUnitFace` and the
  twelve `Cube.*FaceFirstNormal` / `Cube.*FaceSecondNormal` lemmas). The
  cylinder's caps point out of the cylinder when the radius is non-zero
  and the angle step has a positive sine (`Cylinder.WedgeCapsFaceOutward`).

## Model

| member | source | states |
|---|---|---|
| Points.Point.Add | src/cgShape.java:215-218 | No contract of its own: the coordinate-wise sum. Its laws are stated by `Points.AddMultLaws`. |
| Points.Point.Mult | src/cgShape.java:220-222 | No contract of its own: every coordinate scaled. Its laws are stated by `Points.AddMultLaws`. |
| Points.Lerp | src/cgShape.java:77-82 | No contract of its own: the blend `p.mult(1-t).add(q.mult(t))` of lines 77-82 and 93-96. Stated by `Points.LerpEndpoints` and `Points.LerpWithin`. |
| Points.AddMultLaws | src/cgShape.java:215-222 | `add` and `mult` act per coordinate. The sum commutes, scaling by 1 is the identity, and scaling distributes over a sum of points and over a sum of factors. |
| Points.LerpEndpoints | src/cgShape.java:93-96 | The blend `p.mult(1-f).add(q.mult(f))` is `p` at f = 0 and `q` at f = 1. |
| Points.LerpWithin | src/cgShape.java:93-96 | A blend with f in [0, 1] stays inside any axis-aligned box that holds both ends. |
| Divisions.AtLeast | src/cgShape.java:40-41 | The clamp: the result is at least the bound and at least the value, and it is one of the two. |
| Divisions.LateralDivisions | src/cgShape.java:124-128 | The cylinder and cone clamp: at least 3 radial and 1 height division. A count already in range is kept, and one below is raised to the bound exactly. |
| Divisions.SphereDivisions | src/cgShape.java:195-199 | The sphere clamp: at least 3 slices and 3 stacks, with no upper bound. A count in range is kept. |
| Tessellation.NextStep | src/cgShape.java:80 | `curPos + subsize` equals `(i + 1) * subsize`, so row or column `i` ends where row or column `i + 1` starts. |
| Tessellation.LastStep | src/cgShape.java:90-96 | The last row or column ends exactly at 1. |
| Tessellation.StepInUnit | src/cgShape.java:90-96 | Every step of the loop starts and ends inside [0, 1]. |
| Tessellation.MakeQuadCol | src/cgShape.java:89-101 | No contract of its own: the triangles `makeQuadCol` emits, in order. Stated by `MakeQuadColCount`, `MakeQuadColRowOrder`, `MakeQuadColEnds`, `MakeQuadColRowsShareEdge` and `MakeQuadColWithin`. |
| Tessellation.MakeQuadColCount | src/cgShape.java:89-101 | `makeQuadCol` emits two triangles per row, `2 numSubs`, and nothing for a count below 1. |
| Tessellation.MakeQuadColRowOrder | src/cgShape.java:91-100 | Row `i` emits `(p3, p4, p2)` at position `2i` and `(p3, p2, p1)` at `2i + 1`. |
| Tessellation.RowCellFirst | src/cgShape.java:92-94 | Row 0's near corners `p1`, `p2` are `q` and `qp`. |
| Tessellation.RowCellLast | src/cgShape.java:95-96 | The last row's far corners `p3`, `p4` are `r` and `rp`. |
| Tessellation.RowCellsShareEdge | src/cgShape.java:92-96 | Row `i`'s far corners are row `i + 1`'s near corners. |
| Tessellation.MakeQuadColEnds | src/cgShape.java:89-101 | The emitted column touches `qp` and `q` in its first two triangles and `r`, `rp` in its last row. |
| Tessellation.MakeQuadColRowsShareEdge | src/cgShape.java:91-100 | The emitted triangles of neighbouring rows share their common edge: vertex for vertex at positions `2i`, `2i + 2` and `2i + 3`. |
| Tessellation.MakeQuadColWithin | src/cgShape.java:89-101 | Every vertex of the column lies in any box holding its four corners. |
| Tessellation.MakeQuad | src/cgShape.java:72-86 | No contract of its own: the triangles `makeQuad` emits, column by column. Stated by `MakeQuadCount`, `MakeQuadColumnOrder`, `MakeQuadAt`, `MakeQuadColumnsShareEdge`, `MakeQuadCorners`, `MakeQuadSingle` and `MakeQuadWithin`. |
| Tessellation.MakeQuadCount | src/cgShape.java:72-86 | `makeQuad` emits `2 subs^2` triangles, and nothing for a count below 1. |
| Tessellation.MakeQuadColumnOrder | src/cgShape.java:75-85 | Column `i` occupies positions `2 subs i` to `2 subs i + 2 subs - 1`, as one `makeQuadCol` call over that column's strip. |
| Tessellation.ColumnStripFirst | src/cgShape.java:76-78 | Column 0's left edge is `ul`-`ll`. |
| Tessellation.ColumnStripLast | src/cgShape.java:80-82 | The last column's right edge is `ur`-`lr`. |
| Tessellation.ColumnStripsShareEdge | src/cgShape.java:76-82 | Column `i`'s right edge is column `i + 1`'s left edge. |
| Tessellation.MakeQuadAt | src/cgShape.java:72-101 | Cell `k` of column `i` emits `(p3, p4, p2)` and `(p3, p2, p1)` at positions `2 subs i + 2k` and `2 subs i + 2k + 1`. |
| Tessellation.GridCellsShareEdge | src/cgShape.java:72-101 | In every row, a cell's right corners are the next column's left corners. |
| Tessellation.MakeQuadColumnsShareEdge | src/cgShape.java:72-101 | Emitted triangles of neighbouring columns share their common edge, at positions `2 subs` apart. |
| Tessellation.GridCorners | src/cgShape.java:72-101 | The corner cells of the grid reach the quad's four corners. |
| Tessellation.MakeQuadCorners | src/cgShape.java:72-101 | `ul` and `ll` appear in the first column's first and last rows, and `ur` and `lr` in the last column's. |
| Tessellation.MakeQuadSingle | src/cgShape.java:72-101 | Undivided, a quad is exactly `(ll, lr, ur)` then `(ll, ur, ul)`. |
| Tessellation.MakeQuadWithin | src/cgShape.java:72-101 | Every vertex of the grid lies in any box holding the quad's corners. |
| Cube.MakeCube | src/cgShape.java:38-70 | No contract of its own: the clamp, then the six `makeQuad` calls over the corner table `Cube.Faces` (lines 43-68). Stated by `MakeCubeCount`, `MakeCubeFaceOrder`, `MakeCubeOnSurface`, `MakeCubeUnit` and `MakeCubeUnitFace`. |
| Cube.QuadBlocksCount | src/cgShape.java:52-68 | A run of `makeQuad` calls emits `2 s^2` triangles per face. |
| Cube.QuadBlocksBlock | src/cgShape.java:52-68 | The `f`-th run of `2 s^2` triangles is face `f`'s grid, unchanged. |
| Cube.MakeCubeCount | src/cgShape.java:38-70 | `makeCube` emits `12 s^2` triangles, and 12 for a count below 1. |
| Cube.MakeCubeClamp | src/cgShape.java:40-41 | A count below 1 gives the same stream as a count of 1. |
| Cube.MakeCubeFaceOrder | src/cgShape.java:52-68 | The six faces come out in source order, each as an unbroken run of `2 s^2` triangles from `makeQuad`. |
| Cube.MakeCubeOnSurface | src/cgShape.java:43-68 | For every count, every vertex lies on the surface of the cube [-0.5, 0.5]^3. |
| Cube.FaceCorners | src/cgShape.java:43-68 | Every face of the table has cube corners as its four corners. |
| Cube.QuadBlocksUnitCorners | src/cgShape.java:52-68 | Undivided, faces with cube corners emit only cube corners. |
| Cube.MakeCubeUnitCorners | src/cgShape.java:38-70 | Undivided, every vertex coordinate is -0.5 or 0.5. |
| Cube.MakeCubeUnit | src/cgShape.java:38-70 | `makeCube(1)`, and every call clamped to it, emits 12 triangles whose every coordinate is -0.5 or 0.5. |
| Cube.QuadBlocksUnitBlock | src/cgShape.java:52-68 | Undivided, the `f`-th pair of triangles of a run of `makeQuad` calls is face `f`'s `(ll, lr, ur)` then `(ll, ur, ul)`. |
| Cube.MakeCubeUnitFace | src/cgShape.java:38-70 | For `makeCube(1)`, and every call clamped to it, triangles `2f` and `2f + 1` are face `f`'s `(ll, lr, ur)` and `(ll, ur, ul)`, with the corners of the face table. |
| Cube.FrontFaceFirstNormal | src/cgShape.java:52-53 | The face at z = -0.5 is emitted first as `(fll, flr, fur)`. Its right-handed normal is +z, which points into the cube. |
| Cube.FrontFaceSecondNormal | src/cgShape.java:52-53 | The face's second triangle `(fll, fur, ful)` has the same inward normal, +z. |
| Cube.LeftFaceFirstNormal | src/cgShape.java:55-56 | The face at x = -0.5 is emitted first as `(bll, fll, ful)`. Its right-handed normal is +x, which points into the cube. |
| Cube.LeftFaceSecondNormal | src/cgShape.java:55-56 | The face's second triangle `(bll, ful, bul)` has the same inward normal, +x. |
| Cube.BackFaceFirstNormal | src/cgShape.java:58-59 | The face at z = 0.5 is emitted first as `(blr, bll, bul)`. Its right-handed normal is -z, which points into the cube. |
| Cube.BackFaceSecondNormal | src/cgShape.java:58-59 | The face's second triangle `(blr, bul, bur)` has the same inward normal, -z. |
| Cube.TopFaceFirstNormal | src/cgShape.java:61-62 | The face at y = 0.5 is emitted first as `(ful, fur, bur)`. Its right-handed normal is -y, which points into the cube. |
| Cube.TopFaceSecondNormal | src/cgShape.java:61-62 | The face's second triangle `(ful, bur, bul)` has the same inward normal, -y. |
| Cube.BottomFaceFirstNormal | src/cgShape.java:64-65 | The face at y = -0.5 is emitted first as `(bll, blr, flr)`. Its right-handed normal is +y, which points into the cube. |
| Cube.BottomFaceSecondNormal | src/cgShape.java:64-65 | The face's second triangle `(bll, flr, fll)` has the same inward normal, +y. |
| Cube.RightFaceFirstNormal | src/cgShape.java:67-68 | The face at x = 0.5 is emitted first as `(flr, blr, bur)`. Its right-handed normal is -x, which points into the cube. |
| Cube.RightFaceSecondNormal | src/cgShape.java:67-68 | The face's second triangle `(flr, bur, fur)` has the same inward normal, -x. |
| Cylinder.MakeCylinder | src/cgShape.java:122-158 | No contract of its own: the clamp, then one wedge per radial division. Stated by `MakeCylinderCount`, `MakeCylinderClamp`, `MakeCylinderWedgeOrder` and `MakeCylinderHeight`. |
| Cylinder.WedgeTriangles | src/cgShape.java:136-157 | No contract of its own: one loop iteration, bottom cap, top cap, then the lateral grid. Stated by `WedgeCount` and `MakeCylinderWedgeOrder`. |
| Cylinder.BottomCap | src/cgShape.java:145-146 | No contract of its own: `addTriangle(origin, p1f, p2f)` with the origin at z = -0.5. Stated by `WedgeCapsMirror`, `WedgeCapNormals` and `WedgeCapsFaceOutward`. |
| Cylinder.TopCap | src/cgShape.java:148-154 | No contract of its own: `addTriangle(origin, p2b, p1b)` with the origin at z = 0.5. Stated by `WedgeCapsMirror`, `WedgeCapNormals` and `WedgeCapsFaceOutward`. |
| Cylinder.Lateral | src/cgShape.java:150-156 | No contract of its own: `makeQuad(p1f, p1b, p2b, p2f, heightDivisions)`. Stated by `WedgeSeams` and `WedgeLateralWithin`. |
| Cylinder.WedgeCount | src/cgShape.java:136-157 | A wedge is 2 cap triangles plus `2 h^2` lateral ones. |
| Cylinder.MakeCylinderCount | src/cgShape.java:122-158 | `makeCylinder` emits `radial * (2 + 2 height^2)` triangles, counted after clamping. |
| Cylinder.MakeCylinderClamp | src/cgShape.java:124-128 | A call with out-of-range counts gives the same stream as the call with the clamped counts. |
| Cylinder.MakeCylinderWedgeOrder | src/cgShape.java:136-157 | Wedge `i` is the `i`-th run of `2 + 2 h^2` triangles, built from the `i`-th pair of angles. |
| Cylinder.WedgeCapsMirror | src/cgShape.java:145-154 | The bottom cap lies flat at z = -0.5 with its first vertex on the axis. The top cap is the bottom cap lifted to z = 0.5 with its two rim vertices swapped. |
| Cylinder.WedgeCapNormals | src/cgShape.java:145-154 | Both cap normals are vertical: `-k` for the bottom cap and `+k` for the top, where `k` is the turn from the first rim point to the second. |
| Cylinder.RimTurnScaled | src/cgShape.java:137-143 | That turn is `radius^2 (cos a0 sin a1 - sin a0 cos a1)`. |
| Cylinder.RimTurnPositive | src/cgShape.java:137-143 | For a non-zero radius and a positive sine of the angle step, the rim turns counter-clockwise seen from +z. |
| Cylinder.WedgeCapsFaceOutward | src/cgShape.java:145-154 | For a non-zero radius and a positive sine of the angle step (`sin(2 pi / n)` for the source's angles), the bottom cap's normal points down and the top cap's up, out of the cylinder. |
| Cylinder.WedgeSeams | src/cgShape.java:145-156 | The lateral grid's corner vertices are the caps' rim vertices: `p1f` and `p2f` below, `p1b` and `p2b` above. |
| Cylinder.WedgeLateralWithin | src/cgShape.java:150-156 | Every lateral vertex lies in the box spanned by the wedge's rim points, from z = -0.5 to z = 0.5. |
| Cylinder.MakeCylinderHeight | src/cgShape.java:122-158 | Every vertex `makeCylinder` emits lies between the two cap planes. |
| Stubs.MakeCone | src/cgShape.java:171-180 | `makeCone` emits nothing, with at least 3 radial and 1 height division, and keeps counts already in range. |
| Stubs.MakeConeClamp | src/cgShape.java:173-177 | The cone clamps exactly as the cylinder does, and an out-of-range call is the clamped call. |
| Stubs.MakeSphere | src/cgShape.java:193-202 | `makeSphere` emits nothing, with at least 3 slices and 3 stacks, and keeps counts already in range. |
| Stubs.MakeSphereClamp | src/cgShape.java:195-199 | Counts below 3 become 3, and an out-of-range call is the clamped call. A slice count of 6 is kept. |

## Left out

- Float arithmetic: every coordinate is an exact real, so rounding in `1f/numSubs`, `curPos + subsize` and the blends is not modelled.
- `Math.cos`, `Math.sin` and `Math.toRadians` in `makeCylinder` are replaced by the `trig` parameter.
- Cylinder.MakeCylinderWedgeOrder: states nothing about whether neighbouring wedges share rim points. In the source, wedge `i`'s `p1f` uses the angle `i * rads + rads` and wedge `i + 1`'s `p2f` uses `(i + 1) * rads`. These agree only up to float rounding, and the `trig` parameter leaves them free.
- The nine-float `addTriangle` overload, the `simpleShape` base class, and the OpenGL and AWT imports are the sink and renderer, outside the tessellator. They appear only as "append to the emitted sequence".
- `MyPoint`'s getters and setters are field access. The one mutation, `origin.setZ`, is modelled as two separate centre points, one for each cap.
- The empty `cgShape()` constructor has no behaviour to model.
