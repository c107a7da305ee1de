/** `makeCone` and `makeSphere`. Both clamp their counts and then return
    without emitting anything: their bodies stop at the clamping. Each call
    is modelled by the counts it ends up with and the (empty) stream it
    emits. */
module Stubs {
  import opened Divisions
  import opened Tessellation

  /** What a `makeCone` call settles on and emits. */
  datatype ConeRun = ConeRun(divisions: LateralCounts, triangles: seq<Triangle>)

  /** What a `makeSphere` call settles on and emits. */
  datatype SphereRun = SphereRun(divisions: Grid, triangles: seq<Triangle>)

  /** `makeCone(radius, radialDivisions, heightDivisions)`. */
  function MakeCone(radius: real, radialDivisions: int, heightDivisions: int): (r: ConeRun)
    ensures r.triangles == []
    ensures r.divisions.radial >= 3 && r.divisions.height >= 1
    ensures radialDivisions >= 3 ==> r.divisions.radial == radialDivisions
    ensures heightDivisions >= 1 ==> r.divisions.height == heightDivisions
  {
    ConeRun(LateralDivisions(radialDivisions, heightDivisions), [])
  }

  /** `makeSphere(radius, slices, stacks)`. */
  function MakeSphere(radius: real, slices: int, stacks: int): (r: SphereRun)
    ensures r.triangles == []
    ensures r.divisions.slices >= 3 && r.divisions.stacks >= 3
    ensures slices >= 3 ==> r.divisions.slices == slices
    ensures stacks >= 3 ==> r.divisions.stacks == stacks
  {
    SphereRun(SphereDivisions(slices, stacks), [])
  }

  /** The cone settles on the same counts as the cylinder does for the same
      arguments, and emits nothing for any of them. */
  lemma MakeConeClamp(radius: real, radialDivisions: int, heightDivisions: int)
    ensures MakeCone(radius, radialDivisions, heightDivisions).divisions
            == LateralDivisions(radialDivisions, heightDivisions)
    ensures radialDivisions < 3 ==> MakeCone(radius, radialDivisions, heightDivisions).divisions.radial == 3
    ensures heightDivisions < 1 ==> MakeCone(radius, radialDivisions, heightDivisions).divisions.height == 1
    ensures MakeCone(radius, radialDivisions, heightDivisions) == MakeCone(radius, AtLeast(radialDivisions, 3), AtLeast(heightDivisions, 1))
  {
    AtLeastIdempotent(radialDivisions, 3);
    AtLeastIdempotent(heightDivisions, 1);
  }

  /** A sphere call with too few slices or stacks is the call with three;
      a large slice count is kept as it is, with no upper bound. */
  lemma MakeSphereClamp(radius: real, slices: int, stacks: int)
    ensures slices < 3 ==> MakeSphere(radius, slices, stacks).divisions.slices == 3
    ensures stacks < 3 ==> MakeSphere(radius, slices, stacks).divisions.stacks == 3
    ensures MakeSphere(radius, slices, stacks) == MakeSphere(radius, AtLeast(slices, 3), AtLeast(stacks, 3))
    ensures MakeSphere(radius, 6, stacks).divisions.slices == 6
  {
    AtLeastIdempotent(slices, 3);
    AtLeastIdempotent(stacks, 3);
  }
}
