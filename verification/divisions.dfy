/** The clamping every public assembler applies to its integer parameters
    before it does anything else: a count below its minimum is silently
    raised to the minimum, a valid count is kept. */
module Divisions {

  /** `v`, raised to `lo` when it is smaller: the larger of the two. */
  function AtLeast(v: int, lo: int): (r: int)
    ensures r >= lo && r >= v
    ensures r == lo || r == v
  {
    if v < lo then lo else v
  }

  /** Clamping a clamped value changes nothing. */
  lemma AtLeastIdempotent(v: int, lo: int)
    ensures AtLeast(AtLeast(v, lo), lo) == AtLeast(v, lo)
  {
  }

  /** The radial and height division counts a cylinder or cone call works with. */
  datatype LateralCounts = LateralCounts(radial: int, height: int)

  /** The clamp shared by the cylinder and the cone: at least three wedges
      and at least one height division. */
  function LateralDivisions(radialDivisions: int, heightDivisions: int): (d: LateralCounts)
    ensures d.radial >= 3 && d.height >= 1
    ensures radialDivisions >= 3 ==> d.radial == radialDivisions
    ensures radialDivisions < 3 ==> d.radial == 3
    ensures heightDivisions >= 1 ==> d.height == heightDivisions
    ensures heightDivisions < 1 ==> d.height == 1
  {
    LateralCounts(AtLeast(radialDivisions, 3), AtLeast(heightDivisions, 1))
  }

  /** The slice and stack counts a sphere call works with. */
  datatype Grid = Grid(slices: int, stacks: int)

  /** The sphere's clamp: at least three slices and at least three stacks,
      with no upper bound on either. */
  function SphereDivisions(slices: int, stacks: int): (g: Grid)
    ensures g.slices >= 3 && g.stacks >= 3
    ensures slices >= 3 ==> g.slices == slices
    ensures slices < 3 ==> g.slices == 3
    ensures stacks >= 3 ==> g.stacks == stacks
    ensures stacks < 3 ==> g.stacks == 3
  {
    Grid(AtLeast(slices, 3), AtLeast(stacks, 3))
  }
}
