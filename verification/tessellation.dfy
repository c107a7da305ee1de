/** The two grid tessellators of `cgShape`: `makeQuadCol` cuts one strip
    into rows, `makeQuad` cuts a quadrilateral into columns and hands each
    column to `makeQuadCol`. The `addTriangle` sink becomes "append to the
    emitted sequence", so each routine is a function returning the triangles
    in the order the sink would receive them. */
module Tessellation {
  import opened Points
  import opened Streams

  /** One `addTriangle` call: three vertices in emission order. */
  datatype Triangle = Triangle(a: Point, b: Point, c: Point)
  {
    /** Right-handed normal of the emission order, (b - a) x (c - a). */
    function Normal(): Point
    {
      Cross(Minus(b, a), Minus(c, a))
    }
  }

  /** All three vertices of `t` lie in the box spanned by `lo` and `hi`. */
  predicate TriangleWithin(t: Triangle, lo: Point, hi: Point)
  {
    Within(t.a, lo, hi) && Within(t.b, lo, hi) && Within(t.c, lo, hi)
  }

  /** Every triangle of `ts` lies in the box spanned by `lo` and `hi`. */
  predicate AllWithin(ts: seq<Triangle>, lo: Point, hi: Point)
  {
    forall t :: t in ts ==> TriangleWithin(t, lo, hi)
  }

  /** The width of one of `n` equal steps across [0, 1]: the source's
      `1f/numSubs` and `1.0f/subs`. */
  function Sublength(n: int): real
    requires n >= 1
  {
    1.0 / (n as real)
  }

  /** Where step `i` of `n` starts: the source's `i * sublength` and
      `subsize * i`. */
  function Offset(n: int, i: int): real
    requires n >= 1
  {
    (i as real) * Sublength(n)
  }

  /** Step 0 starts at 0. */
  lemma FirstStep(n: int)
    requires n >= 1
    ensures Offset(n, 0) == 0.0
  {
  }

  /** One more step after step `i` starts is where step `i + 1` starts. */
  lemma NextStep(n: int, i: int)
    requires n >= 1
    ensures Offset(n, i) + Sublength(n) == Offset(n, i + 1)
  {
  }

  /** The last step ends at 1. */
  lemma LastStep(n: int)
    requires n >= 1
    ensures Offset(n, n - 1) + Sublength(n) == 1.0
  {
    NextStep(n, n - 1);
    assert Offset(n, n) == (n as real) * (1.0 / (n as real));
  }

  /** For `0 <= i < n`, step `i` starts and ends inside [0, 1]. */
  lemma StepInUnit(n: int, i: int)
    requires 0 <= i < n
    ensures 0.0 <= Offset(n, i)
    ensures Offset(n, i) + Sublength(n) <= 1.0
  {
    var s := Sublength(n);
    assert s * (n as real) == 1.0;
    assert s > 0.0;
    NextStep(n, i);
    assert ((i + 1) as real) * s <= (n as real) * s;
  }

  // ---------------------------------------------------------------- makeQuadCol

  /** The four corners of one row of a strip: `p1`, `p2` on the row's near
      edge (on the left edge q-r and the right edge qp-rp), `p3`, `p4` on its
      far edge. */
  datatype Cell = Cell(p1: Point, p2: Point, p3: Point, p4: Point)

  /** Row `i` of a strip cut into `numSubs` rows: both edges are sampled at
      `f = i * (1/numSubs)` and at `f + 1/numSubs`. */
  function RowCell(q: Point, r: Point, qp: Point, rp: Point, numSubs: int, i: int): Cell
    requires numSubs >= 1
  {
    var sublength := Sublength(numSubs);
    var f := Offset(numSubs, i);
    Cell(Lerp(q, r, f), Lerp(qp, rp, f), Lerp(q, r, f + sublength), Lerp(qp, rp, f + sublength))
  }

  /** The two triangles one row emits, `(p3, p4, p2)` then `(p3, p2, p1)`. */
  function CellTriangles(c: Cell): seq<Triangle>
  {
    [Triangle(c.p3, c.p4, c.p2), Triangle(c.p3, c.p2, c.p1)]
  }

  /** What each iteration of the row loop emits. */
  function ColumnRows(q: Point, r: Point, qp: Point, rp: Point, numSubs: int): seq<seq<Triangle>>
    requires numSubs >= 1
  {
    seq(numSubs, i => CellTriangles(RowCell(q, r, qp, rp, numSubs, i)))
  }

  /** `makeQuadCol(q, r, qp, rp, numSubs)`: the strip with left edge q-r and
      right edge qp-rp, cut into `numSubs` rows from the q/qp end. A count
      below 1 runs the loop zero times. */
  function MakeQuadCol(q: Point, r: Point, qp: Point, rp: Point, numSubs: int): seq<Triangle>
  {
    if numSubs <= 0 then [] else Concat(ColumnRows(q, r, qp, rp, numSubs))
  }

  /** Two triangles per row, none when the count is below 1. */
  lemma MakeQuadColCount(q: Point, r: Point, qp: Point, rp: Point, numSubs: int)
    ensures |MakeQuadCol(q, r, qp, rp, numSubs)| == if numSubs <= 0 then 0 else 2 * numSubs
  {
    if numSubs > 0 {
      ConcatUniformLength(ColumnRows(q, r, qp, rp, numSubs), 2);
    }
  }

  /** Row `i` emits `(p3, p4, p2)` at position `2i` and `(p3, p2, p1)` at
      position `2i + 1`. */
  lemma MakeQuadColRowOrder(q: Point, r: Point, qp: Point, rp: Point, numSubs: int, i: int)
    requires 0 <= i < numSubs
    ensures 2 * i + 1 < |MakeQuadCol(q, r, qp, rp, numSubs)|
    ensures var c := RowCell(q, r, qp, rp, numSubs, i);
            && MakeQuadCol(q, r, qp, rp, numSubs)[2 * i] == Triangle(c.p3, c.p4, c.p2)
            && MakeQuadCol(q, r, qp, rp, numSubs)[2 * i + 1] == Triangle(c.p3, c.p2, c.p1)
  {
    var rows := ColumnRows(q, r, qp, rp, numSubs);
    ConcatUniformAt(rows, 2, i, 0);
    ConcatUniformAt(rows, 2, i, 1);
  }

  /** The first row starts on the q-qp edge of the strip. */
  lemma RowCellFirst(q: Point, r: Point, qp: Point, rp: Point, numSubs: int)
    requires numSubs >= 1
    ensures RowCell(q, r, qp, rp, numSubs, 0).p1 == q
    ensures RowCell(q, r, qp, rp, numSubs, 0).p2 == qp
  {
    var c := RowCell(q, r, qp, rp, numSubs, 0);
    FirstStep(numSubs);
    assert c.p1 == Lerp(q, r, 0.0);
    assert c.p2 == Lerp(qp, rp, 0.0);
    LerpEndpoints(q, r);
    LerpEndpoints(qp, rp);
  }

  /** The last row ends on the r-rp edge of the strip. */
  lemma RowCellLast(q: Point, r: Point, qp: Point, rp: Point, numSubs: int)
    requires numSubs >= 1
    ensures RowCell(q, r, qp, rp, numSubs, numSubs - 1).p3 == r
    ensures RowCell(q, r, qp, rp, numSubs, numSubs - 1).p4 == rp
  {
    var c := RowCell(q, r, qp, rp, numSubs, numSubs - 1);
    LastStep(numSubs);
    assert c.p3 == Lerp(q, r, 1.0);
    assert c.p4 == Lerp(qp, rp, 1.0);
    LerpEndpoints(q, r);
    LerpEndpoints(qp, rp);
  }

  /** The far edge of row `i` is the near edge of row `i + 1`. */
  lemma RowCellsShareEdge(q: Point, r: Point, qp: Point, rp: Point, numSubs: int, i: int)
    requires numSubs >= 1
    ensures RowCell(q, r, qp, rp, numSubs, i).p3 == RowCell(q, r, qp, rp, numSubs, i + 1).p1
    ensures RowCell(q, r, qp, rp, numSubs, i).p4 == RowCell(q, r, qp, rp, numSubs, i + 1).p2
  {
    var g := Offset(numSubs, i + 1);
    NextStep(numSubs, i);
    assert RowCell(q, r, qp, rp, numSubs, i).p3 == Lerp(q, r, g);
    assert RowCell(q, r, qp, rp, numSubs, i).p4 == Lerp(qp, rp, g);
  }

  /** The emitted column starts at q (row 0's p1) and qp (row 0's p2) and
      ends at r and rp (the last row's p3 and p4). */
  lemma MakeQuadColEnds(q: Point, r: Point, qp: Point, rp: Point, numSubs: int)
    requires numSubs >= 1
    ensures |MakeQuadCol(q, r, qp, rp, numSubs)| == 2 * numSubs
    ensures MakeQuadCol(q, r, qp, rp, numSubs)[0].c == qp
    ensures MakeQuadCol(q, r, qp, rp, numSubs)[1].c == q
    ensures MakeQuadCol(q, r, qp, rp, numSubs)[2 * numSubs - 2].a == r
    ensures MakeQuadCol(q, r, qp, rp, numSubs)[2 * numSubs - 2].b == rp
  {
    MakeQuadColCount(q, r, qp, rp, numSubs);
    RowCellFirst(q, r, qp, rp, numSubs);
    RowCellLast(q, r, qp, rp, numSubs);
    MakeQuadColRowOrder(q, r, qp, rp, numSubs, 0);
    MakeQuadColRowOrder(q, r, qp, rp, numSubs, numSubs - 1);
  }

  /** Adjacent rows share an edge: row `i`'s far corners p3, p4 are row
      `i + 1`'s near corners p1, p2, so the column has no gap. */
  lemma MakeQuadColRowsShareEdge(q: Point, r: Point, qp: Point, rp: Point, numSubs: int, i: int)
    requires 0 <= i && i + 1 < numSubs
    ensures 2 * i + 3 < |MakeQuadCol(q, r, qp, rp, numSubs)|
    ensures MakeQuadCol(q, r, qp, rp, numSubs)[2 * i].a == MakeQuadCol(q, r, qp, rp, numSubs)[2 * i + 3].c
    ensures MakeQuadCol(q, r, qp, rp, numSubs)[2 * i].b == MakeQuadCol(q, r, qp, rp, numSubs)[2 * i + 2].c
  {
    RowCellsShareEdge(q, r, qp, rp, numSubs, i);
    MakeQuadColRowOrder(q, r, qp, rp, numSubs, i);
    MakeQuadColRowOrder(q, r, qp, rp, numSubs, i + 1);
  }

  /** All four corners of a row lie in any box holding the strip's corners. */
  lemma RowCellWithin(q: Point, r: Point, qp: Point, rp: Point, numSubs: int, i: int, lo: Point, hi: Point)
    requires Within(q, lo, hi) && Within(r, lo, hi) && Within(qp, lo, hi) && Within(rp, lo, hi)
    requires 0 <= i < numSubs
    ensures var c := RowCell(q, r, qp, rp, numSubs, i);
            Within(c.p1, lo, hi) && Within(c.p2, lo, hi) && Within(c.p3, lo, hi) && Within(c.p4, lo, hi)
  {
    var sublength := Sublength(numSubs);
    var f := Offset(numSubs, i);
    StepInUnit(numSubs, i);
    LerpWithin(q, r, f, lo, hi);
    LerpWithin(qp, rp, f, lo, hi);
    LerpWithin(q, r, f + sublength, lo, hi);
    LerpWithin(qp, rp, f + sublength, lo, hi);
  }

  /** Every vertex of the column lies in any box holding its four corners. */
  lemma MakeQuadColWithin(q: Point, r: Point, qp: Point, rp: Point, numSubs: int, lo: Point, hi: Point)
    requires Within(q, lo, hi) && Within(r, lo, hi) && Within(qp, lo, hi) && Within(rp, lo, hi)
    ensures AllWithin(MakeQuadCol(q, r, qp, rp, numSubs), lo, hi)
  {
    if numSubs > 0 {
      var rows := ColumnRows(q, r, qp, rp, numSubs);
      forall t | t in MakeQuadCol(q, r, qp, rp, numSubs)
        ensures TriangleWithin(t, lo, hi)
      {
        ConcatMember(rows, t);
        var i :| 0 <= i < numSubs && t in rows[i];
        RowCellWithin(q, r, qp, rp, numSubs, i, lo, hi);
        var c := RowCell(q, r, qp, rp, numSubs, i);
        assert rows[i] == CellTriangles(c);
      }
    }
  }

  // ---------------------------------------------------------------- makeQuad

  /** One column of a quad: left edge q-r, right edge qp-rp. */
  datatype Strip = Strip(q: Point, r: Point, qp: Point, rp: Point)

  /** Column `i` of a quad cut into `subs` columns: the top edge ul-ur and the
      bottom edge ll-lr are sampled at `curPos = (1/subs) * i` and at
      `curPos + 1/subs`. */
  function ColumnStrip(ll: Point, lr: Point, ur: Point, ul: Point, subs: int, i: int): Strip
    requires subs >= 1
  {
    var subsize := Sublength(subs);
    var curPos := Offset(subs, i);
    var iprime := curPos + subsize;
    Strip(Lerp(ul, ur, curPos), Lerp(ll, lr, curPos), Lerp(ul, ur, iprime), Lerp(ll, lr, iprime))
  }

  /** The triangles `makeQuadCol` emits for a strip. */
  function StripTriangles(st: Strip, numSubs: int): seq<Triangle>
  {
    MakeQuadCol(st.q, st.r, st.qp, st.rp, numSubs)
  }

  /** What each iteration of the column loop emits: the column cut into as
      many rows as there are columns. */
  function QuadColumns(ll: Point, lr: Point, ur: Point, ul: Point, subs: int): seq<seq<Triangle>>
    requires subs >= 1
  {
    seq(subs, i => StripTriangles(ColumnStrip(ll, lr, ur, ul, subs, i), subs))
  }

  /** `makeQuad(ll, lr, ur, ul, subs)`: the quad cut into a `subs` by `subs`
      grid, column by column from the ul/ll side. A count below 1 runs the
      loop zero times. */
  function MakeQuad(ll: Point, lr: Point, ur: Point, ul: Point, subs: int): seq<Triangle>
  {
    if subs <= 0 then [] else Concat(QuadColumns(ll, lr, ur, ul, subs))
  }

  lemma QuadColumnsUniform(ll: Point, lr: Point, ur: Point, ul: Point, subs: int)
    requires subs >= 1
    ensures Uniform(QuadColumns(ll, lr, ur, ul, subs), 2 * subs)
  {
    var cols := QuadColumns(ll, lr, ur, ul, subs);
    forall i | 0 <= i < |cols|
      ensures |cols[i]| == 2 * subs
    {
      var st := ColumnStrip(ll, lr, ur, ul, subs, i);
      MakeQuadColCount(st.q, st.r, st.qp, st.rp, subs);
    }
  }

  /** `2 * subs * subs` triangles, none when the count is below 1. */
  lemma MakeQuadCount(ll: Point, lr: Point, ur: Point, ul: Point, subs: int)
    ensures |MakeQuad(ll, lr, ur, ul, subs)| == if subs <= 0 then 0 else 2 * subs * subs
  {
    if subs > 0 {
      QuadColumnsUniform(ll, lr, ur, ul, subs);
      ConcatUniformLength(QuadColumns(ll, lr, ur, ul, subs), 2 * subs);
    }
  }

  /** Column `i` is one `makeQuadCol` call with `subs` rows, and its
      `2 * subs` triangles occupy positions `2 * subs * i` onwards. */
  lemma MakeQuadColumnOrder(ll: Point, lr: Point, ur: Point, ul: Point, subs: int, i: int, j: int)
    requires 0 <= i < subs && 0 <= j < 2 * subs
    ensures |MakeQuad(ll, lr, ur, ul, subs)| == 2 * subs * subs
    ensures 2 * subs * i + j < 2 * subs * subs
    ensures |StripTriangles(ColumnStrip(ll, lr, ur, ul, subs, i), subs)| == 2 * subs
    ensures MakeQuad(ll, lr, ur, ul, subs)[2 * subs * i + j]
         == StripTriangles(ColumnStrip(ll, lr, ur, ul, subs, i), subs)[j]
  {
    MakeQuadCount(ll, lr, ur, ul, subs);
    QuadColumnsUniform(ll, lr, ur, ul, subs);
    ConcatUniformAt(QuadColumns(ll, lr, ur, ul, subs), 2 * subs, i, j);
  }

  /** The first column starts on the ul-ll edge of the quad. */
  lemma ColumnStripFirst(ll: Point, lr: Point, ur: Point, ul: Point, subs: int)
    requires subs >= 1
    ensures ColumnStrip(ll, lr, ur, ul, subs, 0).q == ul
    ensures ColumnStrip(ll, lr, ur, ul, subs, 0).r == ll
  {
    var st := ColumnStrip(ll, lr, ur, ul, subs, 0);
    FirstStep(subs);
    assert st.q == Lerp(ul, ur, 0.0);
    assert st.r == Lerp(ll, lr, 0.0);
    LerpEndpoints(ul, ur);
    LerpEndpoints(ll, lr);
  }

  /** The last column ends on the ur-lr edge of the quad. */
  lemma ColumnStripLast(ll: Point, lr: Point, ur: Point, ul: Point, subs: int)
    requires subs >= 1
    ensures ColumnStrip(ll, lr, ur, ul, subs, subs - 1).qp == ur
    ensures ColumnStrip(ll, lr, ur, ul, subs, subs - 1).rp == lr
  {
    var st := ColumnStrip(ll, lr, ur, ul, subs, subs - 1);
    LastStep(subs);
    assert st.qp == Lerp(ul, ur, 1.0);
    assert st.rp == Lerp(ll, lr, 1.0);
    LerpEndpoints(ul, ur);
    LerpEndpoints(ll, lr);
  }

  /** Column `i`'s right edge is column `i + 1`'s left edge. */
  lemma ColumnStripsShareEdge(ll: Point, lr: Point, ur: Point, ul: Point, subs: int, i: int)
    requires subs >= 1
    ensures ColumnStrip(ll, lr, ur, ul, subs, i).qp == ColumnStrip(ll, lr, ur, ul, subs, i + 1).q
    ensures ColumnStrip(ll, lr, ur, ul, subs, i).rp == ColumnStrip(ll, lr, ur, ul, subs, i + 1).r
  {
    var g := Offset(subs, i + 1);
    NextStep(subs, i);
    assert ColumnStrip(ll, lr, ur, ul, subs, i).qp == Lerp(ul, ur, g);
    assert ColumnStrip(ll, lr, ur, ul, subs, i).rp == Lerp(ll, lr, g);
  }

  /** In every row, the right corners of a strip are the left corners of
      the strip to its right when the two strips share that edge. */
  lemma RowCellsOfNeighbours(left: Strip, right: Strip, numSubs: int, k: int)
    requires numSubs >= 1
    requires left.qp == right.q && left.rp == right.r
    ensures RowCell(left.q, left.r, left.qp, left.rp, numSubs, k).p2
         == RowCell(right.q, right.r, right.qp, right.rp, numSubs, k).p1
    ensures RowCell(left.q, left.r, left.qp, left.rp, numSubs, k).p4
         == RowCell(right.q, right.r, right.qp, right.rp, numSubs, k).p3
  {
  }

  /** Cell `k` of column `i` of the grid. */
  function GridCell(ll: Point, lr: Point, ur: Point, ul: Point, subs: int, i: int, k: int): Cell
    requires subs >= 1
  {
    var st := ColumnStrip(ll, lr, ur, ul, subs, i);
    RowCell(st.q, st.r, st.qp, st.rp, subs, k)
  }

  /** Cell `k` of column `i` is emitted at position `2 subs i + 2 k` of the
      grid, as `(p3, p4, p2)` followed by `(p3, p2, p1)`. */
  lemma MakeQuadAt(ll: Point, lr: Point, ur: Point, ul: Point, subs: int, i: int, k: int)
    requires 0 <= i < subs && 0 <= k < subs
    ensures 2 * subs * i + 2 * k + 1 < |MakeQuad(ll, lr, ur, ul, subs)|
    ensures var c := GridCell(ll, lr, ur, ul, subs, i, k);
            && MakeQuad(ll, lr, ur, ul, subs)[2 * subs * i + 2 * k] == Triangle(c.p3, c.p4, c.p2)
            && MakeQuad(ll, lr, ur, ul, subs)[2 * subs * i + 2 * k + 1] == Triangle(c.p3, c.p2, c.p1)
  {
    var st := ColumnStrip(ll, lr, ur, ul, subs, i);
    MakeQuadColRowOrder(st.q, st.r, st.qp, st.rp, subs, k);
    MakeQuadColumnOrder(ll, lr, ur, ul, subs, i, 2 * k);
    MakeQuadColumnOrder(ll, lr, ur, ul, subs, i, 2 * k + 1);
  }

  /** Adjacent columns share an edge cell by cell: in row `k`, the right
      corners p2, p4 of column `i` are the left corners p1, p3 of
      column `i + 1`. */
  lemma GridCellsShareEdge(ll: Point, lr: Point, ur: Point, ul: Point, subs: int, i: int, k: int)
    requires subs >= 1
    ensures GridCell(ll, lr, ur, ul, subs, i, k).p2 == GridCell(ll, lr, ur, ul, subs, i + 1, k).p1
    ensures GridCell(ll, lr, ur, ul, subs, i, k).p4 == GridCell(ll, lr, ur, ul, subs, i + 1, k).p3
  {
    ColumnStripsShareEdge(ll, lr, ur, ul, subs, i);
    RowCellsOfNeighbours(ColumnStrip(ll, lr, ur, ul, subs, i), ColumnStrip(ll, lr, ur, ul, subs, i + 1), subs, k);
  }

  /** Neighbouring columns share their edge in the emitted stream, `2 subs`
      positions apart. */
  lemma MakeQuadColumnsShareEdge(ll: Point, lr: Point, ur: Point, ul: Point, subs: int, i: int, k: int)
    requires 0 <= i && i + 1 < subs && 0 <= k < subs
    ensures var here := 2 * subs * i;
            here + 2 * subs + 2 * k + 1 < |MakeQuad(ll, lr, ur, ul, subs)|
    ensures var here := 2 * subs * i;
            MakeQuad(ll, lr, ur, ul, subs)[here + 2 * k].c
            == MakeQuad(ll, lr, ur, ul, subs)[here + 2 * subs + 2 * k + 1].c
    ensures var here := 2 * subs * i;
            MakeQuad(ll, lr, ur, ul, subs)[here + 2 * k].b
            == MakeQuad(ll, lr, ur, ul, subs)[here + 2 * subs + 2 * k].a
  {
    MakeQuadAt(ll, lr, ur, ul, subs, i, k);
    MakeQuadAt(ll, lr, ur, ul, subs, i + 1, k);
    Distribute(2 * subs, i);
    GridCellsShareEdge(ll, lr, ur, ul, subs, i, k);
  }

  /** The grid's corner cells reach the quad's corners. */
  lemma GridCorners(ll: Point, lr: Point, ur: Point, ul: Point, subs: int)
    requires subs >= 1
    ensures GridCell(ll, lr, ur, ul, subs, 0, 0).p1 == ul
    ensures GridCell(ll, lr, ur, ul, subs, 0, subs - 1).p3 == ll
    ensures GridCell(ll, lr, ur, ul, subs, subs - 1, 0).p2 == ur
    ensures GridCell(ll, lr, ur, ul, subs, subs - 1, subs - 1).p4 == lr
  {
    var first := ColumnStrip(ll, lr, ur, ul, subs, 0);
    var last := ColumnStrip(ll, lr, ur, ul, subs, subs - 1);
    ColumnStripFirst(ll, lr, ur, ul, subs);
    ColumnStripLast(ll, lr, ur, ul, subs);
    RowCellFirst(first.q, first.r, first.qp, first.rp, subs);
    RowCellLast(first.q, first.r, first.qp, first.rp, subs);
    RowCellFirst(last.q, last.r, last.qp, last.rp, subs);
    RowCellLast(last.q, last.r, last.qp, last.rp, subs);
  }

  /** The first column's first row has ul as its p1, its last row has ll
      as its p3. */
  lemma MakeQuadFirstColumnCorners(ll: Point, lr: Point, ur: Point, ul: Point, subs: int)
    requires subs >= 1
    ensures 2 * subs - 2 < |MakeQuad(ll, lr, ur, ul, subs)|
    ensures MakeQuad(ll, lr, ur, ul, subs)[1].c == ul
    ensures MakeQuad(ll, lr, ur, ul, subs)[2 * subs - 2].a == ll
  {
    GridCorners(ll, lr, ur, ul, subs);
    MakeQuadAt(ll, lr, ur, ul, subs, 0, 0);
    MakeQuadAt(ll, lr, ur, ul, subs, 0, subs - 1);
  }

  /** The last column's first row has ur as its p2, its last row has lr as
      its p4. */
  lemma MakeQuadLastColumnCorners(ll: Point, lr: Point, ur: Point, ul: Point, subs: int)
    requires subs >= 1
    ensures |MakeQuad(ll, lr, ur, ul, subs)| == 2 * subs * subs
    ensures MakeQuad(ll, lr, ur, ul, subs)[2 * subs * subs - 2 * subs].c == ur
    ensures MakeQuad(ll, lr, ur, ul, subs)[2 * subs * subs - 2].b == lr
  {
    MakeQuadCount(ll, lr, ur, ul, subs);
    GridCorners(ll, lr, ur, ul, subs);
    MakeQuadAt(ll, lr, ur, ul, subs, subs - 1, 0);
    MakeQuadAt(ll, lr, ur, ul, subs, subs - 1, subs - 1);
    Distribute(2 * subs, subs - 1);
  }

  /** The grid reaches the quad's four corners: ul and ll in the first
      column, ur and lr in the last. */
  lemma MakeQuadCorners(ll: Point, lr: Point, ur: Point, ul: Point, subs: int)
    requires subs >= 1
    ensures |MakeQuad(ll, lr, ur, ul, subs)| == 2 * subs * subs
    ensures MakeQuad(ll, lr, ur, ul, subs)[1].c == ul
    ensures MakeQuad(ll, lr, ur, ul, subs)[2 * subs - 2].a == ll
    ensures MakeQuad(ll, lr, ur, ul, subs)[2 * subs * subs - 2 * subs].c == ur
    ensures MakeQuad(ll, lr, ur, ul, subs)[2 * subs * subs - 2].b == lr
  {
    MakeQuadFirstColumnCorners(ll, lr, ur, ul, subs);
    MakeQuadLastColumnCorners(ll, lr, ur, ul, subs);
  }

  /** Without subdivision a quad is the two triangles (ll, lr, ur) and
      (ll, ur, ul). */
  lemma MakeQuadSingle(ll: Point, lr: Point, ur: Point, ul: Point)
    ensures MakeQuad(ll, lr, ur, ul, 1) == [Triangle(ll, lr, ur), Triangle(ll, ur, ul)]
  {
    var st := ColumnStrip(ll, lr, ur, ul, 1, 0);
    var c := RowCell(st.q, st.r, st.qp, st.rp, 1, 0);
    ColumnStripFirst(ll, lr, ur, ul, 1);
    ColumnStripLast(ll, lr, ur, ul, 1);
    RowCellFirst(st.q, st.r, st.qp, st.rp, 1);
    RowCellLast(st.q, st.r, st.qp, st.rp, 1);
    assert c == Cell(ul, ur, ll, lr);
    MakeQuadColRowOrder(st.q, st.r, st.qp, st.rp, 1, 0);
    MakeQuadColumnOrder(ll, lr, ur, ul, 1, 0, 0);
    MakeQuadColumnOrder(ll, lr, ur, ul, 1, 0, 1);
  }

  /** Every corner of column `i` lies in any box holding the quad's corners. */
  lemma ColumnStripWithin(ll: Point, lr: Point, ur: Point, ul: Point, subs: int, i: int, lo: Point, hi: Point)
    requires Within(ll, lo, hi) && Within(lr, lo, hi) && Within(ur, lo, hi) && Within(ul, lo, hi)
    requires 0 <= i < subs
    ensures var st := ColumnStrip(ll, lr, ur, ul, subs, i);
            Within(st.q, lo, hi) && Within(st.r, lo, hi) && Within(st.qp, lo, hi) && Within(st.rp, lo, hi)
  {
    var subsize := Sublength(subs);
    var curPos := Offset(subs, i);
    StepInUnit(subs, i);
    LerpWithin(ul, ur, curPos, lo, hi);
    LerpWithin(ll, lr, curPos, lo, hi);
    LerpWithin(ul, ur, curPos + subsize, lo, hi);
    LerpWithin(ll, lr, curPos + subsize, lo, hi);
  }

  /** Every vertex of the grid lies in any box holding the quad's corners. */
  lemma MakeQuadWithin(ll: Point, lr: Point, ur: Point, ul: Point, subs: int, lo: Point, hi: Point)
    requires Within(ll, lo, hi) && Within(lr, lo, hi) && Within(ur, lo, hi) && Within(ul, lo, hi)
    ensures AllWithin(MakeQuad(ll, lr, ur, ul, subs), lo, hi)
  {
    if subs > 0 {
      var cols := QuadColumns(ll, lr, ur, ul, subs);
      forall t | t in MakeQuad(ll, lr, ur, ul, subs)
        ensures TriangleWithin(t, lo, hi)
      {
        ConcatMember(cols, t);
        var i :| 0 <= i < subs && t in cols[i];
        var st := ColumnStrip(ll, lr, ur, ul, subs, i);
        ColumnStripWithin(ll, lr, ur, ul, subs, i, lo, hi);
        MakeQuadColWithin(st.q, st.r, st.qp, st.rp, subs, lo, hi);
        assert cols[i] == MakeQuadCol(st.q, st.r, st.qp, st.rp, subs);
      }
    }
  }
}
