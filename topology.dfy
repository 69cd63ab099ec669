/**
  The two index topologies the generator emits, one quad at a time.

  At every grid point `p` with `i > 0` and `j > 0` (address `v`) the generator
  closes the quad `{i-1, i} x {j-1, j}` and appends
  - to the line buffer the two grid edges `(v-1, v)` and `(v-(m+1), v)`;
  - to the triangle buffer the triangles `(v, v-1, v-(m+1))` and
    `(v-1, v-(m+1)-1, v-(m+1))`.
  Quads are numbered in the order they are reached (Grid.QuadsBefore), so entry `t`
  of the line buffer belongs to quad `t / 4` and entry `t` of the triangle buffer
  to quad `t / 6`. `LineEntry` and `TriangleEntry` give those entries in closed form.
*/
module Topology {
  import opened Grid

  /** The element type of a `Uint16Array`. */
  newtype uint16 = x: int | 0 <= x < 0x1_0000

  /** Storing an integer into a `Uint16Array` keeps it modulo 2^16. */
  function ToUint16(x: int): (r: uint16)
    ensures (r as int - x) % 0x1_0000 == 0
    ensures 0 <= x < 0x1_0000 ==> r as int == x
  {
    (x % 0x1_0000) as uint16
  }

  /** The indices appended to the line buffer at quad corner address `v`. */
  function QuadLines(m: nat, v: int): seq<int>
  {
    [v - 1, v, v - (m + 1), v]
  }

  /** The indices appended to the triangle buffer at quad corner address `v`. */
  function QuadTriangles(m: nat, v: int): seq<int>
  {
    [v, v - 1, v - (m + 1), v - 1, v - (m + 1) - 1, v - (m + 1)]
  }

  /** The grid points `QuadLines` refers to, for the quad closed at `p`. */
  function QuadLinePoints(p: Point): seq<Point>
    requires p.i >= 1 && p.j >= 1
  {
    [Point(p.k, p.i, p.j - 1), p, Point(p.k, p.i - 1, p.j), p]
  }

  /** The grid points `QuadTriangles` refers to, for the quad closed at `p`. */
  function QuadTrianglePoints(p: Point): seq<Point>
    requires p.i >= 1 && p.j >= 1
  {
    var west := Point(p.k, p.i, p.j - 1);
    var south := Point(p.k, p.i - 1, p.j);
    var southWest := Point(p.k, p.i - 1, p.j - 1);
    [p, west, south, west, southWest, south]
  }

  /** Entry `t` of the line buffer. */
  function LineEntry(n: nat, m: nat, t: nat): nat
    requires n >= 1 && m >= 1
  {
    var p := QuadCorner(n, m, t / 4);
    QuadCornerAddress(n, m, p);
    QuadLines(m, Address(n, m, p))[t % 4]
  }

  /** Entry `t` of the triangle buffer. */
  function TriangleEntry(n: nat, m: nat, t: nat): nat
    requires n >= 1 && m >= 1
  {
    var p := QuadCorner(n, m, t / 6);
    QuadCornerAddress(n, m, p);
    QuadTriangles(m, Address(n, m, p))[t % 6]
  }

  // ---------------------------------------------------------------------
  // Decoding the emitted indices

  /** The emitted indices are the addresses of the quad's corners. */
  lemma QuadCornersAddressed(n: nat, m: nat, p: Point)
    requires IsQuadCorner(n, m, p)
    ensures forall s :: 0 <= s < 4 ==> QuadLines(m, Address(n, m, p))[s] == Address(n, m, QuadLinePoints(p)[s])
    ensures forall s :: 0 <= s < 6 ==> QuadTriangles(m, Address(n, m, p))[s] == Address(n, m, QuadTrianglePoints(p)[s])
  {
    assert Address(n, m, Point(p.k, p.i - 1, p.j)) == Address(n, m, p) - (m + 1);
  }

  /** The line buffer holds, at `4 * QuadsBefore(p) + s`, the indices emitted at corner `p`. */
  lemma LineEntryAt(n: nat, m: nat, p: Point, s: nat)
    requires IsQuadCorner(n, m, p) && s < 4
    ensures LineEntry(n, m, 4 * QuadsBefore(n, m, p) + s) == QuadLines(m, Address(n, m, p))[s]
  {
    var t := 4 * QuadsBefore(n, m, p) + s;
    assert t / 4 == QuadsBefore(n, m, p) && t % 4 == s;
    QuadNumberCorner(n, m, p);
  }

  /** The triangle buffer holds, at `6 * QuadsBefore(p) + s`, the indices emitted at corner `p`. */
  lemma TriangleEntryAt(n: nat, m: nat, p: Point, s: nat)
    requires IsQuadCorner(n, m, p) && s < 6
    ensures TriangleEntry(n, m, 6 * QuadsBefore(n, m, p) + s) == QuadTriangles(m, Address(n, m, p))[s]
  {
    var t := 6 * QuadsBefore(n, m, p) + s;
    assert t / 6 == QuadsBefore(n, m, p) && t % 6 == s;
    QuadNumberCorner(n, m, p);
  }

  /** Re-deriving the grid point of a line-buffer entry gives a corner of its quad. */
  lemma LineEntryPoint(n: nat, m: nat, t: nat)
    requires n >= 1 && m >= 1
    ensures Decode(n, m, LineEntry(n, m, t)) == QuadLinePoints(QuadCorner(n, m, t / 4))[t % 4]
  {
    var p := QuadCorner(n, m, t / 4);
    QuadCornersAddressed(n, m, p);
    DecodeAddress(n, m, QuadLinePoints(p)[t % 4]);
  }

  /** Re-deriving the grid point of a triangle-buffer entry gives a corner of its quad. */
  lemma TriangleEntryPoint(n: nat, m: nat, t: nat)
    requires n >= 1 && m >= 1
    ensures Decode(n, m, TriangleEntry(n, m, t)) == QuadTrianglePoints(QuadCorner(n, m, t / 6))[t % 6]
  {
    var p := QuadCorner(n, m, t / 6);
    QuadCornersAddressed(n, m, p);
    DecodeAddress(n, m, QuadTrianglePoints(p)[t % 6]);
  }

  // ---------------------------------------------------------------------
  // Index bounds

  /**
    Every entry of a full line or triangle buffer of `slices` slices is a valid
    offset into the vertex buffer of the same slices.
  */
  lemma IndexBounds(n: nat, m: nat, slices: nat, t: nat)
    requires n >= 1 && m >= 1
    ensures t < 4 * (slices * QuadCount(n, m)) ==> LineEntry(n, m, t) < slices * VertexCount(n, m)
    ensures t < 6 * (slices * QuadCount(n, m)) ==> TriangleEntry(n, m, t) < slices * VertexCount(n, m)
  {
    LineEntryPoint(n, m, t);
    TriangleEntryPoint(n, m, t);
    QuadNumberRange(n, m, slices, t / 4);
    QuadNumberRange(n, m, slices, t / 6);
    AddressDecode(n, m, LineEntry(n, m, t));
    AddressDecode(n, m, TriangleEntry(n, m, t));
    AddressRange(n, m, slices, LineEntry(n, m, t));
    AddressRange(n, m, slices, TriangleEntry(n, m, t));
  }

  // ---------------------------------------------------------------------
  // Locality, the open seam and the quad decomposition

  /** Two grid points of the same slice that differ by one step along the ring or the tube. */
  predicate GridEdge(a: Point, b: Point)
  {
    a.k == b.k &&
    ((a.i == b.i && a.j + 1 == b.j) || (a.j == b.j && a.i + 1 == b.i))
  }

  /** Orientation of a triangle in the (i, j) parameter plane. */
  function Turn(a: Point, b: Point, c: Point): int
  {
    (b.i - a.i) * (c.j - a.j) - (b.j - a.j) * (c.i - a.i)
  }

  /** The two ends of line `e` (entries `2e`, `2e+1`). */
  function LineEnds(n: nat, m: nat, e: nat): (Point, Point)
    requires n >= 1 && m >= 1
  {
    (Decode(n, m, LineEntry(n, m, 2 * e)), Decode(n, m, LineEntry(n, m, 2 * e + 1)))
  }

  /** The three corners of triangle `e` (entries `3e`, `3e+1`, `3e+2`). */
  function TriangleCorners(n: nat, m: nat, e: nat): (Point, Point, Point)
    requires n >= 1 && m >= 1
  {
    (Decode(n, m, TriangleEntry(n, m, 3 * e)),
     Decode(n, m, TriangleEntry(n, m, 3 * e + 1)),
     Decode(n, m, TriangleEntry(n, m, 3 * e + 2)))
  }

  /** Every line joins two neighbouring grid points of one slice, ending at its quad's corner. */
  lemma LineIsGridEdge(n: nat, m: nat, e: nat)
    requires n >= 1 && m >= 1
    ensures GridEdge(LineEnds(n, m, e).0, LineEnds(n, m, e).1)
    ensures LineEnds(n, m, e).1 == QuadCorner(n, m, e / 2)
  {
    DivModUnique(2 * e, 4, e / 2, 2 * (e % 2));
    DivModUnique(2 * e + 1, 4, e / 2, 2 * (e % 2) + 1);
    LineEntryPoint(n, m, 2 * e);
    LineEntryPoint(n, m, 2 * e + 1);
  }

  /** Triangle `e` is the first or second triangle of quad `e / 2`. */
  lemma TriangleCornersOf(n: nat, m: nat, e: nat)
    requires n >= 1 && m >= 1
    ensures var pts := QuadTrianglePoints(QuadCorner(n, m, e / 2));
            var h := 3 * (e % 2);
            TriangleCorners(n, m, e) == (pts[h], pts[h + 1], pts[h + 2])
  {
    var h := 3 * (e % 2);
    DivModUnique(3 * e, 6, e / 2, h);
    DivModUnique(3 * e + 1, 6, e / 2, h + 1);
    DivModUnique(3 * e + 2, 6, e / 2, h + 2);
    var pts := QuadTrianglePoints(QuadCorner(n, m, e / 2));
    TriangleEntryPoint(n, m, 3 * e);
    TriangleEntryPoint(n, m, 3 * e + 1);
    TriangleEntryPoint(n, m, 3 * e + 2);
    assert Decode(n, m, TriangleEntry(n, m, 3 * e)) == pts[h];
    assert Decode(n, m, TriangleEntry(n, m, 3 * e + 1)) == pts[h + 1];
    assert Decode(n, m, TriangleEntry(n, m, 3 * e + 2)) == pts[h + 2];
  }

  /** The two triangles of a quad, in the parameter plane. */
  lemma QuadTrianglesShape(p: Point)
    requires p.i >= 1 && p.j >= 1
    ensures var pts := QuadTrianglePoints(p);
            forall h :: h in {0, 3} ==>
              var (a, b, c) := (pts[h], pts[h + 1], pts[h + 2]);
              a.k == b.k == c.k == p.k &&
              p.i - 1 <= a.i <= p.i && p.i - 1 <= b.i <= p.i && p.i - 1 <= c.i <= p.i &&
              p.j - 1 <= a.j <= p.j && p.j - 1 <= b.j <= p.j && p.j - 1 <= c.j <= p.j &&
              a != b && b != c && a != c &&
              Turn(a, b, c) == -1
  {
    var west := Point(p.k, p.i, p.j - 1);
    var south := Point(p.k, p.i - 1, p.j);
    var southWest := Point(p.k, p.i - 1, p.j - 1);
    assert Turn(p, west, south) == 0 * 0 - (-1) * (-1);
    assert Turn(west, southWest, south) == (-1) * 1 - 0 * (-1);
  }

  /**
    Every triangle lies in the quad `{i-1, i} x {j-1, j}` of one slice, has three
    distinct corners, and turns the same way in the parameter plane as every other.
  */
  lemma TriangleInQuad(n: nat, m: nat, e: nat)
    requires n >= 1 && m >= 1
    ensures var (a, b, c) := TriangleCorners(n, m, e);
            var p := QuadCorner(n, m, e / 2);
            a.k == b.k == c.k == p.k &&
            p.i - 1 <= a.i <= p.i && p.i - 1 <= b.i <= p.i && p.i - 1 <= c.i <= p.i &&
            p.j - 1 <= a.j <= p.j && p.j - 1 <= b.j <= p.j && p.j - 1 <= c.j <= p.j &&
            a != b && b != c && a != c &&
            Turn(a, b, c) == -1
  {
    TriangleCornersOf(n, m, e);
    QuadTrianglesShape(QuadCorner(n, m, e / 2));
    assert 3 * (e % 2) in {0, 3};
  }

  /**
    A pair of grid points that would close the seam: points of different slices,
    the first and last ring (when the ring has at least two segments, so that they
    are not neighbours anyway), or the first and last tube position (likewise).
  */
  predicate WrapsSeam(n: nat, m: nat, a: Point, b: Point)
  {
    a.k != b.k ||
    (n >= 2 && ((a.i == 0 && b.i == n) || (a.i == n && b.i == 0))) ||
    (m >= 2 && ((a.j == 0 && b.j == m) || (a.j == m && b.j == 0)))
  }

  /**
    The seam stays open: no line and no side of a triangle joins ring `n` to ring
    `0`, tube position `m` to tube position `0`, or one slice to another.
  */
  lemma OpenSeam(n: nat, m: nat, e: nat)
    requires n >= 1 && m >= 1
    ensures !WrapsSeam(n, m, LineEnds(n, m, e).0, LineEnds(n, m, e).1)
    ensures var (a, b, c) := TriangleCorners(n, m, e);
            !WrapsSeam(n, m, a, b) && !WrapsSeam(n, m, b, c) && !WrapsSeam(n, m, c, a)
  {
    LineIsGridEdge(n, m, e);
    TriangleInQuad(n, m, e);
  }

  /**
    The quad closed at corner `p` (address `v`) is drawn as its two grid edges that
    end at the corner, and as two triangles that share the side `{v-1, v-(m+1)}` and
    together cover exactly the quad's four distinct corners.
  */
  lemma QuadDecomposition(n: nat, m: nat, p: Point)
    requires IsQuadCorner(n, m, p)
    ensures var v := Address(n, m, p);
            var w := Address(n, m, Point(p.k, p.i, p.j - 1));
            var s := Address(n, m, Point(p.k, p.i - 1, p.j));
            var sw := Address(n, m, Point(p.k, p.i - 1, p.j - 1));
            var l := QuadLines(m, v);
            var t := QuadTriangles(m, v);
            (l[0], l[1]) == (w, v) && (l[2], l[3]) == (s, v) &&
            {t[0], t[1], t[2]} * {t[3], t[4], t[5]} == {w, s} &&
            {t[0], t[1], t[2]} + {t[3], t[4], t[5]} == {v, w, s, sw} &&
            |{v, w, s, sw}| == 4
  {
    var v := Address(n, m, p);
    var w, s, sw := v - 1, v - (m + 1), v - (m + 1) - 1;
    QuadCornersAddressed(n, m, p);
    assert Address(n, m, Point(p.k, p.i, p.j - 1)) == w;
    assert Address(n, m, Point(p.k, p.i - 1, p.j)) == s;
    assert Address(n, m, Point(p.k, p.i - 1, p.j - 1)) == sw;
    assert sw < s < w < v;
    assert |{v, w, s}| == 3;
  }
}
