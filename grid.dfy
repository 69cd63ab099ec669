/**
  Grid addressing of the torus mesh generator.

  The generator walks a (slices) x (n+1) x (m+1) grid in row-major order: slice `k`
  outermost, ring position `i` in the middle, tube position `j` innermost. Each
  grid point is stored at the flattened vertex address
  `k * ((m+1) * (n+1)) + i * (m+1) + j`; with a single slice (`k = 0`) this is the
  two-dimensional address `i * (m+1) + j`.

  Interior quads are the grid points with `i > 0` and `j > 0`; they are numbered
  in the order the loops reach them.
*/
module Grid {

  /** A grid point: slice `k`, ring position `i`, tube position `j`. */
  datatype Point = Point(k: nat, i: nat, j: nat)

  /** Number of grid points in one slice. */
  function VertexCount(n: nat, m: nat): nat
  {
    (n + 1) * (m + 1)
  }

  /** Number of interior quads in one slice. */
  function QuadCount(n: nat, m: nat): nat
  {
    n * m
  }

  predicate InSlice(n: nat, m: nat, p: Point)
  {
    p.i <= n && p.j <= m
  }

  predicate InGrid(n: nat, m: nat, slices: nat, p: Point)
  {
    p.k < slices && InSlice(n, m, p)
  }

  /** A grid point that closes a quad: the loops emit primitives there. */
  predicate IsQuadCorner(n: nat, m: nat, p: Point)
  {
    1 <= p.i <= n && 1 <= p.j <= m
  }

  /** The flattened vertex address `iVertex` of a grid point. */
  function Address(n: nat, m: nat, p: Point): nat
  {
    p.k * ((m + 1) * (n + 1)) + p.i * (m + 1) + p.j
  }

  /** Recovers the grid point from a vertex address. */
  function Decode(n: nat, m: nat, v: nat): Point
  {
    var r := v % VertexCount(n, m);
    Point(v / VertexCount(n, m), r / (m + 1), r % (m + 1))
  }

  /**
    The number of quads the loops have emitted before they reach grid point `p`:
    all quads of the earlier slices, the full rows `1 .. i-1` of the current slice
    and the quads `1 .. j-1` of the current row.
  */
  function QuadsBefore(n: nat, m: nat, p: Point): nat
  {
    p.k * QuadCount(n, m) +
    if p.i == 0 then 0 else (p.i - 1) * m + (if p.j == 0 then 0 else p.j - 1)
  }

  /**
    The corner grid point of the `q`-th emitted quad: an interior grid point that
    is preceded by exactly `q` quads.
  */
  function QuadCorner(n: nat, m: nat, q: nat): (p: Point)
    requires n >= 1 && m >= 1
    ensures IsQuadCorner(n, m, p)
    ensures QuadsBefore(n, m, p) == q
  {
    var r := q % QuadCount(n, m);
    DivBound(r, m, n);
    Point(q / QuadCount(n, m), r / m + 1, r % m + 1)
  }

  // ---------------------------------------------------------------------
  // Arithmetic helpers

  lemma MulMono(a: int, b: int, d: nat)
    requires a <= b
    ensures a * d <= b * d
  {
  }

  /** The quads of `slices` slices fit in room for `capacity` slices exactly when `slices <= capacity`. */
  lemma QuadCapacity(n: nat, m: nat, slices: nat, capacity: nat)
    requires n >= 1 && m >= 1
    ensures slices * QuadCount(n, m) <= capacity * QuadCount(n, m) <==> slices <= capacity
  {
    if slices <= capacity {
      MulMono(slices, capacity, QuadCount(n, m));
    } else {
      MulMono(1, n, m);
      MulMono(capacity + 1, slices, QuadCount(n, m));
    }
  }

  /** Euclidean division is determined by quotient and remainder. */
  lemma DivModUnique(a: int, d: int, q: int, r: int)
    requires d > 0 && 0 <= r < d && a == q * d + r
    ensures a / d == q && a % d == r
  {
    var q', r' := a / d, a % d;
    assert a == q' * d + r';
    if q' < q {
      MulMono(q' + 1, q, d);
    } else if q < q' {
      MulMono(q + 1, q', d);
    }
  }

  lemma DivBound(x: nat, d: nat, b: nat)
    requires d > 0 && x < b * d
    ensures x / d < b
  {
    if x / d >= b {
      MulMono(b, x / d, d);
    }
  }

  // ---------------------------------------------------------------------
  // Addressing

  /** Addresses of one slice occupy `[k * VertexCount, (k+1) * VertexCount)`. */
  lemma AddressInSlice(n: nat, m: nat, p: Point)
    requires InSlice(n, m, p)
    ensures p.k * VertexCount(n, m) <= Address(n, m, p) < (p.k + 1) * VertexCount(n, m)
  {
    MulMono(p.i, n, m + 1);
  }

  /** The quads before a grid point of slice `k` include all `k * n * m` quads of the earlier slices. */
  lemma QuadsBeforeInSlice(n: nat, m: nat, p: Point)
    ensures p.k * QuadCount(n, m) <= QuadsBefore(n, m, p)
  {
    if p.i > 0 {
      MulMono(0, p.i - 1, m);
    }
  }

  /** A quad corner has a full ring and one more point before it in its slice. */
  lemma QuadCornerAddress(n: nat, m: nat, p: Point)
    requires IsQuadCorner(n, m, p)
    ensures Address(n, m, p) >= (m + 1) + 1
  {
    MulMono(1, p.i, m + 1);
    MulMono(0, p.k, (m + 1) * (n + 1));
  }

  /** Decoding an address gives back the grid point it was computed from. */
  lemma DecodeAddress(n: nat, m: nat, p: Point)
    requires InSlice(n, m, p)
    ensures Decode(n, m, Address(n, m, p)) == p
  {
    var w := p.i * (m + 1) + p.j;
    MulMono(p.i, n, m + 1);
    DivModUnique(Address(n, m, p), VertexCount(n, m), p.k, w);
    DivModUnique(w, m + 1, p.i, p.j);
  }

  /** Every address is the address of the grid point it decodes to. */
  lemma AddressDecode(n: nat, m: nat, v: nat)
    ensures InSlice(n, m, Decode(n, m, v))
    ensures Address(n, m, Decode(n, m, v)) == v
  {
    var r := v % VertexCount(n, m);
    DivBound(r, m + 1, n + 1);
  }

  /** Distinct grid points get distinct addresses, so each vertex slot is written once. */
  lemma AddressInjective(n: nat, m: nat, p: Point, p': Point)
    requires InSlice(n, m, p) && InSlice(n, m, p')
    requires Address(n, m, p) == Address(n, m, p')
    ensures p == p'
  {
    DecodeAddress(n, m, p);
    DecodeAddress(n, m, p');
  }

  /** The addresses of a grid of `slices` slices are exactly `[0, slices * VertexCount)`. */
  lemma AddressRange(n: nat, m: nat, slices: nat, v: nat)
    ensures v < slices * VertexCount(n, m) <==> InGrid(n, m, slices, Decode(n, m, v))
  {
    AddressDecode(n, m, v);
    var p := Decode(n, m, v);
    AddressInSlice(n, m, p);
    if p.k < slices {
      MulMono(p.k + 1, slices, VertexCount(n, m));
    } else {
      MulMono(slices, p.k, VertexCount(n, m));
    }
  }

  // ---------------------------------------------------------------------
  // Quad numbering

  /** The quad closed at corner `p` is numbered `QuadsBefore(p)`. */
  lemma QuadNumberCorner(n: nat, m: nat, p: Point)
    requires IsQuadCorner(n, m, p)
    ensures QuadCorner(n, m, QuadsBefore(n, m, p)) == p
  {
    var w := (p.i - 1) * m + (p.j - 1);
    MulMono(p.i - 1, n - 1, m);
    assert w < n * m;
    assert QuadsBefore(n, m, p) == p.k * QuadCount(n, m) + w;
    DivModUnique(QuadsBefore(n, m, p), QuadCount(n, m), p.k, w);
    DivModUnique(w, m, p.i - 1, p.j - 1);
  }

  /** Quads of a grid of `slices` slices are numbered `[0, slices * QuadCount)`. */
  lemma QuadNumberRange(n: nat, m: nat, slices: nat, q: nat)
    requires n >= 1 && m >= 1
    ensures q < slices * QuadCount(n, m) <==> QuadCorner(n, m, q).k < slices
  {
    var r := q % QuadCount(n, m);
    var k := q / QuadCount(n, m);
    assert q == k * QuadCount(n, m) + r;
    if k < slices {
      MulMono(k + 1, slices, QuadCount(n, m));
    } else {
      MulMono(slices, k, QuadCount(n, m));
    }
  }

  /** One step of the innermost loop advances the quad count by one exactly at a quad corner. */
  lemma QuadsBeforeStep(n: nat, m: nat, p: Point)
    ensures QuadsBefore(n, m, Point(p.k, p.i, p.j + 1))
         == QuadsBefore(n, m, p) + (if p.i > 0 && p.j > 0 then 1 else 0)
  {
  }

  /** Finishing a row, and finishing a slice, leave the counts where the next one starts. */
  lemma RowAndSliceEnds(n: nat, m: nat, k: nat, i: nat)
    ensures QuadsBefore(n, m, Point(k, i, m + 1)) == QuadsBefore(n, m, Point(k, i + 1, 0))
    ensures Address(n, m, Point(k, i, m + 1)) == Address(n, m, Point(k, i + 1, 0))
    ensures QuadsBefore(n, m, Point(k, n + 1, 0)) == QuadsBefore(n, m, Point(k + 1, 0, 0))
    ensures Address(n, m, Point(k, n + 1, 0)) == Address(n, m, Point(k + 1, 0, 0))
  {
  }

  /** Slice `k` starts after `k` slices' worth of vertices and quads. */
  lemma SliceStart(n: nat, m: nat, k: nat)
    ensures Address(n, m, Point(k, 0, 0)) == k * VertexCount(n, m)
    ensures QuadsBefore(n, m, Point(k, 0, 0)) == k * QuadCount(n, m)
  {
  }
}
