/**
  The mesh generator: one pass over the grid that fills four preallocated typed
  arrays in place.

  - `vertices`: three floats per vertex, at slots `3 * iVertex .. 3 * iVertex + 2`;
  - `colors`: four floats per vertex, at slots `4 * iVertex .. 4 * iVertex + 3`;
  - `indicesLines`: four 16-bit indices per interior quad, appended at `iLines`;
  - `indicesTris`: six 16-bit indices per interior quad, appended at `iTris`.

  `Generate` is the loop both copies in the source share, parameterised by the
  ring and tube segment counts, the number of slices the `k` loop visits, the
  number of slices the buffers are sized for, the colour ramp and the position
  of a grid point (the trigonometric torus formula, left abstract).
  A typed array ignores a write past its end, and so does the model.
*/
module MeshGenerator {
  import opened Grid
  import opened ColorRamp
  import opened Topology

  datatype Vec3 = Vec3(x: real, y: real, z: real)

  function Component(v: Vec3, c: nat): real
  {
    if c == 0 then v.x else if c == 1 then v.y else v.z
  }

  function Channel(c: Rgba, s: nat): real
  {
    if s == 0 then c.r else if s == 1 then c.g else if s == 2 then c.b else c.a
  }

  /** Slot `t` of the position buffer: a coordinate of the vertex at address `t / 3`. */
  function PositionSlot(n: nat, m: nat, position: Point -> Vec3, t: nat): real
  {
    Component(position(Decode(n, m, t / 3)), t % 3)
  }

  /** Slot `t` of the colour buffer: a channel of the vertex at address `t / 4`. */
  function ColorSlot(n: nat, m: nat, ramp: Ramp, t: nat): real
    requires n >= 1
  {
    Channel(RampColor(ramp, Decode(n, m, t / 4).i, n), t % 4)
  }

  /** The position of grid point `p` occupies slots `3 * iVertex .. 3 * iVertex + 2`. */
  lemma PositionSlotAt(n: nat, m: nat, position: Point -> Vec3, p: Point, c: nat)
    requires InSlice(n, m, p) && c < 3
    ensures PositionSlot(n, m, position, 3 * Address(n, m, p) + c) == Component(position(p), c)
  {
    var t := 3 * Address(n, m, p) + c;
    assert t / 3 == Address(n, m, p) && t % 3 == c;
    DecodeAddress(n, m, p);
  }

  /** The colour of grid point `p` occupies slots `4 * iVertex .. 4 * iVertex + 3`. */
  lemma ColorSlotAt(n: nat, m: nat, ramp: Ramp, p: Point, c: nat)
    requires n >= 1 && InSlice(n, m, p) && c < 4
    ensures ColorSlot(n, m, ramp, 4 * Address(n, m, p) + c) == Channel(RampColor(ramp, p.i, n), c)
  {
    var t := 4 * Address(n, m, p) + c;
    assert t / 4 == Address(n, m, p) && t % 4 == c;
    DecodeAddress(n, m, p);
  }

  /** A vertex's colour depends on its ring position only, not on its slice or tube position. */
  lemma ColorDependsOnRingOnly(n: nat, m: nat, ramp: Ramp, p: Point, p': Point, c: nat)
    requires n >= 1 && InSlice(n, m, p) && InSlice(n, m, p') && p.i == p'.i && c < 4
    ensures ColorSlot(n, m, ramp, 4 * Address(n, m, p) + c) == ColorSlot(n, m, ramp, 4 * Address(n, m, p') + c)
  {
    ColorSlotAt(n, m, ramp, p, c);
    ColorSlotAt(n, m, ramp, p', c);
  }

  /**
    With buffers sized for `capacity` slices, every write of a pass with
    `k >= capacity` falls past the end of its buffer; the line and triangle
    counters reach the buffer lengths exactly when the pass `k = capacity` starts.
  */
  lemma PassBeyondCapacityDropped(n: nat, m: nat, capacity: nat, p: Point)
    requires n >= 1 && InSlice(n, m, p) && p.k >= capacity
    ensures 3 * Address(n, m, p) >= 3 * (capacity * VertexCount(n, m))
    ensures 4 * Address(n, m, p) >= 4 * (capacity * VertexCount(n, m))
    ensures 4 * QuadsBefore(n, m, p) >= 4 * (capacity * QuadCount(n, m))
    ensures 6 * QuadsBefore(n, m, p) >= 6 * (capacity * QuadCount(n, m))
    ensures QuadsBefore(n, m, Point(capacity, 0, 0)) == capacity * QuadCount(n, m)
  {
    AddressInSlice(n, m, p);
    QuadsBeforeInSlice(n, m, p);
    MulMono(capacity, p.k, VertexCount(n, m));
    MulMono(capacity, p.k, QuadCount(n, m));
    SliceStart(n, m, capacity);
  }

  /**
    The lofted copy's position of grid point `p`: the torus position of its ring
    and tube position, with `x` scaled by `k * 0.1`.
  */
  function LoftPosition(torus: Point -> Vec3, p: Point): Vec3
  {
    var v := torus(Point(0, p.i, p.j));
    Vec3(v.x * (p.k as real) * 0.1, v.y, v.z)
  }

  function Lofted(torus: Point -> Vec3): Point -> Vec3
  {
    p => LoftPosition(torus, p)
  }

  /**
    The slices of the lofted copy are the same torus stretched along `x`: slice 10
    is the torus itself, slice 0 is flattened onto the plane `x = 0`, every slice
    has the `x` of slice 10 scaled by `k / 10`, and `y` and `z` are the same on
    every slice.
  */
  lemma LoftSlices(torus: Point -> Vec3, i: nat, j: nat, k: nat, k': nat)
    ensures Lofted(torus)(Point(10, i, j)) == torus(Point(0, i, j))
    ensures Lofted(torus)(Point(0, i, j)).x == 0.0
    ensures 10.0 * Lofted(torus)(Point(k, i, j)).x == (k as real) * Lofted(torus)(Point(10, i, j)).x
    ensures Lofted(torus)(Point(k, i, j)).y == Lofted(torus)(Point(k', i, j)).y
    ensures Lofted(torus)(Point(k, i, j)).z == Lofted(torus)(Point(k', i, j)).z
  {
  }

  // ---------------------------------------------------------------------
  // Typed-array stores

  /** `a[idx] = x` on a `Float32Array` (modelled without rounding): ignored past the end. */
  method StoreFloat(a: array<real>, idx: nat, x: real)
    modifies a
    ensures forall t :: 0 <= t < a.Length ==> a[t] == if t == idx then x else old(a[t])
  {
    if idx < a.Length {
      a[idx] := x;
    }
  }

  /** `a[idx] = x` on a `Uint16Array`: the value is kept modulo 2^16, ignored past the end. */
  method StoreIndex(a: array<uint16>, idx: nat, x: int)
    modifies a
    ensures forall t :: 0 <= t < a.Length ==> a[t] == if t == idx then ToUint16(x) else old(a[t])
  {
    if idx < a.Length {
      a[idx] := ToUint16(x);
    }
  }

  // ---------------------------------------------------------------------
  // The generator

  /** The position buffer holds the first `done` vertices and zeros after them. */
  ghost predicate PositionsFilled(n: nat, m: nat, position: Point -> Vec3, vertices: array<real>, done: nat)
    reads vertices
  {
    forall t :: 0 <= t < vertices.Length ==>
      vertices[t] == if t < 3 * done then PositionSlot(n, m, position, t) else 0.0
  }

  /** The colour buffer holds the first `done` vertices and zeros after them. */
  ghost predicate ColorsFilled(n: nat, m: nat, ramp: Ramp, colors: array<real>, done: nat)
    requires n >= 1
    reads colors
  {
    forall t :: 0 <= t < colors.Length ==>
      colors[t] == if t < 4 * done then ColorSlot(n, m, ramp, t) else 0.0
  }

  /** The line buffer holds its first `iLines` entries and zeros after them. */
  ghost predicate LinesFilled(n: nat, m: nat, indicesLines: array<uint16>, iLines: nat)
    requires n >= 1 && m >= 1
    reads indicesLines
  {
    forall t :: 0 <= t < indicesLines.Length ==>
      indicesLines[t] == if t < iLines then ToUint16(LineEntry(n, m, t)) else 0
  }

  /** The triangle buffer holds its first `iTris` entries and zeros after them. */
  ghost predicate TrianglesFilled(n: nat, m: nat, indicesTris: array<uint16>, iTris: nat)
    requires n >= 1 && m >= 1
    reads indicesTris
  {
    forall t :: 0 <= t < indicesTris.Length ==>
      indicesTris[t] == if t < iTris then ToUint16(TriangleEntry(n, m, t)) else 0
  }

  ghost predicate Filled(n: nat, m: nat, ramp: Ramp, position: Point -> Vec3,
                         vertices: array<real>, colors: array<real>,
                         indicesLines: array<uint16>, indicesTris: array<uint16>,
                         done: nat, iLines: nat, iTris: nat)
    requires n >= 1 && m >= 1
    reads vertices, colors, indicesLines, indicesTris
  {
    PositionsFilled(n, m, position, vertices, done) &&
    ColorsFilled(n, m, ramp, colors, done) &&
    LinesFilled(n, m, indicesLines, iLines) &&
    TrianglesFilled(n, m, indicesTris, iTris)
  }

  /** Stores the position of grid point `p`, the next vertex in order. */
  method StorePosition(n: nat, m: nat, position: Point -> Vec3, vertices: array<real>, p: Point)
    requires InSlice(n, m, p)
    requires PositionsFilled(n, m, position, vertices, Address(n, m, p))
    modifies vertices
    ensures PositionsFilled(n, m, position, vertices, Address(n, m, p) + 1)
  {
    var iVertex := Address(n, m, p);
    var pos := position(p);
    StoreFloat(vertices, iVertex * 3, pos.x);
    StoreFloat(vertices, iVertex * 3 + 1, pos.y);
    StoreFloat(vertices, iVertex * 3 + 2, pos.z);
    forall t | 3 * iVertex <= t < 3 * iVertex + 3
      ensures PositionSlot(n, m, position, t) == Component(pos, t - 3 * iVertex)
    {
      PositionSlotAt(n, m, position, p, t - 3 * iVertex);
    }
  }

  /** Stores the colour of grid point `p`, the next vertex in order. */
  method StoreColor(n: nat, m: nat, ramp: Ramp, colors: array<real>, p: Point)
    requires n >= 1 && InSlice(n, m, p)
    requires ColorsFilled(n, m, ramp, colors, Address(n, m, p))
    modifies colors
    ensures ColorsFilled(n, m, ramp, colors, Address(n, m, p) + 1)
  {
    var iVertex := Address(n, m, p);
    var color := RampColor(ramp, p.i, n);
    StoreFloat(colors, iVertex * 4, color.r);
    StoreFloat(colors, iVertex * 4 + 1, color.g);
    StoreFloat(colors, iVertex * 4 + 2, color.b);
    StoreFloat(colors, iVertex * 4 + 3, 1.0);
    forall t | 4 * iVertex <= t < 4 * iVertex + 4
      ensures ColorSlot(n, m, ramp, t) == Channel(color, t - 4 * iVertex)
    {
      ColorSlotAt(n, m, ramp, p, t - 4 * iVertex);
    }
  }

  /**
    `indicesLines[iLines++] = x`, where `x` is index `s` of the quad closed at
    `p`, the entry the line buffer holds there.
  */
  method AppendLine(n: nat, m: nat, indicesLines: array<uint16>, iLines: nat, x: int,
                    ghost p: Point, ghost s: nat)
    returns (iLines': nat)
    requires IsQuadCorner(n, m, p) && s < 4
    requires iLines == 4 * QuadsBefore(n, m, p) + s && x == QuadLines(m, Address(n, m, p))[s]
    requires LinesFilled(n, m, indicesLines, iLines)
    modifies indicesLines
    ensures iLines' == iLines + 1
    ensures LinesFilled(n, m, indicesLines, iLines')
  {
    LineEntryAt(n, m, p, s);
    StoreIndex(indicesLines, iLines, x);
    iLines' := iLines + 1;
  }

  /**
    `indicesTris[iTris++] = x`, where `x` is index `s` of the quad closed at
    `p`, the entry the triangle buffer holds there.
  */
  method AppendTriangle(n: nat, m: nat, indicesTris: array<uint16>, iTris: nat, x: int,
                        ghost p: Point, ghost s: nat)
    returns (iTris': nat)
    requires IsQuadCorner(n, m, p) && s < 6
    requires iTris == 6 * QuadsBefore(n, m, p) + s && x == QuadTriangles(m, Address(n, m, p))[s]
    requires TrianglesFilled(n, m, indicesTris, iTris)
    modifies indicesTris
    ensures iTris' == iTris + 1
    ensures TrianglesFilled(n, m, indicesTris, iTris')
  {
    TriangleEntryAt(n, m, p, s);
    StoreIndex(indicesTris, iTris, x);
    iTris' := iTris + 1;
  }

  /** Appends the two grid edges of the quad closed at `p`. */
  method EmitLines(n: nat, m: nat, indicesLines: array<uint16>, p: Point, iLines: nat)
    returns (iLines': nat)
    requires IsQuadCorner(n, m, p) && iLines == 4 * QuadsBefore(n, m, p)
    requires LinesFilled(n, m, indicesLines, iLines)
    modifies indicesLines
    ensures iLines' == iLines + 4
    ensures LinesFilled(n, m, indicesLines, iLines')
  {
    var iVertex := Address(n, m, p);
    iLines' := AppendLine(n, m, indicesLines, iLines, iVertex - 1, p, 0);
    iLines' := AppendLine(n, m, indicesLines, iLines', iVertex, p, 1);
    iLines' := AppendLine(n, m, indicesLines, iLines', iVertex - (m + 1), p, 2);
    iLines' := AppendLine(n, m, indicesLines, iLines', iVertex, p, 3);
  }

  /** Appends the two triangles of the quad closed at `p`. */
  method EmitTriangles(n: nat, m: nat, indicesTris: array<uint16>, p: Point, iTris: nat)
    returns (iTris': nat)
    requires IsQuadCorner(n, m, p) && iTris == 6 * QuadsBefore(n, m, p)
    requires TrianglesFilled(n, m, indicesTris, iTris)
    modifies indicesTris
    ensures iTris' == iTris + 6
    ensures TrianglesFilled(n, m, indicesTris, iTris')
  {
    var iVertex := Address(n, m, p);
    iTris' := AppendTriangle(n, m, indicesTris, iTris, iVertex, p, 0);
    iTris' := AppendTriangle(n, m, indicesTris, iTris', iVertex - 1, p, 1);
    iTris' := AppendTriangle(n, m, indicesTris, iTris', iVertex - (m + 1), p, 2);
    iTris' := AppendTriangle(n, m, indicesTris, iTris', iVertex - 1, p, 3);
    iTris' := AppendTriangle(n, m, indicesTris, iTris', iVertex - (m + 1) - 1, p, 4);
    iTris' := AppendTriangle(n, m, indicesTris, iTris', iVertex - (m + 1), p, 5);
  }

  /**
    The body of the innermost loop at grid point `p`: store its position and
    colour, and at a quad corner (`j > 0 && i > 0`) append the quad's two lines
    and two triangles.
  */
  method VisitPoint(n: nat, m: nat, ramp: Ramp, position: Point -> Vec3,
                    vertices: array<real>, colors: array<real>,
                    indicesLines: array<uint16>, indicesTris: array<uint16>,
                    p: Point, iLines: nat, iTris: nat)
    returns (iLines': nat, iTris': nat)
    requires n >= 1 && m >= 1 && InSlice(n, m, p)
    requires vertices != colors && indicesLines != indicesTris
    requires iLines == 4 * QuadsBefore(n, m, p) && iTris == 6 * QuadsBefore(n, m, p)
    requires Filled(n, m, ramp, position, vertices, colors, indicesLines, indicesTris,
                    Address(n, m, p), iLines, iTris)
    modifies vertices, colors, indicesLines, indicesTris
    ensures iLines' == 4 * QuadsBefore(n, m, Point(p.k, p.i, p.j + 1))
    ensures iTris' == 6 * QuadsBefore(n, m, Point(p.k, p.i, p.j + 1))
    ensures Filled(n, m, ramp, position, vertices, colors, indicesLines, indicesTris,
                   Address(n, m, p) + 1, iLines', iTris')
  {
    StorePosition(n, m, position, vertices, p);
    StoreColor(n, m, ramp, colors, p);
    iLines', iTris' := iLines, iTris;
    if p.j > 0 && p.i > 0 {
      iLines' := EmitLines(n, m, indicesLines, p, iLines');
      iTris' := EmitTriangles(n, m, indicesTris, p, iTris');
    }
    QuadsBeforeStep(n, m, p);
  }

  /** The innermost loop: visits the grid points `j = 0 .. m` of ring `i` of slice `k`. */
  method VisitRow(n: nat, m: nat, ramp: Ramp, position: Point -> Vec3,
                  vertices: array<real>, colors: array<real>,
                  indicesLines: array<uint16>, indicesTris: array<uint16>,
                  k: nat, i: nat, iLines: nat, iTris: nat)
    returns (iLines': nat, iTris': nat)
    requires n >= 1 && m >= 1 && i <= n
    requires vertices != colors && indicesLines != indicesTris
    requires iLines == 4 * QuadsBefore(n, m, Point(k, i, 0)) && iTris == 6 * QuadsBefore(n, m, Point(k, i, 0))
    requires Filled(n, m, ramp, position, vertices, colors, indicesLines, indicesTris,
                    Address(n, m, Point(k, i, 0)), iLines, iTris)
    modifies vertices, colors, indicesLines, indicesTris
    ensures iLines' == 4 * QuadsBefore(n, m, Point(k, i + 1, 0))
    ensures iTris' == 6 * QuadsBefore(n, m, Point(k, i + 1, 0))
    ensures Filled(n, m, ramp, position, vertices, colors, indicesLines, indicesTris,
                   Address(n, m, Point(k, i + 1, 0)), iLines', iTris')
  {
    iLines', iTris' := iLines, iTris;
    for j := 0 to m + 1
      invariant iLines' == 4 * QuadsBefore(n, m, Point(k, i, j))
      invariant iTris' == 6 * QuadsBefore(n, m, Point(k, i, j))
      invariant Filled(n, m, ramp, position, vertices, colors, indicesLines, indicesTris,
                       Address(n, m, Point(k, i, j)), iLines', iTris')
    {
      iLines', iTris' := VisitPoint(n, m, ramp, position, vertices, colors, indicesLines, indicesTris,
                                    Point(k, i, j), iLines', iTris');
    }
    RowAndSliceEnds(n, m, k, i);
  }

  /** The ring loop: visits the rows `i = 0 .. n` of slice `k`. */
  method VisitSlice(n: nat, m: nat, ramp: Ramp, position: Point -> Vec3,
                    vertices: array<real>, colors: array<real>,
                    indicesLines: array<uint16>, indicesTris: array<uint16>,
                    k: nat, iLines: nat, iTris: nat)
    returns (iLines': nat, iTris': nat)
    requires n >= 1 && m >= 1
    requires vertices != colors && indicesLines != indicesTris
    requires iLines == 4 * QuadsBefore(n, m, Point(k, 0, 0)) && iTris == 6 * QuadsBefore(n, m, Point(k, 0, 0))
    requires Filled(n, m, ramp, position, vertices, colors, indicesLines, indicesTris,
                    Address(n, m, Point(k, 0, 0)), iLines, iTris)
    modifies vertices, colors, indicesLines, indicesTris
    ensures iLines' == 4 * QuadsBefore(n, m, Point(k + 1, 0, 0))
    ensures iTris' == 6 * QuadsBefore(n, m, Point(k + 1, 0, 0))
    ensures Filled(n, m, ramp, position, vertices, colors, indicesLines, indicesTris,
                   Address(n, m, Point(k + 1, 0, 0)), iLines', iTris')
  {
    iLines', iTris' := iLines, iTris;
    ghost var done: nat := Address(n, m, Point(k, 0, 0));
    for i := 0 to n + 1
      invariant done == Address(n, m, Point(k, i, 0))
      invariant iLines' == 4 * QuadsBefore(n, m, Point(k, i, 0))
      invariant iTris' == 6 * QuadsBefore(n, m, Point(k, i, 0))
      invariant Filled(n, m, ramp, position, vertices, colors, indicesLines, indicesTris, done, iLines', iTris')
    {
      iLines', iTris' := VisitRow(n, m, ramp, position, vertices, colors, indicesLines, indicesTris,
                                  k, i, iLines', iTris');
      done := Address(n, m, Point(k, i + 1, 0));
    }
    RowAndSliceEnds(n, m, k, n);
  }

  /**
    The `k` loop: visits slices `0 .. slices-1` of empty buffers, leaving them
    filled up to the first point of slice `slices`, with the counters at 4 and 6
    times its quad count.
  */
  method VisitSlices(n: nat, m: nat, ramp: Ramp, position: Point -> Vec3,
                     vertices: array<real>, colors: array<real>,
                     indicesLines: array<uint16>, indicesTris: array<uint16>,
                     slices: nat)
    returns (iLines: nat, iTris: nat)
    requires n >= 1 && m >= 1
    requires vertices != colors && indicesLines != indicesTris
    requires Filled(n, m, ramp, position, vertices, colors, indicesLines, indicesTris, 0, 0, 0)
    modifies vertices, colors, indicesLines, indicesTris
    ensures iLines == 4 * (slices * QuadCount(n, m)) && iTris == 6 * (slices * QuadCount(n, m))
    ensures Filled(n, m, ramp, position, vertices, colors, indicesLines, indicesTris,
                   slices * VertexCount(n, m), iLines, iTris)
  {
    iLines, iTris := 0, 0;
    ghost var done: nat := 0;
    SliceStart(n, m, 0);
    for k := 0 to slices
      invariant done == Address(n, m, Point(k, 0, 0))
      invariant iLines == 4 * QuadsBefore(n, m, Point(k, 0, 0))
      invariant iTris == 6 * QuadsBefore(n, m, Point(k, 0, 0))
      invariant Filled(n, m, ramp, position, vertices, colors, indicesLines, indicesTris, done, iLines, iTris)
    {
      iLines, iTris := VisitSlice(n, m, ramp, position, vertices, colors, indicesLines, indicesTris,
                                  k, iLines, iTris);
      done := Address(n, m, Point(k + 1, 0, 0));
    }
    SliceStart(n, m, slices);
  }

  /**
    The shared body of `createVertexData` and `createVertexData2`. The buffers are
    allocated for `capacity` slices and the `k` loop visits `slices` slices; every
    slot of a visited slice holds its vertex's position, colour or quad index, and
    every slot beyond what the loops reached keeps its initial zero.
  */
  method Generate(n: nat, m: nat, slices: nat, capacity: nat, ramp: Ramp, position: Point -> Vec3)
    returns (vertices: array<real>, colors: array<real>,
             indicesLines: array<uint16>, indicesTris: array<uint16>,
             iLines: nat, iTris: nat)
    requires n >= 1 && m >= 1
    ensures fresh(vertices) && fresh(colors) && fresh(indicesLines) && fresh(indicesTris)
    ensures vertices.Length == 3 * (capacity * VertexCount(n, m))
    ensures colors.Length == 4 * (capacity * VertexCount(n, m))
    ensures indicesLines.Length == 4 * (capacity * QuadCount(n, m))
    ensures indicesTris.Length == 6 * (capacity * QuadCount(n, m))
    ensures forall t :: 0 <= t < vertices.Length ==>
              vertices[t] == if t < 3 * (slices * VertexCount(n, m)) then PositionSlot(n, m, position, t) else 0.0
    ensures forall t :: 0 <= t < colors.Length ==>
              colors[t] == if t < 4 * (slices * VertexCount(n, m)) then ColorSlot(n, m, ramp, t) else 0.0
    ensures forall t :: 0 <= t < indicesLines.Length ==>
              indicesLines[t] == if t < 4 * (slices * QuadCount(n, m)) then ToUint16(LineEntry(n, m, t)) else 0
    ensures forall t :: 0 <= t < indicesTris.Length ==>
              indicesTris[t] == if t < 6 * (slices * QuadCount(n, m)) then ToUint16(TriangleEntry(n, m, t)) else 0
    ensures iLines == 4 * (slices * QuadCount(n, m)) && iTris == 6 * (slices * QuadCount(n, m))
  {
    vertices := new real[3 * (capacity * VertexCount(n, m))](_ => 0.0);
    colors := new real[4 * (capacity * VertexCount(n, m))](_ => 0.0);
    indicesLines := new uint16[4 * (capacity * QuadCount(n, m))](_ => 0);
    indicesTris := new uint16[6 * (capacity * QuadCount(n, m))](_ => 0);
    assert Filled(n, m, ramp, position, vertices, colors, indicesLines, indicesTris, 0, 0, 0);
    iLines, iTris := VisitSlices(n, m, ramp, position, vertices, colors, indicesLines, indicesTris, slices);
  }

  // ---------------------------------------------------------------------
  // The two instances in the source

  /**
    `createVertexData`: the flat torus with 64 ring and 32 tube segments, one
    slice (`torus` gives the position of a ring and tube position), coloured
    cyan-grey -> red -> cyan-grey along the ring. Every buffer is filled
    completely, and every index is a valid vertex offset that fits in 16 bits.
  */
  method CreateVertexData(torus: Point -> Vec3)
    returns (vertices: array<real>, colors: array<real>,
             indicesLines: array<uint16>, indicesTris: array<uint16>)
    ensures fresh(vertices) && fresh(colors) && fresh(indicesLines) && fresh(indicesTris)
    ensures vertices.Length == 3 * 2145 && colors.Length == 4 * 2145
    ensures indicesLines.Length == 4 * 2048 && indicesTris.Length == 6 * 2048
    ensures forall t :: 0 <= t < vertices.Length ==> vertices[t] == PositionSlot(64, 32, torus, t)
    ensures forall t :: 0 <= t < colors.Length ==>
              colors[t] == Channel(TorusColor(Decode(64, 32, t / 4).i, 64), t % 4)
    ensures forall t :: 0 <= t < indicesLines.Length ==>
              indicesLines[t] as int == LineEntry(64, 32, t) < 2145
    ensures forall t :: 0 <= t < indicesTris.Length ==>
              indicesTris[t] as int == TriangleEntry(64, 32, t) < 2145
  {
    var iLines, iTris;
    vertices, colors, indicesLines, indicesTris, iLines, iTris := Generate(64, 32, 1, 1, TorusRamp, torus);
    forall t | 0 <= t < colors.Length
      ensures colors[t] == Channel(TorusColor(Decode(64, 32, t / 4).i, 64), t % 4)
    {
      TorusRampIsSourceGradient(Decode(64, 32, t / 4).i, 64);
    }
    forall t | 0 <= t < indicesTris.Length
      ensures indicesTris[t] as int == TriangleEntry(64, 32, t) < 2145
      ensures t < indicesLines.Length ==> indicesLines[t] as int == LineEntry(64, 32, t) < 2145
    {
      IndexBounds(64, 32, 1, t);
    }
  }

  /**
    `createVertexData2`: the lofted torus with 24 ring and 3 tube segments,
    coloured lavender -> yellow -> lavender along the ring. The buffers are sized
    for 10 slices while the `k` loop visits 11: every write of the last pass falls
    past the end and is dropped, so the buffers hold exactly the 10-slice mesh,
    completely filled, with every index a valid offset into its 1000 vertices.
  */
  method CreateVertexData2(torus: Point -> Vec3)
    returns (vertices: array<real>, colors: array<real>,
             indicesLines: array<uint16>, indicesTris: array<uint16>)
    ensures fresh(vertices) && fresh(colors) && fresh(indicesLines) && fresh(indicesTris)
    ensures vertices.Length == 3 * 1000 && colors.Length == 4 * 1000
    ensures indicesLines.Length == 4 * 720 && indicesTris.Length == 6 * 720
    ensures forall t :: 0 <= t < vertices.Length ==> vertices[t] == PositionSlot(24, 3, Lofted(torus), t)
    ensures forall t :: 0 <= t < colors.Length ==>
              colors[t] == Channel(LoftColor(Decode(24, 3, t / 4).i, 24), t % 4)
    ensures forall t :: 0 <= t < indicesLines.Length ==>
              indicesLines[t] as int == LineEntry(24, 3, t) < 1000
    ensures forall t :: 0 <= t < indicesTris.Length ==>
              indicesTris[t] as int == TriangleEntry(24, 3, t) < 1000
  {
    var iLines, iTris;
    vertices, colors, indicesLines, indicesTris, iLines, iTris := Generate(24, 3, 11, 10, LoftRamp, Lofted(torus));
    forall t | 0 <= t < colors.Length
      ensures colors[t] == Channel(LoftColor(Decode(24, 3, t / 4).i, 24), t % 4)
    {
      LoftRampIsSourceGradient(Decode(24, 3, t / 4).i, 24);
    }
    forall t | 0 <= t < indicesTris.Length
      ensures indicesTris[t] as int == TriangleEntry(24, 3, t) < 1000
      ensures t < indicesLines.Length ==> indicesLines[t] as int == LineEntry(24, 3, t) < 1000
    {
      IndexBounds(24, 3, 10, t);
    }
  }

  /**
    The buffers of `createVertexData2` have no room for slice 10, the one at full
    scale: every slot of the position and colour buffers belongs to a vertex of
    slices 0 .. 9, and every stored index refers to one.
  */
  lemma LoftedBuffersMissLastSlice(t: nat)
    ensures t < 3 * 1000 ==> Decode(24, 3, t / 3).k < 10
    ensures t < 4 * 1000 ==> Decode(24, 3, t / 4).k < 10
    ensures t < 4 * 720 ==> Decode(24, 3, LineEntry(24, 3, t)).k < 10
    ensures t < 6 * 720 ==> Decode(24, 3, TriangleEntry(24, 3, t)).k < 10
  {
    AddressRange(24, 3, 10, t / 3);
    AddressRange(24, 3, 10, t / 4);
    IndexBounds(24, 3, 10, t);
    AddressRange(24, 3, 10, LineEntry(24, 3, t));
    AddressRange(24, 3, 10, TriangleEntry(24, 3, t));
  }

  /**
    `createVertexData2` with its buffers sized for the 11 slices its `k` loop
    visits: every slot is written, the indices stay below 1100 (well within 16
    bits), and slice 10 is stored (see `LoftedLastSliceIsTorus`).
  */
  method CreateVertexData2Corrected(torus: Point -> Vec3)
    returns (vertices: array<real>, colors: array<real>,
             indicesLines: array<uint16>, indicesTris: array<uint16>)
    ensures fresh(vertices) && fresh(colors) && fresh(indicesLines) && fresh(indicesTris)
    ensures vertices.Length == 3 * 1100 && colors.Length == 4 * 1100
    ensures indicesLines.Length == 4 * 792 && indicesTris.Length == 6 * 792
    ensures forall t :: 0 <= t < vertices.Length ==> vertices[t] == PositionSlot(24, 3, Lofted(torus), t)
    ensures forall t :: 0 <= t < colors.Length ==>
              colors[t] == Channel(LoftColor(Decode(24, 3, t / 4).i, 24), t % 4)
    ensures forall t :: 0 <= t < indicesLines.Length ==>
              indicesLines[t] as int == LineEntry(24, 3, t) < 1100
    ensures forall t :: 0 <= t < indicesTris.Length ==>
              indicesTris[t] as int == TriangleEntry(24, 3, t) < 1100
  {
    var iLines, iTris;
    vertices, colors, indicesLines, indicesTris, iLines, iTris := Generate(24, 3, 11, 11, LoftRamp, Lofted(torus));
    forall t | 0 <= t < colors.Length
      ensures colors[t] == Channel(LoftColor(Decode(24, 3, t / 4).i, 24), t % 4)
    {
      LoftRampIsSourceGradient(Decode(24, 3, t / 4).i, 24);
    }
    forall t | 0 <= t < indicesTris.Length
      ensures indicesTris[t] as int == TriangleEntry(24, 3, t) < 1100
      ensures t < indicesLines.Length ==> indicesLines[t] as int == LineEntry(24, 3, t) < 1100
    {
      IndexBounds(24, 3, 11, t);
    }
  }

  /**
    In buffers sized for 11 slices, the positions of slice 10 lie inside the
    vertex buffer and are those of the unscaled torus.
  */
  lemma LoftedLastSliceIsTorus(torus: Point -> Vec3, p: Point, c: nat)
    requires InSlice(24, 3, p) && p.k == 10 && c < 3
    ensures 3 * Address(24, 3, p) + c < 3 * 1100
    ensures PositionSlot(24, 3, Lofted(torus), 3 * Address(24, 3, p) + c)
         == Component(torus(Point(0, p.i, p.j)), c)
  {
    AddressInSlice(24, 3, p);
    PositionSlotAt(24, 3, Lofted(torus), p, c);
    LoftSlices(torus, p.i, p.j, p.k, p.k);
  }
}
