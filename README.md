# Torus mesh generator

This project models the two mesh generators of a small WebGL page, `createVertexData`
and `createVertexData2`. The first builds a torus. The second builds a "lofted" torus:
a stack of slices, each one the same torus with its `x` coordinate scaled by `k * 0.1`.

Both generators walk a grid of ring positions `i = 0 .. n` and tube positions
`j = 0 .. m`. The lofted one also walks slices `k`. At each grid point they fill four
preallocated typed arrays:

- `vertices`: three coordinates per vertex;
- `colors`: four channels per vertex, from a three-colour gradient along the ring;
- `indicesLines`: 16-bit indices, two grid edges per quad;
- `indicesTris`: 16-bit indices, two triangles per quad.

A quad is closed at every grid point with `i > 0` and `j > 0`.

The model has four modules.

- `Grid`: vertex addresses `iVertex = k*((m+1)*(n+1)) + i*(m+1) + j`, decoding them,
  and the numbering of quads in loop order.
- `ColorRamp`: the gradient as a general three-colour ramp. The two gradients of the
  source are written out literally and proved to be instances of it.
- `Topology`: the indices each quad appends, the `Uint16Array` conversion, and the
  closed forms `LineEntry` and `TriangleEntry` for every buffer entry.
- `MeshGenerator`: the generator loop as an imperative method over `array`s
  (`Generate`), and the two instances of the source.

`Generate` is proved to fill each buffer slot with what the closed-form functions say,
and the lemmas state the meaning of those functions:

- addresses and quad numbers are bijections onto the buffer ranges;
- every index is a valid vertex offset;
- lines are grid edges and triangles lie inside their quad;
- the seam is never closed;
- the colours follow the ramp.

Typed arrays silently ignore writes past their end, and the model does the same. So
the lofted copy, whose `k` loop visits 11 slices while its buffers hold 10, is modelled
as written: its last pass leaves no trace (see Findings).

## Model

| member | source | states |
|---|---|---|
| Grid.Address | script.js:263 | definition, no contract: `iVertex = k*((m+1)*(n+1)) + i*(m+1) + j` as at script.js:263 (script.js:110 is slice 0); its properties are stated by `DecodeAddress`, `AddressDecode`, `AddressInjective`, `AddressInSlice` and `AddressRange` |
| Grid.QuadsBefore | script.js:132-143 | definition, no contract: the number of quads emitted before grid point `p`, so `4*QuadsBefore(p)` and `6*QuadsBefore(p)` are the values of `iLines` and `iTris` (initialised at script.js:105-106 and 257-258) when the loops reach `p`; its properties are stated by `QuadCorner`, `QuadNumberCorner`, `QuadNumberRange`, `QuadsBeforeStep`, `QuadsBeforeInSlice`, `RowAndSliceEnds` and `SliceStart` |
| Grid.QuadCorner | script.js:132 | the `q`-th quad the loops emit has an interior corner (`1 <= i <= n`, `1 <= j <= m`) preceded by exactly `q` quads |
| Grid.AddressInSlice | script.js:263 | the addresses of slice `k` lie in `[k*(n+1)*(m+1), (k+1)*(n+1)*(m+1))` |
| Grid.DecodeAddress | script.js:110 | decoding the address `iVertex` of a grid point gives back that point |
| Grid.AddressDecode | script.js:263 | every address is the `iVertex` of the grid point it decodes to, and that point is in the grid |
| Grid.AddressInjective | script.js:263 | distinct grid points have distinct addresses, so no vertex slot is written twice |
| Grid.AddressRange | script.js:260-263 | an address is below `slices*(n+1)*(m+1)` exactly when its grid point lies in the first `slices` slices |
| Grid.QuadNumberCorner | script.js:284-296 | the quad closed at corner `p` is the `QuadsBefore(p)`-th one emitted, and numbering and corner lookup are inverse |
| Grid.QuadNumberRange | script.js:260-262 | a quad number is below `slices*n*m` exactly when its quad lies in the first `slices` slices |
| Grid.QuadsBeforeInSlice | script.js:260-263 | the quads emitted before a point of slice `k` include all `k*n*m` quads of the earlier slices |
| Grid.QuadCornerAddress | script.js:132-143 | at a quad corner (`i > 0 && j > 0`) the address is at least `(m+1) + 1`, so the smallest emitted index `iVertex - (m+1) - 1` is not negative |
| Grid.QuadCapacity | script.js:249-260 | the quads of the slices the `k` loop visits fit in index buffers allocated for `capacity` slices exactly when no more slices are visited than allocated |
| Grid.QuadsBeforeStep | script.js:132 | one innermost iteration advances the quad count by one exactly when `j > 0 && i > 0` |
| Grid.RowAndSliceEnds | script.js:260-262 | the address and quad count after a finished row or slice are those at the start of the next |
| Grid.SliceStart | script.js:263 | slice `k` starts at address `k*(n+1)*(m+1)` after `k*n*m` quads |
| ColorRamp.Progress | script.js:119 | definition, no contract: `progress = i / n` (also script.js:271); its properties are stated by `ProgressInUnit` and `ProgressBranch` |
| ColorRamp.RampColor | script.js:119-130 | the ramp colour is always opaque (alpha 1.0) |
| ColorRamp.ProgressInUnit | script.js:119 | on the ring (`0 <= i <= n`), `progress = i / n` lies in `[0, 1]` |
| ColorRamp.ProgressBranch | script.js:119-120 | the test `progress <= 0.5` with `progress = i / n` holds exactly when `2*i <= n` |
| ColorRamp.RampContinuous | script.js:120-129 | the lower and upper halves of the ramp both give the middle colour at progress 0.5 |
| ColorRamp.RampEndpoints | script.js:119-130 | ring 0 has the start colour, ring `n` the end colour, and ring `n/2` (for even `n`) the middle colour |
| ColorRamp.RampBounded | script.js:119-130 | each channel lies between start and middle on the first half of the ring and between middle and end on the second |
| ColorRamp.RampSymmetric | script.js:119-130 | a ramp that ends where it starts colours ring `i` like ring `n - i` |
| ColorRamp.TorusColor | script.js:119-130 | definition, no contract: the literal channel formulas of the torus gradient; its properties are stated by `TorusRampIsSourceGradient` and `TorusColorFacts` |
| ColorRamp.LoftColor | script.js:271-282 | definition, no contract: the literal channel formulas of the lofted gradient; its properties are stated by `LoftRampIsSourceGradient` and `LoftColorFacts` |
| ColorRamp.TorusRampIsSourceGradient | script.js:119-130 | the torus gradient, as the source computes it, is the ramp (0.5,0.9,0.9) to (1,0,0) to (0.5,0.9,0.9) |
| ColorRamp.LoftRampIsSourceGradient | script.js:271-281 | the lofted gradient, as the source computes it, is the ramp (0.5,0.5,0.9) to (1,1,0) to (0.5,0.5,0.9) |
| ColorRamp.TorusColorFacts | script.js:119-130 | torus colours are opaque, cyan-grey at both ends of the ring, pure red halfway, within channel bounds, and mirror-symmetric |
| ColorRamp.LoftColorFacts | script.js:271-282 | lofted colours are opaque, lavender at both ends of the ring, yellow halfway, within channel bounds, and mirror-symmetric |
| Topology.QuadLines | script.js:133-136 | definition, no contract: the four indices `[v-1, v, v-(m+1), v]` in the order they are appended; their properties are stated by `QuadCornersAddressed`, `LineEntryAt`, `LineEntryPoint`, `LineIsGridEdge`, `OpenSeam` and `QuadDecomposition` |
| Topology.QuadTriangles | script.js:138-143 | definition, no contract: the six indices `[v, v-1, v-(m+1), v-1, v-(m+1)-1, v-(m+1)]` in the order they are appended; their properties are stated by `QuadCornersAddressed`, `TriangleEntryAt`, `TriangleEntryPoint`, `TriangleInQuad`, `OpenSeam` and `QuadDecomposition` |
| Topology.ToUint16 | script.js:100-101 | a value stored in a `Uint16Array` is kept modulo 2^16, and unchanged when it is in `[0, 65536)` |
| Topology.QuadCornersAddressed | script.js:133-143 | the indices appended at a quad corner are the addresses of its corner, west, south and south-west neighbours |
| Topology.LineEntryAt | script.js:133-136 | entries `4q .. 4q+3` of the line buffer are the four indices appended at the `q`-th quad |
| Topology.TriangleEntryAt | script.js:138-143 | entries `6q .. 6q+5` of the triangle buffer are the six indices appended at the `q`-th quad |
| Topology.LineEntryPoint | script.js:133-136 | each line-buffer entry decodes to the corner of its quad that its position in the group names |
| Topology.TriangleEntryPoint | script.js:138-143 | each triangle-buffer entry decodes to the corner of its quad that its position in the group names |
| Topology.IndexBounds | script.js:132-143 | every entry of a full line or triangle buffer of `slices` slices is below `slices*(n+1)*(m+1)`, a valid vertex |
| Topology.LineIsGridEdge | script.js:133-136 | every line joins two neighbouring grid points of one slice, and ends at its quad's corner |
| Topology.TriangleInQuad | script.js:138-143 | every triangle lies in its quad, has three distinct corners, and all triangles turn the same way in the (i, j) plane |
| Topology.OpenSeam | script.js:132-143 | no line or triangle side joins one slice to another, ring `n` to ring 0 (for `n >= 2`), or tube position `m` to 0 (for `m >= 2`); with one segment those points are neighbours anyway |
| Topology.QuadDecomposition | script.js:132-143 | a quad is drawn as the two edges ending at its corner and as two triangles sharing the diagonal; together they cover exactly its four distinct corners |
| MeshGenerator.PositionSlotAt | script.js:115-117 | the position of grid point `p` is at slots `3*iVertex .. 3*iVertex+2` |
| MeshGenerator.ColorSlotAt | script.js:121-130 | the colour of grid point `p` is at slots `4*iVertex .. 4*iVertex+3` and is the ramp colour of its ring |
| MeshGenerator.ColorDependsOnRingOnly | script.js:119 | two vertices on the same ring have the same colour, whatever their slice or tube position |
| MeshGenerator.PassBeyondCapacityDropped | script.js:249-252 | every write of a pass `k >= capacity` falls past the end of its buffer, and the counters reach the buffer ends exactly when that pass starts |
| MeshGenerator.LoftPosition | script.js:264-266 | definition, no contract: the torus position of ring `i` and tube position `j` with `x` multiplied by `k * 0.1`; its properties are stated by `LoftSlices` and `LoftedLastSliceIsTorus` |
| MeshGenerator.LoftSlices | script.js:264-266 | slice 10 of the lofted torus is the torus itself, slice 0 is flat (`x = 0`), the `x` of slice `k` is `k/10` of the `x` of slice 10, and `y` and `z` are the same on every slice |
| MeshGenerator.StoreFloat | script.js:115-117 | a `Float32Array` store changes the addressed slot only, and nothing when the index is past the end |
| MeshGenerator.StoreIndex | script.js:133-143 | a `Uint16Array` store writes the value modulo 2^16 into the addressed slot only, and nothing past the end |
| MeshGenerator.StorePosition | script.js:115-117 | storing vertex `iVertex`'s position extends the filled prefix of the position buffer by one vertex |
| MeshGenerator.StoreColor | script.js:119-130 | storing vertex `iVertex`'s colour extends the filled prefix of the colour buffer by one vertex |
| MeshGenerator.AppendLine | script.js:133-136 | one `indicesLines[iLines++] = x` with the `s`-th index of the current quad extends the filled prefix of the line buffer by one entry |
| MeshGenerator.AppendTriangle | script.js:138-143 | one `indicesTris[iTris++] = x` with the `s`-th index of the current quad extends the filled prefix of the triangle buffer by one entry |
| MeshGenerator.EmitLines | script.js:133-136 | appending a quad's lines advances `iLines` by 4 and keeps the line buffer a filled prefix |
| MeshGenerator.EmitTriangles | script.js:138-143 | appending a quad's triangles advances `iTris` by 6 and keeps the triangle buffer a filled prefix |
| MeshGenerator.VisitPoint | script.js:263-296 | one innermost iteration extends the filled vertex prefix by one and advances `iLines` and `iTris` to the quad count of the next point |
| MeshGenerator.VisitRow | script.js:262-297 | the `j` loop over one ring fills the buffers up to the first point of the next ring, with the counters at that point's quad count |
| MeshGenerator.VisitSlice | script.js:261-298 | the `i` loop over one slice fills the buffers up to the first point of the next slice, with the counters at that point's quad count |
| MeshGenerator.VisitSlices | script.js:260-298 | the `k` loop over `slices` slices of empty buffers fills them up to the first point of slice `slices`, and ends with `iLines` and `iTris` at 4 and 6 times the quad count of those slices |
| MeshGenerator.Generate | script.js:249-299 | the buffers have the allocated lengths, each slot reached by the loops holds its closed-form value, each slot beyond them stays zero, and the counters `iLines` and `iTris` end at 4 and 6 times the quad count of the visited slices (with `QuadCapacity`: at or before the buffer ends exactly when no more slices are visited than allocated) |
| MeshGenerator.CreateVertexData | script.js:92-147 | all 6435 position and 8580 colour slots, 8192 line and 12288 triangle entries are filled, with every index below 2145 and stored without wrapping |
| MeshGenerator.CreateVertexData2 | script.js:243-300 | the buffers hold exactly the 10-slice mesh, completely filled, with every index below 1000; the eleventh pass leaves no trace |
| MeshGenerator.LoftedBuffersMissLastSlice | script.js:249-252 | every slot of the as-written lofted buffers belongs to slices 0 .. 9, and so does every vertex its indices refer to |
| MeshGenerator.CreateVertexData2Corrected | script.js:243-300 | with buffers for 11 slices, every slot holds the 11-slice mesh, with every index below 1100 |
| MeshGenerator.LoftedLastSliceIsTorus | script.js:264 | with buffers for 11 slices, slice 10 lies inside the vertex buffer and is the unscaled torus |

## Left out

- The WebGL context, shaders, buffer upload and drawing (script.js:1-90 and 149-241) are not modelled. They are I/O against the browser.
- The trigonometric torus formula (script.js:111-113, 264-266) is an abstract function `torus` of the ring and tube position. Only the lofted scaling of `x` by `k * 0.1` is modelled.
- `Float32Array` rounding and JavaScript floating point are idealised as exact reals. In particular, `progress = i / n` is exact, so `progress <= 0.5` is `2*i <= n`.
- The module-level globals `vertices`, `colors`, `indicesLines` and `indicesTris` (and their `2` counterparts) become fresh arrays returned by the methods.
- `Generate`, and every grid lemma that needs it, requires `n >= 1` and `m >= 1`. With `n = 0` the source divides by zero (`i / n` is NaN). With `m = 0` the source runs (one tube position, no quads, empty index buffers), but the closed forms `QuadCorner`, `LineEntry` and `TriangleEntry` number quads by dividing by `n*m` and `m`, so the model does not cover that degenerate grid. Both source instances use positive constants (64 x 32 and 24 x 3).
- Buffer lengths are written `3 * (capacity * (n+1)*(m+1))`, and the source writes `3 * (n+1) * (m+1) * 10`. These are the same integers.

## Findings

| source | as written | input that shows it | evidently intended | confidence | as-written member | corrected member |
|---|---|---|---|---|---|---|
| script.js:249-260 | the buffers are sized for 10 slices (`* 10`), but the loop `k <= 10` visits 11; every write of slice 10 falls past the end and is dropped | `createVertexData2()` itself: slice `k = 10`, whose `x` scale `k * 0.1` is 1, the unscaled torus, lands at `iVertex >= 1000`, past the 1000-vertex buffers | buffers sized for the 11 slices the loop visits, so that the stack ends in the full torus | medium, not executed | MeshGenerator.LoftedBuffersMissLastSlice | MeshGenerator.CreateVertexData2Corrected |
