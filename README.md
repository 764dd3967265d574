# Procedural mesh generators, modelled in Dafny

This project models the geometry core of a small OpenGL course repository. That core
is the set of generators that fill an `ew::MeshData`. An `ew::MeshData` holds a vertex
list (position, normal, uv) and a triangle index list. The generators are:

- `ns::createSphere`: a latitude/longitude grid of `(n+1) x (n+1)` vertices.
- `ns::createCylinder`: a top center vertex, four rings of `n+1` vertices (top cap, top
  side, bottom side, bottom cap) and a bottom center vertex. It also builds a top fan,
  a side strip and a bottom fan of triangles.
- `ns::createPlane`: an `(s+1) x (s+1)` vertex grid with two triangles per cell.
- `JSLib::createTerrain`: one vertex per pixel of a grey-scale height map and two
  triangles per square of neighbouring pixels. Smooth normals are built by adding the
  unit face normal of every triangle to its three corners and then normalising each
  vertex normal.

Each generator is a `method` that starts from an empty mesh. Like the C++ loops, it
appends vertices and indices. The methods are proved against specification functions
of the inputs: `PlaneVertices`, `CylinderIndices`, `TerrainMesh` and so on. Those
functions are built from the row-major grids and cell lists in module `Grid`. Lemmas
then state what the lists contain:

- counts;
- the vertex stored at each grid position;
- the winding of each triangle;
- that every index names a vertex;
- for the plane, the cross product of every face;
- for the terrain, the normal of every finished vertex as the normalised sum of the
  unit normals of the triangles around it.

Modules:

- `Mesh` (mesh.dfy): the `ew` value types, vector arithmetic, the mesh invariant
  `ValidMesh`, and the `Triples` predicate for triangle lists.
- `Grid` (grid.dfy): row-major point grids (`Points`) and cell lists (`Cells`), with
  index lemmas. Products are written with `Mul`, which is repeated addition.
- `ProcGen` (procgen.dfy): the sphere, cylinder and plane.
- `Terrain` (terrain.dfy): the height-map terrain.

Floats are modelled by `real`. `ew::PI`, `cos`, `sin` and `ew::Normalize` are not part
of this model. They are passed in as a `MathLib` value, and a lemma that needs a fact
about them, such as `cos 0 = 1`, takes that fact as a precondition.

The model follows the code as written:

- `createSphere` emits no indices (procGen.cpp:5-35).
- The plane and the terrain emit the same two triangles per cell, (bottomLeft,
  bottomRight, topRight) and (bottomLeft, topRight, topLeft), but in opposite order.
  The plane emits the first one first (procGen.cpp:197-203). The terrain emits the
  second one first (terrain.cpp:58-65).
- The cylinder's fan and side loops use the offsets written in the code. The top fan
  runs `i = 0 .. n` from vertex 1 around vertex 0. The side strip starts at vertex
  `n+1` with `columns = n+1`. The bottom fan starts at vertex `3n+1` around the last
  vertex `4n+5`. What these offsets reach is stated exactly: `CylinderTopFan`,
  `CylinderSide`, `CylinderBottomFan` and `CylinderIndexRange`.
- The bottom fan (procGen.cpp:159-165) lists its corners in the same order as the top
  fan (procGen.cpp:135-141): ring point, center, next ring point. So a bottom-cap
  triangle has the same cross product as the matching top-cap triangle
  (`CylinderBottomCapCross`). Its face points the same way as the top cap's, while
  its vertex normals are (0, -1, 0).

## Model

| member | source | states |
|---|---|---|
| ProcGen.CreateSphere | core/ns/procGen.cpp:5-35 | the vertex list is the (n+1) x (n+1) grid of sphere vertices in row-major order; no indices are emitted; the mesh is valid |
| ProcGen.AddSphereRow | core/ns/procGen.cpp:17-31 | the column loop appends the n+1 vertices of latitude row `row`, in column order; the indices are untouched |
| ProcGen.SphereVertexAt | core/ns/procGen.cpp:15-30 | vertex row*(n+1)+col exists; at phi = row*PI/n and theta = col*2PI/n its position is (r cos theta sin phi, r cos phi, r sin theta sin phi), its uv is (col/n, row/n), and its normal is the normalised position |
| ProcGen.SphereCounts | core/ns/procGen.cpp:15-17 | the sphere has (n+1)^2 vertices |
| ProcGen.SphereVertexRanges | core/ns/procGen.cpp:25-28 | every vertex has uv in the unit square and normal equal to Normalize(pos) |
| ProcGen.SphereOnSurface | core/ns/procGen.cpp:21-23 | when cos^2+sin^2 = 1, the vertex at (row, col) has squared distance radius^2 from the origin |
| ProcGen.SphereRadius | core/ns/procGen.cpp:15-32 | when cos^2+sin^2 = 1, every vertex in the list lies on the sphere of the given radius |
| ProcGen.SpherePoles | core/ns/procGen.cpp:10-23 | given the usual values of sin/cos at 0 and PI, row 0 sits at (0, r, 0) and row n at (0, -r, 0) for every column (the coincident pole vertices) |
| ProcGen.SphereSeam | core/ns/procGen.cpp:19-27 | column n repeats the position of column 0 but carries u = 1 instead of u = 0 |
| ProcGen.CreateCylinder | core/ns/procGen.cpp:37-168 | the vertices are top center, four rings and bottom center in emission order; the indices are top fan, side strip and bottom fan; the mesh is valid |
| ProcGen.CylinderRingsSplit | core/ns/procGen.cpp:47-131 | between the two centers the four rings form a 4 x (n+1) grid |
| ProcGen.AddRing | core/ns/procGen.cpp:55-124 | one ring loop appends the n+1 vertices of its ring; the indices are untouched |
| ProcGen.AddFan | core/ns/procGen.cpp:135-141 | a fan loop appends (start+i, center, start+i+1) for i = 0..n; the vertices are untouched |
| ProcGen.AddSideStrip | core/ns/procGen.cpp:144-156 | the side loop appends two triangles per column i < columns; the vertices are untouched |
| ProcGen.CylinderRingAt | core/ns/procGen.cpp:54-124 | vertex i of ring `ring` sits at 1 + ring*(n+1) + i |
| ProcGen.CylinderRingBands | core/ns/procGen.cpp:43-124 | ring vertex i lies at angle i*2PI/n on the circle, at topY for the two top rings and at bottomY for the two bottom rings; its normal is +Y (top cap), radial (sides) or -Y (bottom cap); u = (cos+1)/2; v = 1 on the top side ring and 0 on the bottom side ring |
| ProcGen.CylinderCenters | core/ns/procGen.cpp:47-131 | the first vertex is the top center (+Y) and the last vertex, 4n+5, is the bottom center (-Y) |
| ProcGen.CylinderCounts | core/ns/procGen.cpp:37-168 | 4(n+1)+2 vertices and 12(n+1) indices |
| ProcGen.CylinderIndexRange | core/ns/procGen.cpp:133-165 | every index is below 4n+3 or equals 4n+5: the indices never reach the last two bottom-cap ring vertices |
| ProcGen.CylinderTriples | core/ns/procGen.cpp:133-165 | the index list is a list of whole triangles whose corners lie in 0..4n+2 or are 4n+5 |
| ProcGen.CylinderGroups | core/ns/procGen.cpp:133-165 | the indices are top fan, side strip and bottom fan, with 3(n+1), 6(n+1) and 3(n+1) entries |
| ProcGen.FanAt | core/ns/procGen.cpp:137-141 | fan triangle i occupies positions 3i..3i+2 |
| ProcGen.SideAt | core/ns/procGen.cpp:146-156 | side quad i occupies positions 6i..6i+5 |
| ProcGen.CylinderTopFan | core/ns/procGen.cpp:135-141 | top fan triangle i is (1+i, 0, 2+i) |
| ProcGen.CylinderSide | core/ns/procGen.cpp:144-156 | side quad i follows the top fan and is (start, start+1, start+columns, start+1, start+columns+1, start+columns) with start = n+1+i |
| ProcGen.CylinderBottomFan | core/ns/procGen.cpp:159-165 | bottom fan triangle i follows the strip and is (3n+1+i, 4n+5, 3n+2+i) |
| ProcGen.TopCapCorners | core/ns/procGen.cpp:55-141 | for j < n, top fan triangle j joins top-cap ring points j and j+1 (normal +Y) around the top center |
| ProcGen.BottomCapCorners | core/ns/procGen.cpp:109-165 | for j+3 <= n, bottom fan triangle j+3 joins bottom-cap ring points j and j+1 (normal -Y) around the bottom center |
| ProcGen.CylinderTopCapCross | core/ns/procGen.cpp:55-141 | for j < n, top fan triangle j has the cross product CapCross(j) (the last triangle, (n+1, 0, n+2), reaches into the top side ring and is not covered) |
| ProcGen.CylinderBottomCapCross | core/ns/procGen.cpp:109-165 | for j+3 <= n, bottom fan triangle j+3 has the same cross product CapCross(j) as top fan triangle j: the bottom cap is wound like the top cap, so its faces point the same way while its vertex normals are -Y |
| ProcGen.CylinderValid | core/ns/procGen.cpp:133-165 | every index names one of the 4n+6 vertices, and the count is a multiple of 3 |
| ProcGen.CreatePlane | core/ns/procGen.cpp:170-208 | the vertices are the (s+1) x (s+1) plane grid; the indices are the s x s cells; the mesh is valid |
| ProcGen.AddPlaneVertices | core/ns/procGen.cpp:176-189 | the vertex loops append the whole grid row after row; the indices are untouched |
| ProcGen.AddPlaneVertexRow | core/ns/procGen.cpp:177-188 | the inner loop appends the s+1 vertices of one row |
| ProcGen.AddPlaneIndices | core/ns/procGen.cpp:192-205 | the index loops append every cell's six indices row after row; the vertices are untouched |
| ProcGen.AddPlaneIndexRow | core/ns/procGen.cpp:194-204 | the inner loop appends the two triangles of each cell of one row |
| ProcGen.PlaneCounts | core/ns/procGen.cpp:176-205 | (s+1)^2 vertices and 6s^2 indices |
| ProcGen.PlaneVertexAt | core/ns/procGen.cpp:176-187 | vertex row*(s+1)+col has position (width*col/s, 0, -height*row/s), normal +Y and uv (col/s, row/s) |
| ProcGen.PlaneVertexRanges | core/ns/procGen.cpp:178-185 | every vertex has normal +Y, y = 0 and uv in the unit square; for non-negative sizes it lies in [0,width] x [-height,0] |
| ProcGen.PlaneCellAt | core/ns/procGen.cpp:193-203 | indices 6(row*s+col)..+5 are (start, start+1, start+columns+1, start, start+columns+1, start+columns) |
| ProcGen.PlaneValid | core/ns/procGen.cpp:192-205 | every index names one of the (s+1)^2 vertices |
| ProcGen.PlaneCorners | core/ns/procGen.cpp:195-203 | the four indices a cell uses are the grid points (row,col), (row,col+1), (row+1,col+1) and (row+1,col) |
| ProcGen.PlaneQuadCross | core/ns/procGen.cpp:179-203 | both corner orders of a cell give the cross product (0, (w/s)(h/s), 0) |
| ProcGen.PlaneFirstTriangle | core/ns/procGen.cpp:197-199 | the first triangle of every cell has cross product PlaneUp |
| ProcGen.PlaneSecondTriangle | core/ns/procGen.cpp:201-203 | the second triangle of every cell has cross product PlaneUp |
| ProcGen.PlaneFacesUp | core/ns/procGen.cpp:170-208 | every triangle of the plane has face cross product (0, (w/s)(h/s), 0): for positive sizes all faces point to +Y, matching the vertex normal |
| Terrain.TexelInBounds | core/JSLib/terrain.cpp:26-27 | every pixel the vertex loops visit is read inside the decoded buffer |
| Terrain.HeightRange | core/JSLib/terrain.cpp:18-30 | a grey level times 64/256 lies in [0, 63.75] |
| Terrain.CreateTerrain | core/JSLib/terrain.cpp:9-96 | the vertices are the sampled grid with accumulated then normalised normals; the indices are the (height-1) x (width-1) squares; the mesh is valid |
| Terrain.AddTerrainVertices | core/JSLib/terrain.cpp:21-40 | the vertex loops append one vertex per pixel, row after row |
| Terrain.AddTerrainVertexRow | core/JSLib/terrain.cpp:23-39 | the inner loop appends the vertices of one pixel row, reading byte (col + width*row)*components |
| Terrain.AddTerrainIndices | core/JSLib/terrain.cpp:47-67 | the index loops append every square's six indices; with fewer than two rows or columns they append none |
| Terrain.AddTerrainIndexRow | core/JSLib/terrain.cpp:49-66 | the inner loop appends the two triangles of each square of one row |
| Terrain.AccumulateNormals | core/JSLib/terrain.cpp:70-88 | after the loop, every vertex normal has been increased by the sum of the unit normals of the triangles that have it as a corner |
| Terrain.AccumulateFace | core/JSLib/terrain.cpp:72-87 | one pass on triangle t takes the sums over t triangles to the sums over t+1 |
| Terrain.AddFaceNormal | core/JSLib/terrain.cpp:78-87 | the loop body adds Normalize(Cross(v1, v2)) to the three corners in turn |
| Terrain.AccumulatedNone | core/JSLib/terrain.cpp:70 | before the first triangle nothing has been added |
| Terrain.AccumulatedStep | core/JSLib/terrain.cpp:73-87 | the face normal computed from the partially updated vertices equals the one from the original positions, and three `+=` give the next accumulation state |
| Terrain.BumpThreeAt | core/JSLib/terrain.cpp:85-87 | three `+=` of the same normal add to vertex v the normal once per corner equal to v |
| Terrain.NormalizeNormals | core/JSLib/terrain.cpp:90-93 | every normal is replaced by its normalised value and nothing else changes |
| Terrain.TerrainCounts | core/JSLib/terrain.cpp:21-67 | width*height vertices and 6(width-1)(height-1) indices |
| Terrain.TerrainVertexAt | core/JSLib/terrain.cpp:21-38 | vertex row*width+col comes from pixel (row, col), at x = -height/2+row, y = its scaled grey level, z = -width/2+col, with uv (col/height, row/width) |
| Terrain.TerrainHeights | core/JSLib/terrain.cpp:29-33 | every sampled vertex has height in [0, 63.75] and a zero normal before accumulation |
| Terrain.TerrainCellAt | core/JSLib/terrain.cpp:47-65 | indices 6(row*(width-1)+col)..+5 are bottomLeft, topRight, topLeft, bottomLeft, bottomRight, topRight of square (row, col) |
| Terrain.TerrainCellBelow | core/JSLib/terrain.cpp:52-55 | both triangles of a square name pixels of the image |
| Terrain.TerrainValid | core/JSLib/terrain.cpp:47-67 | every index names one of the width*height vertices, and the count is a multiple of 3 |
| Terrain.SquareCross | core/JSLib/terrain.cpp:58-82 | the two triangles of a unit square with corner heights y0..y3 have cross products with y-component 1, so they are counter-clockwise seen from above |
| Terrain.TerrainResult | core/JSLib/terrain.cpp:29-93 | finished vertex k keeps its sampled position and uv, and its normal is Normalize of the sum of the unit normals of the triangles around it |

## Left out

- Floating point is modelled by exact reals. Rounding and `NaN` are not modelled. So is C++ `int` overflow of the loop counters and of `row * width + col`.
- `ew::PI`, `cos`, `sin` and `ew::Normalize` are not part of this model. They are the fields of a `MathLib` parameter. Facts about them (sin 0 = 0, cos^2 + sin^2 = 1) appear only as lemma preconditions.
- `stbi_load` and `stbi_image_free` (terrain.cpp:16, 42) are not part of this model. `CreateTerrain` takes the decoded image as an `Image` value instead of a file path. `ValidImage` states what a successful decode delivers. A failed decode (a null `data`) is not modelled; the source does not check for it.
- The `reserve` calls (procGen.cpp:40, 173) only affect capacity, not contents, and are left out.
- ProcGen.CreateSphere, ProcGen.CreateCylinder, ProcGen.CreatePlane: they require `numSegments >= 1` or `subdivisions >= 1`, because the source divides by that value without checking it. A zero or negative value is not modelled.
- Nested loops are split into an outer method and a method for one row (`AddPlaneVertexRow`, `AddTerrainIndexRow`, and so on). Accumulation uses a method per triangle (`AccumulateFace`). The order in which items are appended is the source's.
- Terrain.TerrainGrid: outside the image it yields a placeholder vertex. No lemma uses the placeholder, because the loops never reach those points.
- Terrain.TerrainIndices: the signed loop bounds `height - 1` and `width - 1` are modelled by `Span`, which is 0 for an empty dimension.
- Terrain.SquareCross: is stated over four corners with unit spacing. It is not instantiated on the terrain's vertex list for every square.
- ProcGen.BottomCapCorners: covers bottom fan triangles 3..n only. Triangles 0..2 of the bottom fan start at vertex 3n+1, which lies in the bottom side ring for n >= 2 (for n = 1 it is vertex 4, in the top side ring). Their indices are stated exactly by CylinderBottomFan, but no cross product is stated for them.
- The plane's `pos.y` is never assigned in the source. The model takes the zero a default-constructed `ew::Vertex` holds.
