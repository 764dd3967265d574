/** The height-map terrain generator: one vertex per pixel of a grey-scale image, two
    triangles per square of four neighbouring pixels, and smooth vertex normals obtained
    by adding up the unit face normals of the triangles around each vertex and
    normalising the sums. The image decoder's output is an input here. */
module Terrain {
  import opened Mesh
  import opened Grid

  newtype byte = x: int | 0 <= x < 256

  /** A decoded image: `height` rows of `width` pixels, `components` bytes per pixel,
      pixel (row, col) starting at byte (col + width * row) * components. */
  datatype Image = Image(width: nat, height: nat, components: nat, data: seq<byte>)

  /** What the decoder hands back: at least one byte per pixel and exactly
      width * height * components bytes (the product written with Mul). */
  predicate ValidImage(image: Image) {
    image.components >= 1 &&
    |image.data| == Mul(Mul(image.height, image.width), image.components)
  }

  /** ValidImage's length is the plain product width * height * components. */
  lemma ImageSize(image: Image)
    ensures Mul(Mul(image.height, image.width), image.components) == image.width * image.height * image.components
  {
    MulIsProduct(image.height, image.width);
    MulIsProduct(image.height * image.width, image.components);
  }

  /** 64 height units spread over the 256 byte values. */
  const YScale: real := 64.0 / 256.0

  /** Where the first byte of pixel (row, col) lies: (col + width * row) * components,
      written with Mul. */
  function TexelOffset(image: Image, row: nat, col: nat): nat {
    Mul(Mul(row, image.width) + col, image.components)
  }

  /** Every pixel the vertex loops visit is read inside the image buffer. */
  lemma TexelInBounds(image: Image, row: nat, col: nat)
    requires ValidImage(image) && row < image.height && col < image.width
    ensures TexelOffset(image, row, col) < |image.data|
  {
    var pixel := Mul(row, image.width) + col;
    MulBound(row, image.height, image.width, col);
    MulBound(pixel, Mul(image.height, image.width), image.components, 0);
  }

  /** The first byte of pixel (row, col): its grey level. */
  function Sample(image: Image, row: nat, col: nat): byte
    requires ValidImage(image) && row < image.height && col < image.width
  {
    TexelInBounds(image, row, col);
    image.data[TexelOffset(image, row, col)]
  }

  /** The height of pixel (row, col): its grey level scaled by YScale. */
  function Height(image: Image, row: nat, col: nat): real
    requires ValidImage(image) && row < image.height && col < image.width
  {
    Sample(image, row, col) as real * YScale
  }

  /** A grey level scaled to a height lies between 0 and 63.75. */
  lemma HeightRange(b: byte)
    ensures 0.0 <= b as real * YScale <= 63.75
  {
  }

  /** The vertex the loop body builds for pixel (row, col): x runs with the row from
      -height/2, z with the column from -width/2, y is the scaled grey level, the normal
      starts at zero, and the uv divides the column by the height and the row by the
      width. */
  function TerrainVertex(image: Image, row: nat, col: nat): Vertex
    requires ValidImage(image) && row < image.height && col < image.width
  {
    var h, w := image.height as real, image.width as real;
    Vertex(Vec3(-h / 2.0 + row as real, Height(image, row, col), -w / 2.0 + col as real),
           Zero, Vec2(col as real / h, row as real / w))
  }

  /** The pixel grid's vertices; outside the image, where the loops never reach, a
      placeholder. */
  function TerrainGrid(image: Image): (nat, nat) -> Vertex
    requires ValidImage(image)
  {
    (row: nat, col: nat) =>
      if row < image.height && col < image.width then TerrainVertex(image, row, col)
      else Vertex(Zero, Zero, Vec2(0.0, 0.0))
  }

  /** One vertex per pixel, row after row. */
  function TerrainVertices(image: Image): seq<Vertex>
    requires ValidImage(image)
  {
    Points(image.height, image.width, TerrainGrid(image))
  }

  /** The loop bound n - 1 of a signed counter: no iterations at all when n is 0. */
  function Span(n: nat): nat {
    if n == 0 then 0 else n - 1
  }

  /** The six indices of the square whose lower-left pixel is (row, col): with
      bottomLeft = row * width + col, topLeft = (row + 1) * width + col,
      topRight = topLeft + 1 and bottomRight = bottomLeft + 1, the triangles
      (bottomLeft, topRight, topLeft) and (bottomLeft, bottomRight, topRight). */
  function TerrainCell(width: nat, row: nat, col: nat): seq<nat> {
    var bottomLeft := Mul(row, width) + col;
    var topLeft := Mul(row + 1, width) + col;
    var topRight := Mul(row + 1, width) + col + 1;
    var bottomRight := Mul(row, width) + col + 1;
    [bottomLeft, topRight, topLeft, bottomLeft, bottomRight, topRight]
  }

  function TerrainCells(width: nat): (nat, nat) -> seq<nat> {
    (row: nat, col: nat) => TerrainCell(width, row, col)
  }

  lemma TerrainChunked(width: nat, rows: nat, cols: nat)
    ensures Chunked(rows, cols, 6, TerrainCells(width))
  {
  }

  /** The (height-1) x (width-1) squares, six indices each, row after row. */
  function TerrainIndices(image: Image): seq<nat> {
    Cells(Span(image.height), Span(image.width), TerrainCells(image.width))
  }

  /** The squares of one row of pixels. */
  function TerrainRowIndices(image: Image, row: nat): seq<nat> {
    CellRow(row, Span(image.width), TerrainCells(image.width))
  }

  // ---------------------------------------------------------------------------
  // Normals
  // ---------------------------------------------------------------------------

  /** The unit normal of triangle t: Normalize of the cross product of its two edges. */
  function FaceNormal(math: MathLib, vertices: seq<Vertex>, indices: seq<nat>, t: nat): Vec3
    requires 3 * t + 2 < |indices| && InBounds(indices, |vertices|)
  {
    math.normalize(FaceCross(vertices, indices, t))
  }

  /** What a triangle with corners a, b, c and unit normal `normal` adds to vertex v:
      the normal once for every corner that is v. */
  function Contribution(normal: Vec3, a: nat, b: nat, c: nat, v: nat): Vec3 {
    Add(Add(if a == v then normal else Zero, if b == v then normal else Zero), if c == v then normal else Zero)
  }

  /** The sum of the unit normals of triangles 0 .. t-1 over the corners that are v. */
  function NormalSum(math: MathLib, vertices: seq<Vertex>, indices: seq<nat>, t: nat, v: nat): Vec3
    requires 3 * t <= |indices| && InBounds(indices, |vertices|)
  {
    if t == 0 then Zero
    else
      var s := 3 * (t - 1);
      Add(NormalSum(math, vertices, indices, t - 1, v),
          Contribution(FaceNormal(math, vertices, indices, t - 1), indices[s], indices[s + 1], indices[s + 2], v))
  }

  /** `vertices[k].normal += normal`. */
  function Bump(vertices: seq<Vertex>, k: nat, normal: Vec3): (r: seq<Vertex>)
    requires k < |vertices|
    ensures |r| == |vertices|
  {
    vertices[k := vertices[k].(normal := Add(vertices[k].normal, normal))]
  }

  /** Three `+=` of the same normal on corners a, b, c add to vertex v its Contribution. */
  lemma BumpThreeAt(vertices: seq<Vertex>, a: nat, b: nat, c: nat, normal: Vec3, v: nat)
    requires a < |vertices| && b < |vertices| && c < |vertices| && v < |vertices|
    ensures Bump(Bump(Bump(vertices, a, normal), b, normal), c, normal)[v] ==
      vertices[v].(normal := Add(vertices[v].normal, Contribution(normal, a, b, c, v)))
  {
  }

  /** The vertices once triangles 0 .. t-1 have been handled: every normal increased by
      its NormalSum, everything else as it was. */
  function Accumulated(math: MathLib, vertices: seq<Vertex>, indices: seq<nat>, t: nat): (r: seq<Vertex>)
    requires 3 * t <= |indices| && InBounds(indices, |vertices|)
    ensures |r| == |vertices|
  {
    seq(|vertices|, v requires 0 <= v < |vertices| =>
      vertices[v].(normal := Add(vertices[v].normal, NormalSum(math, vertices, indices, t, v))))
  }

  /** Nothing is added before the first triangle. */
  lemma AccumulatedNone(math: MathLib, vertices: seq<Vertex>, indices: seq<nat>)
    requires InBounds(indices, |vertices|)
    ensures Accumulated(math, vertices, indices, 0) == vertices
  {
    var r := Accumulated(math, vertices, indices, 0);
    forall v | 0 <= v < |vertices|
      ensures r[v] == vertices[v]
    {
      assert Add(vertices[v].normal, Zero) == vertices[v].normal;
    }
  }

  /** One pass of the loop body on triangle t: its unit normal, computed from the
      current positions (which are still the original ones), added to its three corners
      one after the other, brings the sums from t to t+1 triangles. */
  lemma AccumulatedStep(math: MathLib, vertices: seq<Vertex>, indices: seq<nat>, t: nat,
                        current: seq<Vertex>, a: nat, b: nat, c: nat)
    requires 3 * t + 2 < |indices| && InBounds(indices, |vertices|)
    requires current == Accumulated(math, vertices, indices, t)
    requires a == indices[3 * t] && b == indices[3 * t + 1] && c == indices[3 * t + 2]
    ensures a < |current| && b < |current| && c < |current|
    ensures var normal := math.normalize(TriangleCross(current, a, b, c));
      Bump(Bump(Bump(current, a, normal), b, normal), c, normal) == Accumulated(math, vertices, indices, t + 1)
  {
    var face := FaceNormal(math, vertices, indices, t);
    assert current[a].pos == vertices[a].pos && current[b].pos == vertices[b].pos && current[c].pos == vertices[c].pos;
    TriangleCrossSame(current, vertices, a, b, c);
    assert math.normalize(TriangleCross(current, a, b, c)) == face;
    forall v | 0 <= v < |vertices|
      ensures Bump(Bump(Bump(current, a, face), b, face), c, face)[v] == Accumulated(math, vertices, indices, t + 1)[v]
    {
      AccumulatedStepAt(math, vertices, indices, t, v);
    }
  }

  /** AccumulatedStep at vertex v, with the face normal taken from the original positions. */
  lemma AccumulatedStepAt(math: MathLib, vertices: seq<Vertex>, indices: seq<nat>, t: nat, v: nat)
    requires 3 * t + 2 < |indices| && InBounds(indices, |vertices|) && v < |vertices|
    ensures var current := Accumulated(math, vertices, indices, t);
      var a, b, c := indices[3 * t], indices[3 * t + 1], indices[3 * t + 2];
      var face := FaceNormal(math, vertices, indices, t);
      Bump(Bump(Bump(current, a, face), b, face), c, face)[v] == Accumulated(math, vertices, indices, t + 1)[v]
  {
    var current := Accumulated(math, vertices, indices, t);
    var a, b, c := indices[3 * t], indices[3 * t + 1], indices[3 * t + 2];
    var face := FaceNormal(math, vertices, indices, t);
    var before := NormalSum(math, vertices, indices, t, v);
    var added := Contribution(face, a, b, c, v);
    BumpThreeAt(current, a, b, c, face, v);
    assert current[v] == vertices[v].(normal := Add(vertices[v].normal, before));
    assert NormalSum(math, vertices, indices, t + 1, v) == Add(before, added);
    assert Add(Add(vertices[v].normal, before), added) == Add(vertices[v].normal, Add(before, added));
  }

  /** The normalisation pass: every normal replaced by its normalised value. */
  function Normalized(math: MathLib, vertices: seq<Vertex>): (r: seq<Vertex>)
    ensures |r| == |vertices|
  {
    seq(|vertices|, k requires 0 <= k < |vertices| => vertices[k].(normal := math.normalize(vertices[k].normal)))
  }

  // ---------------------------------------------------------------------------
  // The generator
  // ---------------------------------------------------------------------------

  /** The finished terrain's vertex list: the sampled grid, with the accumulated
      normals normalised. */
  function TerrainMesh(math: MathLib, image: Image): seq<Vertex>
    requires ValidImage(image)
  {
    var vertices, indices := TerrainVertices(image), TerrainIndices(image);
    TerrainValid(image);
    Normalized(math, Accumulated(math, vertices, indices, |indices| / 3))
  }

  method CreateTerrain(math: MathLib, image: Image) returns (mesh: MeshData)
    requires ValidImage(image)
    ensures mesh.vertices == TerrainMesh(math, image)
    ensures mesh.indices == TerrainIndices(image)
    ensures ValidMesh(mesh)
  {
    ghost var vertices, indices := TerrainVertices(image), TerrainIndices(image);
    mesh := MeshData([], []);
    mesh := AddTerrainVertices(mesh, image);
    assert mesh.vertices == [] + vertices == vertices;
    mesh := AddTerrainIndices(mesh, image);
    assert mesh.indices == [] + indices == indices;
    TerrainValid(image);
    mesh := AccumulateNormals(math, mesh);
    ghost var accumulated := Accumulated(math, vertices, indices, |indices| / 3);
    assert mesh.vertices == accumulated;
    mesh := NormalizeNormals(math, mesh);
    assert mesh.vertices == Normalized(math, accumulated);
  }

  /** The vertex loops: the row loop outside, the column loop inside. */
  method AddTerrainVertices(mesh0: MeshData, image: Image) returns (mesh: MeshData)
    requires ValidImage(image)
    ensures mesh.vertices == mesh0.vertices + TerrainVertices(image)
    ensures mesh.indices == mesh0.indices
  {
    mesh := mesh0;
    ghost var f := TerrainGrid(image);
    for row := 0 to image.height
      invariant mesh.vertices == mesh0.vertices + Points(row, image.width, f)
      invariant mesh.indices == mesh0.indices
    {
      ghost var done, next := Points(row, image.width, f), PointRow(row, image.width, f);
      mesh := AddTerrainVertexRow(mesh, image, row);
      assert mesh0.vertices + done + next == mesh0.vertices + (done + next);
      assert Points(row + 1, image.width, f) == done + next;
    }
    assert Points(image.height, image.width, f) == TerrainVertices(image);
  }

  /** The inner vertex loop: one vertex per pixel of row `row`. */
  method AddTerrainVertexRow(mesh0: MeshData, image: Image, row: nat) returns (mesh: MeshData)
    requires ValidImage(image) && row < image.height
    ensures mesh.vertices == mesh0.vertices + PointRow(row, image.width, TerrainGrid(image))
    ensures mesh.indices == mesh0.indices
  {
    mesh := mesh0;
    ghost var f := TerrainGrid(image);
    for col := 0 to image.width
      invariant mesh.vertices == mesh0.vertices + PointRow(row, col, f)
      invariant mesh.indices == mesh0.indices
    {
      TexelInBounds(image, row, col);
      MulIsProduct(row, image.width);
      MulIsProduct(Mul(row, image.width) + col, image.components);
      var y := image.data[(col + image.width * row) * image.components];
      var vertex := Vertex(Vec3(-(image.height as real) / 2.0 + row as real, y as real * YScale,
                                -(image.width as real) / 2.0 + col as real),
                           Zero, Vec2(col as real / image.height as real, row as real / image.width as real));
      assert vertex == f(row, col);
      assert PointRow(row, col + 1, f) == PointRow(row, col, f) + [vertex];
      mesh := mesh.(vertices := mesh.vertices + [vertex]);
    }
  }

  /** The index loops: rows 0 .. height-2, columns 0 .. width-2. */
  method AddTerrainIndices(mesh0: MeshData, image: Image) returns (mesh: MeshData)
    ensures mesh.vertices == mesh0.vertices
    ensures mesh.indices == mesh0.indices + TerrainIndices(image)
  {
    mesh := mesh0;
    ghost var g := TerrainCells(image.width);
    for row := 0 to Span(image.height)
      invariant mesh.vertices == mesh0.vertices
      invariant mesh.indices == mesh0.indices + Cells(row, Span(image.width), g)
    {
      ghost var done, next := Cells(row, Span(image.width), g), CellRow(row, Span(image.width), g);
      mesh := AddTerrainIndexRow(mesh, image, row);
      assert mesh0.indices + done + next == mesh0.indices + (done + next);
      assert Cells(row + 1, Span(image.width), g) == done + next;
    }
  }

  /** The inner index loop: the two triangles of each square of one row. */
  method AddTerrainIndexRow(mesh0: MeshData, image: Image, row: nat) returns (mesh: MeshData)
    ensures mesh.vertices == mesh0.vertices
    ensures mesh.indices == mesh0.indices + TerrainRowIndices(image, row)
  {
    mesh := mesh0;
    var width := image.width;
    ghost var g := TerrainCells(width);
    for col := 0 to Span(width)
      invariant mesh.vertices == mesh0.vertices
      invariant mesh.indices == mesh0.indices + CellRow(row, col, g)
    {
      MulIsProduct(row, width);
      MulIsProduct(row + 1, width);
      var bottomLeft: nat := row * width + col;
      var topLeft: nat := (row + 1) * width + col;
      var topRight: nat := (row + 1) * width + col + 1;
      var bottomRight: nat := row * width + col + 1;
      assert g(row, col) == [bottomLeft, topRight, topLeft, bottomLeft, bottomRight, topRight];
      assert CellRow(row, col + 1, g) == CellRow(row, col, g) + g(row, col);
      mesh := mesh.(indices := mesh.indices + [bottomLeft, topRight, topLeft]);
      mesh := mesh.(indices := mesh.indices + [bottomLeft, bottomRight, topRight]);
    }
  }

  /** The accumulation loop: for each triangle, in order, its unit normal is added to
      the normals of its three corners. */
  method AccumulateNormals(math: MathLib, mesh0: MeshData) returns (mesh: MeshData)
    requires ValidMesh(mesh0)
    ensures mesh.vertices == Accumulated(math, mesh0.vertices, mesh0.indices, |mesh0.indices| / 3)
    ensures mesh.indices == mesh0.indices
  {
    mesh := mesh0;
    AccumulatedNone(math, mesh0.vertices, mesh0.indices);
    ghost var triangles := |mesh0.indices| / 3;
    assert |mesh0.indices| == 3 * triangles;
    var i := 0;
    ghost var t: nat := 0;
    while i < |mesh.indices|
      invariant i == 3 * t && t <= triangles
      invariant mesh.indices == mesh0.indices
      invariant mesh.vertices == Accumulated(math, mesh0.vertices, mesh0.indices, t)
    {
      var vertices := AccumulateFace(math, mesh0.vertices, mesh0.indices, t, mesh.vertices, i);
      mesh := mesh.(vertices := vertices);
      i, t := i + 3, t + 1;
    }
    assert t == triangles;
  }

  /** One pass of the accumulation loop, on triangle t starting at index i. */
  method AccumulateFace(math: MathLib, ghost vertices: seq<Vertex>, indices: seq<nat>, ghost t: nat,
                        current: seq<Vertex>, i: nat) returns (next: seq<Vertex>)
    requires i == 3 * t && i + 2 < |indices| && InBounds(indices, |vertices|)
    requires current == Accumulated(math, vertices, indices, t)
    ensures next == Accumulated(math, vertices, indices, t + 1)
  {
    var a, b, c := indices[i], indices[i + 1], indices[i + 2];
    AccumulatedStep(math, vertices, indices, t, current, a, b, c);
    next := AddFaceNormal(math, current, a, b, c);
  }

  /** The loop body: the unit normal of the triangle a, b, c added to each of its
      corners in turn. */
  method AddFaceNormal(math: MathLib, vertices0: seq<Vertex>, a: nat, b: nat, c: nat) returns (vertices: seq<Vertex>)
    requires a < |vertices0| && b < |vertices0| && c < |vertices0|
    ensures var normal := math.normalize(TriangleCross(vertices0, a, b, c));
      vertices == Bump(Bump(Bump(vertices0, a, normal), b, normal), c, normal)
  {
    var v1 := Sub(vertices0[b].pos, vertices0[a].pos);
    var v2 := Sub(vertices0[c].pos, vertices0[a].pos);
    var normal := math.normalize(Cross(v1, v2));
    vertices := vertices0;
    vertices := vertices[a := vertices[a].(normal := Add(vertices[a].normal, normal))];
    vertices := vertices[b := vertices[b].(normal := Add(vertices[b].normal, normal))];
    vertices := vertices[c := vertices[c].(normal := Add(vertices[c].normal, normal))];
  }

  /** The normalisation loop over all vertices. */
  method NormalizeNormals(math: MathLib, mesh0: MeshData) returns (mesh: MeshData)
    ensures mesh.vertices == Normalized(math, mesh0.vertices)
    ensures mesh.indices == mesh0.indices
  {
    mesh := mesh0;
    for i := 0 to |mesh.vertices|
      invariant |mesh.vertices| == |mesh0.vertices|
      invariant mesh.indices == mesh0.indices
      invariant forall k :: 0 <= k < i ==> mesh.vertices[k] == Normalized(math, mesh0.vertices)[k]
      invariant forall k :: i <= k < |mesh.vertices| ==> mesh.vertices[k] == mesh0.vertices[k]
    {
      mesh := mesh.(vertices := mesh.vertices[i := mesh.vertices[i].(normal := math.normalize(mesh.vertices[i].normal))]);
    }
  }

  // ---------------------------------------------------------------------------
  // Properties
  // ---------------------------------------------------------------------------

  /** width * height vertices and 6 (width-1)(height-1) indices. */
  lemma TerrainCounts(image: Image)
    requires ValidImage(image)
    ensures |TerrainVertices(image)| == image.width * image.height
    ensures |TerrainIndices(image)| == 6 * Span(image.width) * Span(image.height)
  {
    TerrainChunked(image.width, Span(image.height), Span(image.width));
    CellsLength(Span(image.height), Span(image.width), 6, TerrainCells(image.width));
    MulIsProduct(image.height, image.width);
    CellCount(Span(image.height), Span(image.width));
  }

  /** Row-major order: vertex row * width + col comes from pixel (row, col), at
      x = -height/2 + row, z = -width/2 + col, y = its grey level scaled by 64/256, with
      uv (col/height, row/width). */
  lemma TerrainVertexAt(image: Image, row: nat, col: nat)
    requires ValidImage(image) && row < image.height && col < image.width
    ensures var vertices := TerrainVertices(image);
      var k := Mul(row, image.width) + col;
      var h, w := image.height as real, image.width as real;
      k == row * image.width + col && k < |vertices| &&
      var vertex := vertices[k];
      vertex.pos == Vec3(-h / 2.0 + row as real, Height(image, row, col), -w / 2.0 + col as real) &&
      vertex.uv == Vec2(col as real / h, row as real / w)
  {
    PointAt(image.height, image.width, TerrainGrid(image), row, col);
    MulIsProduct(row, image.width);
  }

  /** Every sampled vertex has height between 0 and 63.75 and a zero normal. */
  lemma TerrainHeights(image: Image)
    requires ValidImage(image)
    ensures var vertices := TerrainVertices(image);
      forall k :: 0 <= k < |vertices| ==> 0.0 <= vertices[k].pos.y <= 63.75 && vertices[k].normal == Zero
  {
    var vertices := TerrainVertices(image);
    forall k | 0 <= k < |vertices|
      ensures 0.0 <= vertices[k].pos.y <= 63.75 && vertices[k].normal == Zero
    {
      var row, col := PointsAt(image.height, image.width, TerrainGrid(image), k);
      HeightRange(Sample(image, row, col));
    }
  }

  /** Winding: indices 6 (row * (width-1) + col) .. + 5 are, in this order,
      bottomLeft, topRight, topLeft, bottomLeft, bottomRight, topRight of the square
      with lower-left pixel (row, col). */
  lemma TerrainCellAt(image: Image, row: nat, col: nat)
    requires row < Span(image.height) && col < Span(image.width)
    ensures var indices := TerrainIndices(image);
      var width := image.width;
      var base := Mul(row, Mul(Span(width), 6)) + Mul(col, 6);
      var bottomLeft, topLeft := Mul(row, width) + col, Mul(row + 1, width) + col;
      var topRight, bottomRight := topLeft + 1, bottomLeft + 1;
      base == 6 * (row * Span(width) + col) &&
      bottomLeft == row * width + col && topLeft == (row + 1) * width + col &&
      base + 5 < |indices| &&
      indices[base] == bottomLeft && indices[base + 1] == topRight && indices[base + 2] == topLeft &&
      indices[base + 3] == bottomLeft && indices[base + 4] == bottomRight && indices[base + 5] == topRight
  {
    TerrainCellEntries(image, row, col);
    var cell := TerrainCell(image.width, row, col);
    assert cell == [cell[0], cell[1], cell[2], cell[3], cell[4], cell[5]];
    CellBase(Span(image.width), row, col);
    MulIsProduct(row, image.width);
    MulIsProduct(row + 1, image.width);
  }

  /** TerrainCellAt with every position written with Mul. */
  lemma TerrainCellEntries(image: Image, row: nat, col: nat)
    requires row < Span(image.height) && col < Span(image.width)
    ensures var indices := TerrainIndices(image);
      var base := Mul(row, Mul(Span(image.width), 6)) + Mul(col, 6);
      base + 5 < |indices| &&
      forall j :: 0 <= j < 6 ==> indices[base + j] == TerrainCell(image.width, row, col)[j]
  {
    var cols := Span(image.width);
    var g := TerrainCells(image.width);
    var a, b := Mul(row, Mul(cols, 6)), Mul(col, 6);
    TerrainChunked(image.width, Span(image.height), cols);
    CellAt(Span(image.height), cols, 6, g, row, col, 5);
    forall j | 0 <= j < 6
      ensures TerrainIndices(image)[a + b + j] == TerrainCell(image.width, row, col)[j]
    {
      CellAt(Span(image.height), cols, 6, g, row, col, j);
      assert a + (b + j) == a + b + j;
    }
  }

  /** Both triangles of a square name pixels of the image. */
  lemma TerrainCellBelow(image: Image, row: nat, col: nat)
    requires row < Span(image.height) && col < Span(image.width)
    ensures Triples(TerrainCell(image.width, row, col), Below(Mul(image.height, image.width)))
  {
    var width := image.width;
    var p := Below(Mul(image.height, width));
    var bottomLeft := Mul(row, width) + col;
    var topLeft := Mul(row + 1, width) + col;
    MulBound(row + 1, image.height, width, col + 1);
    TriplesPair<nat>(bottomLeft, topLeft + 1, topLeft, bottomLeft, bottomLeft + 1, topLeft + 1, p);
  }

  /** Every index names one of the width * height vertices. */
  lemma TerrainValid(image: Image)
    requires ValidImage(image)
    ensures InBounds(TerrainIndices(image), |TerrainVertices(image)|)
    ensures ValidMesh(MeshData(TerrainVertices(image), TerrainIndices(image)))
  {
    var p := Below(Mul(image.height, image.width));
    var g := TerrainCells(image.width);
    forall row: nat, col: nat | row < Span(image.height) && col < Span(image.width)
      ensures Triples(g(row, col), p)
    {
      TerrainCellBelow(image, row, col);
    }
    CellsTriples(Span(image.height), Span(image.width), g, p);
    TriplesValid(MeshData(TerrainVertices(image), TerrainIndices(image)));
  }

  /** Triangles t and t + 1 of a mesh, wound as the terrain winds the two triangles of
      a square, when the square's corners bottomLeft, bottomRight, topRight, topLeft
      lie one unit apart in x and z at heights y0, y1, y2, y3 (as TerrainVertexAt
      places the vertices of pixels (row, col), (row, col + 1), (row + 1, col + 1) and
      (row + 1, col)): both cross products have y-component 1, so the faces are wound
      counter-clockwise seen from above, and their x- and z-components are the height
      differences across the square. */
  lemma SquareCross(vertices: seq<Vertex>, indices: seq<nat>, t: nat,
                    bottomLeft: nat, bottomRight: nat, topRight: nat, topLeft: nat,
                    x: real, z: real, y0: real, y1: real, y2: real, y3: real)
    requires 3 * t + 5 < |indices| && InBounds(indices, |vertices|)
    requires indices[3 * t] == bottomLeft && indices[3 * t + 1] == topRight && indices[3 * t + 2] == topLeft
    requires indices[3 * t + 3] == bottomLeft && indices[3 * t + 4] == bottomRight && indices[3 * t + 5] == topRight
    requires vertices[bottomLeft].pos == Vec3(x, y0, z) && vertices[bottomRight].pos == Vec3(x, y1, z + 1.0)
    requires vertices[topRight].pos == Vec3(x + 1.0, y2, z + 1.0) && vertices[topLeft].pos == Vec3(x + 1.0, y3, z)
    ensures FaceCross(vertices, indices, t) == Vec3(y0 - y3, 1.0, y3 - y2)
    ensures FaceCross(vertices, indices, t + 1) == Vec3(y1 - y2, 1.0, y0 - y1)
  {
    assert 3 * (t + 1) == 3 * t + 3;
  }

  /** What the finished terrain holds at vertex k: the sampled position and uv, and as
      normal the normalised sum of the unit normals of the triangles around it. */
  lemma TerrainResult(math: MathLib, image: Image, k: nat)
    requires ValidImage(image) && k < |TerrainVertices(image)|
    ensures var vertices, indices := TerrainVertices(image), TerrainIndices(image);
      InBounds(indices, |vertices|) &&
      var result := TerrainMesh(math, image);
      k < |result| &&
      result[k].pos == vertices[k].pos && result[k].uv == vertices[k].uv &&
      result[k].normal == math.normalize(NormalSum(math, vertices, indices, |indices| / 3, k))
  {
    var vertices, indices := TerrainVertices(image), TerrainIndices(image);
    TerrainValid(image);
    var sum := NormalSum(math, vertices, indices, |indices| / 3, k);
    TerrainHeights(image);
    var accumulated := Accumulated(math, vertices, indices, |indices| / 3);
    assert accumulated[k] == vertices[k].(normal := Add(vertices[k].normal, sum));
    assert Add(Zero, sum) == sum;
  }
}
