/** The parametric generators of core/ns/procGen.cpp: a latitude/longitude sphere, a
    capped cylinder and a subdivided plane. Each one starts from an empty mesh and
    appends vertices and indices in counting loops; the methods below do the same, and
    their postconditions tie the result to the grids and bands of Grid and to the
    vertex each loop body builds. The lemmas say what those lists contain. */
module ProcGen {
  import opened Mesh
  import opened Grid

  // ---------------------------------------------------------------------------
  // Sphere
  // ---------------------------------------------------------------------------

  /** The polar angle of latitude row `row`: phi = row * (PI / n). */
  function SpherePhi(math: MathLib, numSegments: nat, row: nat): real
    requires numSegments >= 1
  {
    row as real * (math.pi / numSegments as real)
  }

  /** The azimuth of longitude column `col`: theta = col * (2 PI / n). */
  function SphereTheta(math: MathLib, numSegments: nat, col: nat): real
    requires numSegments >= 1
  {
    col as real * ((math.pi * 2.0) / numSegments as real)
  }

  /** The vertex the sphere's loop body builds at latitude row `row` and longitude
      column `col`. */
  function SphereVertex(math: MathLib, radius: real, numSegments: nat, row: nat, col: nat): Vertex
    requires numSegments >= 1
  {
    var n := numSegments as real;
    var phi := SpherePhi(math, numSegments, row);
    var theta := SphereTheta(math, numSegments, col);
    var pos := Vec3(radius * math.cos(theta) * math.sin(phi), radius * math.cos(phi),
                    radius * math.sin(theta) * math.sin(phi));
    Vertex(pos, math.normalize(pos), Vec2(col as real / n, row as real / n))
  }

  function SphereGrid(math: MathLib, radius: real, numSegments: nat): (nat, nat) -> Vertex
    requires numSegments >= 1
  {
    (row: nat, col: nat) => SphereVertex(math, radius, numSegments, row, col)
  }

  /** The (n+1) x (n+1) vertex grid, row after row. */
  function SphereVertices(math: MathLib, radius: real, numSegments: nat): seq<Vertex>
    requires numSegments >= 1
  {
    Points(numSegments + 1, numSegments + 1, SphereGrid(math, radius, numSegments))
  }

  /** The sphere generator fills the vertex grid and emits no indices at all. */
  method CreateSphere(math: MathLib, radius: real, numSegments: nat) returns (mesh: MeshData)
    requires numSegments >= 1
    ensures mesh.vertices == SphereVertices(math, radius, numSegments)
    ensures mesh.indices == []
    ensures ValidMesh(mesh)
  {
    mesh := MeshData([], []);
    ghost var f := SphereGrid(math, radius, numSegments);
    for row := 0 to numSegments + 1
      invariant mesh.vertices == Points(row, numSegments + 1, f)
      invariant mesh.indices == []
    {
      ghost var done, next := Points(row, numSegments + 1, f), PointRow(row, numSegments + 1, f);
      mesh := AddSphereRow(mesh, math, radius, numSegments, row);
      assert Points(row + 1, numSegments + 1, f) == done + next;
    }
  }

  /** The inner loop: the n+1 vertices of latitude row `row`. */
  method AddSphereRow(mesh0: MeshData, math: MathLib, radius: real, numSegments: nat, row: nat) returns (mesh: MeshData)
    requires numSegments >= 1
    ensures mesh.vertices == mesh0.vertices + PointRow(row, numSegments + 1, SphereGrid(math, radius, numSegments))
    ensures mesh.indices == mesh0.indices
  {
    mesh := mesh0;
    ghost var f := SphereGrid(math, radius, numSegments);
    for col := 0 to numSegments + 1
      invariant mesh.vertices == mesh0.vertices + PointRow(row, col, f)
      invariant mesh.indices == mesh0.indices
    {
      var vertex := SphereVertex(math, radius, numSegments, row, col);
      assert PointRow(row, col + 1, f) == PointRow(row, col, f) + [vertex];
      mesh := mesh.(vertices := mesh.vertices + [vertex]);
    }
  }

  /** Row-major order: vertex row * (n+1) + col is the one for (row, col): at
      phi = row * (PI / n), theta = col * (2 PI / n) it has position
      (r cos theta sin phi, r cos phi, r sin theta sin phi), uv (col/n, row/n) and the
      normalised position as its normal. */
  lemma SphereVertexAt(math: MathLib, radius: real, numSegments: nat, row: nat, col: nat)
    requires numSegments >= 1 && row <= numSegments && col <= numSegments
    ensures var vertices := SphereVertices(math, radius, numSegments);
      var k := row * (numSegments + 1) + col;
      k < |vertices| && vertices[k] == SphereVertex(math, radius, numSegments, row, col)
    ensures var v := SphereVertex(math, radius, numSegments, row, col);
      var phi, theta := SpherePhi(math, numSegments, row), SphereTheta(math, numSegments, col);
      v.pos == Vec3(radius * math.cos(theta) * math.sin(phi), radius * math.cos(phi),
                    radius * math.sin(theta) * math.sin(phi)) &&
      v.uv == Vec2(col as real / numSegments as real, row as real / numSegments as real) &&
      v.normal == math.normalize(v.pos)
  {
    MulIsProduct(row, numSegments + 1);
    PointAt(numSegments + 1, numSegments + 1, SphereGrid(math, radius, numSegments), row, col);
    SphereVertexFields(math, radius, numSegments, row, col);
  }

  /** The fields of the vertex built at (row, col), spelled out. */
  lemma SphereVertexFields(math: MathLib, radius: real, numSegments: nat, row: nat, col: nat)
    requires numSegments >= 1
    ensures var v := SphereVertex(math, radius, numSegments, row, col);
      var phi, theta := SpherePhi(math, numSegments, row), SphereTheta(math, numSegments, col);
      v.pos == Vec3(radius * math.cos(theta) * math.sin(phi), radius * math.cos(phi),
                    radius * math.sin(theta) * math.sin(phi)) &&
      v.uv == Vec2(col as real / numSegments as real, row as real / numSegments as real) &&
      v.normal == math.normalize(v.pos)
  {
  }

  /** (n+1)^2 vertices and no indices. */
  lemma SphereCounts(math: MathLib, radius: real, numSegments: nat)
    requires numSegments >= 1
    ensures |SphereVertices(math, radius, numSegments)| == (numSegments + 1) * (numSegments + 1)
  {
    MulIsProduct(numSegments + 1, numSegments + 1);
  }

  /** Every sphere vertex has its uv in the unit square and its normal equal to its
      normalised position. */
  lemma SphereVertexRanges(math: MathLib, radius: real, numSegments: nat)
    requires numSegments >= 1
    ensures var vertices := SphereVertices(math, radius, numSegments);
      forall k :: 0 <= k < |vertices| ==>
        0.0 <= vertices[k].uv.x <= 1.0 && 0.0 <= vertices[k].uv.y <= 1.0 &&
        vertices[k].normal == math.normalize(vertices[k].pos)
  {
    var columns := numSegments + 1;
    var vertices := SphereVertices(math, radius, numSegments);
    forall k | 0 <= k < |vertices|
      ensures 0.0 <= vertices[k].uv.x <= 1.0 && 0.0 <= vertices[k].uv.y <= 1.0
      ensures vertices[k].normal == math.normalize(vertices[k].pos)
    {
      var row, col := PointsAt(columns, columns, SphereGrid(math, radius, numSegments), k);
      UnitFraction(col, numSegments);
      UnitFraction(row, numSegments);
    }
  }

  /** Squared length of a vector. */
  function Norm2(v: Vec3): real {
    v.x * v.x + v.y * v.y + v.z * v.z
  }

  /** Every sphere vertex lies on the sphere of the given radius, whenever the cos and
      sin passed in satisfy cos^2 + sin^2 = 1. */
  lemma SphereOnSurface(math: MathLib, radius: real, numSegments: nat, row: nat, col: nat)
    requires numSegments >= 1
    requires forall x :: math.cos(x) * math.cos(x) + math.sin(x) * math.sin(x) == 1.0
    ensures Norm2(SphereVertex(math, radius, numSegments, row, col).pos) == radius * radius
  {
    var phi := SpherePhi(math, numSegments, row);
    var theta := SphereTheta(math, numSegments, col);
    var cp, sp, ct, st := math.cos(phi), math.sin(phi), math.cos(theta), math.sin(theta);
    assert cp * cp + sp * sp == 1.0 && ct * ct + st * st == 1.0;
    SquaredSum(radius, cp, sp, ct, st);
  }

  lemma SquaredSum(r: real, cp: real, sp: real, ct: real, st: real)
    requires cp * cp + sp * sp == 1.0 && ct * ct + st * st == 1.0
    ensures (r * ct * sp) * (r * ct * sp) + (r * cp) * (r * cp) + (r * st * sp) * (r * st * sp) == r * r
  {
    calc {
      (r * ct * sp) * (r * ct * sp) + (r * cp) * (r * cp) + (r * st * sp) * (r * st * sp);
      r * r * (sp * sp * (ct * ct + st * st) + cp * cp);
      r * r * (sp * sp + cp * cp);
      r * r;
    }
  }

  /** All sphere vertices lie on the sphere of the given radius. */
  lemma SphereRadius(math: MathLib, radius: real, numSegments: nat)
    requires numSegments >= 1
    requires forall x :: math.cos(x) * math.cos(x) + math.sin(x) * math.sin(x) == 1.0
    ensures var vertices := SphereVertices(math, radius, numSegments);
      forall k :: 0 <= k < |vertices| ==> Norm2(vertices[k].pos) == radius * radius
  {
    var columns := numSegments + 1;
    var vertices := SphereVertices(math, radius, numSegments);
    forall k | 0 <= k < |vertices|
      ensures Norm2(vertices[k].pos) == radius * radius
    {
      var row, col := PointsAt(columns, columns, SphereGrid(math, radius, numSegments), k);
      SphereOnSurface(math, radius, numSegments, row, col);
    }
  }

  /** n steps of PI / n make PI. */
  lemma WholeSteps(a: real, n: nat)
    requires n >= 1
    ensures n as real * (a / n as real) == a
  {
  }

  /** The first row is the pole phi = 0 and the last the pole phi = PI: when
      sin 0 = sin PI = 0, cos 0 = 1 and cos PI = -1, every vertex of row 0 sits at
      (0, radius, 0) and every vertex of row n at (0, -radius, 0). */
  lemma SpherePoles(math: MathLib, radius: real, numSegments: nat, col: nat)
    requires numSegments >= 1 && col <= numSegments
    requires math.sin(0.0) == 0.0 && math.cos(0.0) == 1.0
    requires math.sin(math.pi) == 0.0 && math.cos(math.pi) == -1.0
    ensures SphereVertex(math, radius, numSegments, 0, col).pos == Vec3(0.0, radius, 0.0)
    ensures SphereVertex(math, radius, numSegments, numSegments, col).pos == Vec3(0.0, -radius, 0.0)
  {
    WholeSteps(math.pi, numSegments);
    assert SpherePhi(math, numSegments, 0) == 0.0;
    assert SpherePhi(math, numSegments, numSegments) == math.pi;
  }

  /** The seam: column n repeats the position of column 0 (theta = 2 PI against
      theta = 0, when cos and sin agree there) but carries u = 1 instead of u = 0. */
  lemma SphereSeam(math: MathLib, radius: real, numSegments: nat, row: nat)
    requires numSegments >= 1
    requires math.cos(math.pi * 2.0) == math.cos(0.0) && math.sin(math.pi * 2.0) == math.sin(0.0)
    ensures var first := SphereVertex(math, radius, numSegments, row, 0);
      var last := SphereVertex(math, radius, numSegments, row, numSegments);
      last.pos == first.pos && first.uv.x == 0.0 && last.uv.x == 1.0
  {
    WholeSteps(math.pi * 2.0, numSegments);
    assert SphereTheta(math, numSegments, 0) == 0.0;
    assert SphereTheta(math, numSegments, numSegments) == math.pi * 2.0;
  }

  // ---------------------------------------------------------------------------
  // Cylinder
  // ---------------------------------------------------------------------------

  /** The four rings of n+1 vertices, in the order the generator emits them. */
  const TopCapRing: nat := 0
  const TopSideRing: nat := 1
  const BottomSideRing: nat := 2
  const BottomCapRing: nat := 3

  /** Angle of ring vertex i: i * (2 PI / n). */
  function RingAngle(math: MathLib, numSegments: nat, i: nat): real
    requires numSegments >= 1
  {
    i as real * ((math.pi * 2.0) / numSegments as real)
  }

  /** The vertex ring `ring`'s loop body builds for i: on the circle of the given radius
      at height +height/2 (top rings) or -height/2 (bottom rings). Cap rings face up or
      down with uv on the unit disc's square; side rings face outwards, with v = 1 at the
      top and v = 0 at the bottom. */
  function RingVertex(math: MathLib, height: real, radius: real, numSegments: nat, ring: nat, i: nat): Vertex
    requires numSegments >= 1
  {
    var theta := RingAngle(math, numSegments, i);
    var c, s := math.cos(theta), math.sin(theta);
    var topY := height / 2.0;
    var bottomY := -topY;
    if ring == TopCapRing then
      Vertex(Vec3(c * radius, topY, s * radius), Up, Vec2((c + 1.0) * 0.5, (s + 1.0) * 0.5))
    else if ring == TopSideRing then
      Vertex(Vec3(c * radius, topY, s * radius), math.normalize(Vec3(c, 0.0, s)), Vec2((c + 1.0) * 0.5, 1.0))
    else if ring == BottomSideRing then
      Vertex(Vec3(c * radius, bottomY, s * radius), math.normalize(Vec3(c, 0.0, s)), Vec2((c + 1.0) * 0.5, 0.0))
    else
      Vertex(Vec3(c * radius, bottomY, s * radius), Down, Vec2((c + 1.0) * 0.5, (s + 1.0) * 0.5))
  }

  function CylinderRings(math: MathLib, height: real, radius: real, numSegments: nat): (nat, nat) -> Vertex
    requires numSegments >= 1
  {
    (ring: nat, i: nat) => RingVertex(math, height, radius, numSegments, ring, i)
  }

  function TopCenter(height: real): Vertex {
    Vertex(Vec3(0.0, height / 2.0, 0.0), Up, Vec2(0.5, 0.5))
  }

  function BottomCenter(height: real): Vertex {
    Vertex(Vec3(0.0, -(height / 2.0), 0.0), Down, Vec2(0.5, 0.5))
  }

  /** The six vertex bands in the order the generator appends them: top center, the
      four rings, bottom center. */
  function CylinderVertices(math: MathLib, height: real, radius: real, numSegments: nat): seq<Vertex>
    requires numSegments >= 1
  {
    var f, n := CylinderRings(math, height, radius, numSegments), numSegments + 1;
    [TopCenter(height)] + PointRow(TopCapRing, n, f) + PointRow(TopSideRing, n, f) +
    PointRow(BottomSideRing, n, f) + PointRow(BottomCapRing, n, f) + [BottomCenter(height)]
  }

  /** Fan triangle i around `center`: (start + i, center, start + i + 1). */
  function FanCell(start: nat, center: nat, i: nat): seq<nat> {
    [start + i, center, start + i + 1]
  }

  function FanCells(start: nat, center: nat): (nat, nat) -> seq<nat> {
    (row: nat, i: nat) => FanCell(start, center, i)
  }

  lemma FanChunked(start: nat, center: nat, rows: nat, cols: nat)
    ensures Chunked(rows, cols, 3, FanCells(start, center))
  {
  }

  /** The n+1 triangles of a fan, i = 0 .. n. */
  function Fan(numSegments: nat, start: nat, center: nat): seq<nat> {
    CellRow(0, numSegments + 1, FanCells(start, center))
  }

  /** Side quad i: with start = (n+1) + i and columns = n+1, the triangles
      (start, start+1, start+columns) and (start+1, start+columns+1, start+columns). */
  function SideCell(numSegments: nat, i: nat): seq<nat> {
    var columns := numSegments + 1;
    var start := (numSegments + 1) + i;
    [start, start + 1, start + columns, start + 1, start + columns + 1, start + columns]
  }

  function SideCells(numSegments: nat): (nat, nat) -> seq<nat> {
    (row: nat, i: nat) => SideCell(numSegments, i)
  }

  lemma SideChunked(numSegments: nat, rows: nat, cols: nat)
    ensures Chunked(rows, cols, 6, SideCells(numSegments))
  {
  }

  /** The n+1 side quads, i = 0 .. n. */
  function SideStrip(numSegments: nat): seq<nat> {
    CellRow(0, numSegments + 1, SideCells(numSegments))
  }

  /** Top fan from vertex 1 around vertex 0, the side strip, and the bottom fan from
      vertex 3n+1 around the last vertex 4n+5. */
  function CylinderIndices(numSegments: nat): seq<nat> {
    Fan(numSegments, 1, 0) + SideStrip(numSegments) + Fan(numSegments, numSegments * 3 + 1, 4 * numSegments + 5)
  }

  method CreateCylinder(math: MathLib, height: real, radius: real, numSegments: nat) returns (mesh: MeshData)
    requires numSegments >= 1
    ensures mesh.vertices == CylinderVertices(math, height, radius, numSegments)
    ensures mesh.indices == CylinderIndices(numSegments)
    ensures ValidMesh(mesh)
  {
    mesh := MeshData([], []);
    var topY := height / 2.0;
    var bottomY := -topY;
    mesh := mesh.(vertices := mesh.vertices + [Vertex(Vec3(0.0, topY, 0.0), Up, Vec2(0.5, 0.5))]);
    assert mesh.vertices == [TopCenter(height)];
    mesh := AddRing(mesh, math, height, radius, numSegments, TopCapRing);
    mesh := AddRing(mesh, math, height, radius, numSegments, TopSideRing);
    mesh := AddRing(mesh, math, height, radius, numSegments, BottomSideRing);
    mesh := AddRing(mesh, math, height, radius, numSegments, BottomCapRing);
    assert Vertex(Vec3(0.0, bottomY, 0.0), Down, Vec2(0.5, 0.5)) == BottomCenter(height);
    mesh := mesh.(vertices := mesh.vertices + [Vertex(Vec3(0.0, bottomY, 0.0), Down, Vec2(0.5, 0.5))]);

    ghost var top, side := Fan(numSegments, 1, 0), SideStrip(numSegments);
    var start := 1;
    var center := 0;
    mesh := AddFan(mesh, numSegments, start, center);
    assert mesh.indices == top;
    mesh := AddSideStrip(mesh, numSegments);
    start := numSegments * 3 + 1;
    CylinderCounts(math, height, radius, numSegments);
    center := |mesh.vertices| - 1;
    assert center == 4 * numSegments + 5;
    mesh := AddFan(mesh, numSegments, start, center);
    assert mesh.indices == top + side + Fan(numSegments, numSegments * 3 + 1, 4 * numSegments + 5);
    CylinderValid(math, height, radius, numSegments);
  }

  /** Between the two centers, the four rings form a 4 x (n+1) grid. */
  lemma CylinderRingsSplit(math: MathLib, height: real, radius: real, numSegments: nat)
    requires numSegments >= 1
    ensures CylinderVertices(math, height, radius, numSegments) ==
      [TopCenter(height)] + Points(4, numSegments + 1, CylinderRings(math, height, radius, numSegments)) +
      [BottomCenter(height)]
  {
    var f := CylinderRings(math, height, radius, numSegments);
    var n := numSegments + 1;
    var r0, r1, r2, r3 := PointRow(0, n, f), PointRow(1, n, f), PointRow(2, n, f), PointRow(3, n, f);
    assert Points(1, n, f) == r0;
    assert Points(2, n, f) == Points(1, n, f) + r1;
    assert Points(3, n, f) == Points(2, n, f) + r2;
    assert Points(4, n, f) == Points(3, n, f) + r3;
    assert Points(4, n, f) == r0 + r1 + r2 + r3;
    assert [TopCenter(height)] + (r0 + r1 + r2 + r3) == [TopCenter(height)] + r0 + r1 + r2 + r3;
  }

  /** One ring loop: the n+1 vertices of ring `ring`. */
  method AddRing(mesh0: MeshData, math: MathLib, height: real, radius: real, numSegments: nat, ring: nat)
      returns (mesh: MeshData)
    requires numSegments >= 1
    ensures mesh.vertices == mesh0.vertices + PointRow(ring, numSegments + 1, CylinderRings(math, height, radius, numSegments))
    ensures mesh.indices == mesh0.indices
  {
    mesh := mesh0;
    ghost var f := CylinderRings(math, height, radius, numSegments);
    for i := 0 to numSegments + 1
      invariant mesh.vertices == mesh0.vertices + PointRow(ring, i, f)
      invariant mesh.indices == mesh0.indices
    {
      var vertex := RingVertex(math, height, radius, numSegments, ring, i);
      assert PointRow(ring, i + 1, f) == PointRow(ring, i, f) + [vertex];
      mesh := mesh.(vertices := mesh.vertices + [vertex]);
    }
  }

  /** A fan loop: for i = 0 .. n the triangle (start + i, center, start + i + 1). */
  method AddFan(mesh0: MeshData, numSegments: nat, start: nat, center: nat) returns (mesh: MeshData)
    ensures mesh.vertices == mesh0.vertices
    ensures mesh.indices == mesh0.indices + Fan(numSegments, start, center)
  {
    mesh := mesh0;
    ghost var g := FanCells(start, center);
    for i := 0 to numSegments + 1
      invariant mesh.vertices == mesh0.vertices
      invariant mesh.indices == mesh0.indices + CellRow(0, i, g)
    {
      assert g(0, i) == [start + i, center, start + i + 1];
      assert CellRow(0, i + 1, g) == CellRow(0, i, g) + g(0, i);
      mesh := mesh.(indices := mesh.indices + [start + i, center, start + i + 1]);
    }
  }

  /** The side loop: two triangles per column of the strip. */
  method AddSideStrip(mesh0: MeshData, numSegments: nat) returns (mesh: MeshData)
    ensures mesh.vertices == mesh0.vertices
    ensures mesh.indices == mesh0.indices + SideStrip(numSegments)
  {
    mesh := mesh0;
    ghost var g := SideCells(numSegments);
    var sideStart := numSegments + 1;
    var columns := numSegments + 1;
    for i := 0 to columns
      invariant mesh.vertices == mesh0.vertices
      invariant mesh.indices == mesh0.indices + CellRow(0, i, g)
    {
      var start := sideStart + i;
      assert g(0, i) == [start, start + 1, start + columns, start + 1, start + columns + 1, start + columns];
      assert CellRow(0, i + 1, g) == CellRow(0, i, g) + g(0, i);
      mesh := mesh.(indices := mesh.indices + [start, start + 1, start + columns]);
      mesh := mesh.(indices := mesh.indices + [start + 1, start + columns + 1, start + columns]);
    }
  }

  /** Vertex i of ring `ring` sits at 1 + ring * (n+1) + i, just after the top center
      (the product written with Mul). */
  lemma CylinderRingAt(math: MathLib, height: real, radius: real, numSegments: nat, ring: nat, i: nat)
    requires numSegments >= 1 && ring < 4 && i <= numSegments
    ensures var vertices := CylinderVertices(math, height, radius, numSegments);
      var k := 1 + Mul(ring, numSegments + 1) + i;
      k < |vertices| && vertices[k] == RingVertex(math, height, radius, numSegments, ring, i)
  {
    var f := CylinderRings(math, height, radius, numSegments);
    var points := Points(4, numSegments + 1, f);
    CylinderRingsSplit(math, height, radius, numSegments);
    PointAt(4, numSegments + 1, f, ring, i);
    Framed(TopCenter(height), points, BottomCenter(height), Mul(ring, numSegments + 1) + i);
  }

  /** What each ring's vertex i holds: the point at angle i * (2 PI / n) on the circle
      of the given radius, at height +height/2 on the two top rings and -height/2 on the
      two bottom rings; normal (0,1,0) on the top cap, (0,-1,0) on the bottom cap and the
      normalised radial direction on both side rings, whose v is 1 at the top and 0 at
      the bottom. */
  lemma CylinderRingBands(math: MathLib, height: real, radius: real, numSegments: nat, ring: nat, i: nat)
    requires numSegments >= 1 && ring < 4 && i <= numSegments
    ensures var vertices := CylinderVertices(math, height, radius, numSegments);
      var k := 1 + ring * (numSegments + 1) + i;
      var theta := RingAngle(math, numSegments, i);
      var radial := math.normalize(Vec3(math.cos(theta), 0.0, math.sin(theta)));
      k < |vertices| &&
      vertices[k].pos == Vec3(math.cos(theta) * radius, if ring < 2 then height / 2.0 else -(height / 2.0), math.sin(theta) * radius) &&
      vertices[k].normal == (if ring == TopCapRing then Up else if ring == BottomCapRing then Down else radial) &&
      vertices[k].uv.x == (math.cos(theta) + 1.0) * 0.5 &&
      (ring == TopSideRing ==> vertices[k].uv.y == 1.0) &&
      (ring == BottomSideRing ==> vertices[k].uv.y == 0.0)
  {
    CylinderRingAt(math, height, radius, numSegments, ring, i);
    MulIsProduct(ring, numSegments + 1);
  }

  /** The first vertex is the top center and the last the bottom center, at the cap
      heights with normals (0,1,0) and (0,-1,0). */
  lemma CylinderCenters(math: MathLib, height: real, radius: real, numSegments: nat)
    requires numSegments >= 1
    ensures var vertices := CylinderVertices(math, height, radius, numSegments);
      var last := 4 * numSegments + 5;
      last == |vertices| - 1 &&
      vertices[0].pos == Vec3(0.0, height / 2.0, 0.0) && vertices[0].normal == Up &&
      vertices[last].pos == Vec3(0.0, -(height / 2.0), 0.0) && vertices[last].normal == Down
  {
    CylinderCounts(math, height, radius, numSegments);
  }

  /** 4(n+1) + 2 vertices and 12(n+1) indices. */
  lemma CylinderCounts(math: MathLib, height: real, radius: real, numSegments: nat)
    requires numSegments >= 1
    ensures |CylinderVertices(math, height, radius, numSegments)| == 4 * (numSegments + 1) + 2
    ensures |CylinderIndices(numSegments)| == 12 * (numSegments + 1)
  {
    FanChunked(1, 0, 1, numSegments + 1);
    FanChunked(numSegments * 3 + 1, 4 * numSegments + 5, 1, numSegments + 1);
    SideChunked(numSegments, 1, numSegments + 1);
    CellRowLength(0, numSegments + 1, 3, FanCells(1, 0));
    CellRowLength(0, numSegments + 1, 3, FanCells(numSegments * 3 + 1, 4 * numSegments + 5));
    CellRowLength(0, numSegments + 1, 6, SideCells(numSegments));
    MulIsProduct(4, numSegments + 1);
    MulIsProduct(numSegments + 1, 3);
    MulIsProduct(numSegments + 1, 6);
  }

  /** Every index is below 4n+3 or is the bottom center 4n+5: all name vertices, and
      the bottom-cap vertices 4n+3 and 4n+4 are never used. */
  lemma CylinderIndexRange(numSegments: nat)
    requires numSegments >= 1
    ensures var indices := CylinderIndices(numSegments);
      forall k :: 0 <= k < |indices| ==> indices[k] < 4 * numSegments + 3 || indices[k] == 4 * numSegments + 5
  {
    var n := numSegments;
    var q := (k: nat) => k < 4 * n + 3 || k == 4 * n + 5;
    CylinderTriples(n, q);
    TriplesAll(CylinderIndices(n), q);
  }

  /** The index list is a triangle list over any set of vertices holding vertices
      0 .. 4n+2 and the bottom center 4n+5. */
  lemma CylinderTriples(numSegments: nat, q: nat -> bool)
    requires numSegments >= 1
    requires q(0) && q(4 * numSegments + 5)
    requires forall i :: 1 <= i <= 4 * numSegments + 2 ==> q(i)
    ensures Triples(CylinderIndices(numSegments), Corners(q))
  {
    var n := numSegments;
    var top, side, bottom := Fan(n, 1, 0), SideStrip(n), Fan(n, n * 3 + 1, 4 * n + 5);
    CylinderGroups(n);
    FanCorners(n, 1, 0, q);
    SideCorners(n, q);
    FanCorners(n, n * 3 + 1, 4 * n + 5, q);
    TriplesConcat3(top, side, bottom, Corners(q));
  }

  /** A fan whose corners start + 0 .. start + n + 1 and center satisfy q. */
  lemma FanCorners(numSegments: nat, start: nat, center: nat, q: nat -> bool)
    requires q(center) && forall i :: start <= i <= start + numSegments + 1 ==> q(i)
    ensures Triples(Fan(numSegments, start, center), Corners(q))
  {
    var g := FanCells(start, center);
    forall c: nat | c < numSegments + 1
      ensures Triples(g(0, c), Corners(q))
    {
      TriplesOne<nat>(start + c, center, start + c + 1, Corners(q));
    }
    CellRowTriples(0, numSegments + 1, g, Corners(q));
  }

  /** The side strip uses vertices n+1 .. 3n+3 only. */
  lemma SideCorners(numSegments: nat, q: nat -> bool)
    requires forall i :: numSegments + 1 <= i <= 3 * numSegments + 3 ==> q(i)
    ensures Triples(SideStrip(numSegments), Corners(q))
  {
    var g := SideCells(numSegments);
    var columns := numSegments + 1;
    forall c: nat | c < numSegments + 1
      ensures Triples(g(0, c), Corners(q))
    {
      var start := (numSegments + 1) + c;
      TriplesPair<nat>(start, start + 1, start + columns, start + 1, start + columns + 1, start + columns, Corners(q));
    }
    CellRowTriples(0, numSegments + 1, g, Corners(q));
  }

  /** Fan triangle i is (start + i, center, start + i + 1), at positions 3i .. 3i+2. */
  lemma FanAt(numSegments: nat, start: nat, center: nat, i: nat)
    requires i <= numSegments
    ensures var fan := Fan(numSegments, start, center);
      3 * i + 2 < |fan| && fan[3 * i] == start + i && fan[3 * i + 1] == center && fan[3 * i + 2] == start + i + 1
  {
    var g := FanCells(start, center);
    FanChunked(start, center, 1, numSegments + 1);
    MulIsProduct(i, 3);
    CellRowAt(0, numSegments + 1, 3, g, i, 0);
    CellRowAt(0, numSegments + 1, 3, g, i, 1);
    CellRowAt(0, numSegments + 1, 3, g, i, 2);
  }

  /** Side quad i occupies positions 6i .. 6i+5 of the strip. */
  lemma SideAt(numSegments: nat, i: nat, j: nat)
    requires i <= numSegments && j < 6
    ensures var strip := SideStrip(numSegments);
      6 * i + j < |strip| && strip[6 * i + j] == SideCell(numSegments, i)[j]
  {
    SideChunked(numSegments, 1, numSegments + 1);
    MulIsProduct(i, 6);
    CellRowAt(0, numSegments + 1, 6, SideCells(numSegments), i, j);
  }

  /** The three index groups one after the other: the top fan's 3(n+1) indices, the
      strip's 6(n+1), then the bottom fan's 3(n+1). */
  lemma CylinderGroups(numSegments: nat)
    ensures var top, side, bottom := Fan(numSegments, 1, 0), SideStrip(numSegments),
        Fan(numSegments, numSegments * 3 + 1, 4 * numSegments + 5);
      CylinderIndices(numSegments) == top + side + bottom &&
      |top| == 3 * (numSegments + 1) && |side| == 6 * (numSegments + 1) && |bottom| == 3 * (numSegments + 1)
  {
    FanChunked(1, 0, 1, numSegments + 1);
    FanChunked(numSegments * 3 + 1, 4 * numSegments + 5, 1, numSegments + 1);
    SideChunked(numSegments, 1, numSegments + 1);
    CellRowLength(0, numSegments + 1, 3, FanCells(1, 0));
    CellRowLength(0, numSegments + 1, 3, FanCells(numSegments * 3 + 1, 4 * numSegments + 5));
    CellRowLength(0, numSegments + 1, 6, SideCells(numSegments));
    MulIsProduct(numSegments + 1, 3);
    MulIsProduct(numSegments + 1, 6);
  }

  /** Top fan triangle i, for i = 0 .. n, is (1 + i, 0, 2 + i). */
  lemma CylinderTopFan(numSegments: nat, i: nat)
    requires i <= numSegments
    ensures var indices := CylinderIndices(numSegments);
      3 * i + 2 < |indices| && indices[3 * i] == 1 + i && indices[3 * i + 1] == 0 && indices[3 * i + 2] == 2 + i
  {
    CylinderGroups(numSegments);
    FanAt(numSegments, 1, 0, i);
  }

  /** Side quad i, for i = 0 .. n, follows the top fan: with start = (n+1) + i and
      columns = n+1, the triangles (start, start+1, start+columns) and
      (start+1, start+columns+1, start+columns). */
  lemma CylinderSide(numSegments: nat, i: nat)
    requires i <= numSegments
    ensures var indices := CylinderIndices(numSegments);
      var base := 3 * (numSegments + 1) + 6 * i;
      var start, columns := (numSegments + 1) + i, numSegments + 1;
      base + 5 < |indices| &&
      indices[base] == start && indices[base + 1] == start + 1 && indices[base + 2] == start + columns &&
      indices[base + 3] == start + 1 && indices[base + 4] == start + columns + 1 && indices[base + 5] == start + columns
  {
    CylinderGroups(numSegments);
    SideAt(numSegments, i, 0);
    SideAt(numSegments, i, 1);
    SideAt(numSegments, i, 2);
    SideAt(numSegments, i, 3);
    SideAt(numSegments, i, 4);
    SideAt(numSegments, i, 5);
  }

  /** Bottom fan triangle i, for i = 0 .. n, comes after the strip and is
      (3n+1 + i, 4n+5, 3n+2 + i). */
  lemma CylinderBottomFan(numSegments: nat, i: nat)
    requires i <= numSegments
    ensures var indices := CylinderIndices(numSegments);
      var base := 9 * (numSegments + 1) + 3 * i;
      base + 2 < |indices| && indices[base] == 3 * numSegments + 1 + i &&
      indices[base + 1] == 4 * numSegments + 5 && indices[base + 2] == 3 * numSegments + 2 + i
  {
    CylinderGroups(numSegments);
    FanAt(numSegments, numSegments * 3 + 1, 4 * numSegments + 5, i);
  }

  /** The cross product of a fan triangle (ring point j, center, ring point j+1) whose
      three corners lie at the same height y: it points along the y axis. */
  function CapCross(math: MathLib, radius: real, numSegments: nat, j: nat): Vec3
    requires numSegments >= 1
  {
    var a, b := RingAngle(math, numSegments, j), RingAngle(math, numSegments, j + 1);
    Vec3(0.0, radius * radius * (math.cos(a) * math.sin(b) - math.sin(a) * math.cos(b)), 0.0)
  }

  lemma FanTriangleCross(c1: real, s1: real, c2: real, s2: real, radius: real, y: real)
    ensures var p, q := Vec3(c1 * radius, y, s1 * radius), Vec3(c2 * radius, y, s2 * radius);
      Cross(Sub(Vec3(0.0, y, 0.0), p), Sub(q, p)) == Vec3(0.0, radius * radius * (c1 * s2 - s1 * c2), 0.0)
  {
  }

  /** The corners of top fan triangle j, for j < n: top-cap vertices j and j+1 around
      the top center, all at height height/2 and with normal (0,1,0). */
  lemma TopCapCorners(math: MathLib, height: real, radius: real, numSegments: nat, j: nat)
    requires numSegments >= 1 && j < numSegments
    ensures var vertices, indices := CylinderVertices(math, height, radius, numSegments), CylinderIndices(numSegments);
      var a, b := RingAngle(math, numSegments, j), RingAngle(math, numSegments, j + 1);
      3 * j + 2 < |indices| && indices[3 * j] < |vertices| && indices[3 * j + 1] < |vertices| && indices[3 * j + 2] < |vertices| &&
      vertices[indices[3 * j]].pos == Vec3(math.cos(a) * radius, height / 2.0, math.sin(a) * radius) &&
      vertices[indices[3 * j + 1]].pos == Vec3(0.0, height / 2.0, 0.0) &&
      vertices[indices[3 * j + 2]].pos == Vec3(math.cos(b) * radius, height / 2.0, math.sin(b) * radius) &&
      vertices[indices[3 * j]].normal == Up && vertices[indices[3 * j + 2]].normal == Up
  {
    var vertices, indices := CylinderVertices(math, height, radius, numSegments), CylinderIndices(numSegments);
    CylinderTopFan(numSegments, j);
    CylinderCenters(math, height, radius, numSegments);
    CylinderRingBands(math, height, radius, numSegments, TopCapRing, j);
    CylinderRingBands(math, height, radius, numSegments, TopCapRing, j + 1);
    assert vertices[indices[3 * j]] == vertices[1 + j];
    assert vertices[indices[3 * j + 1]] == vertices[0];
    assert vertices[indices[3 * j + 2]] == vertices[1 + (j + 1)];
  }

  /** The corners of bottom fan triangle j+3, for j+3 <= n: bottom-cap vertices j and
      j+1 around the bottom center, all at height -height/2 and with normal (0,-1,0). */
  lemma BottomCapCorners(math: MathLib, height: real, radius: real, numSegments: nat, j: nat)
    requires j + 3 <= numSegments
    ensures var vertices, indices := CylinderVertices(math, height, radius, numSegments), CylinderIndices(numSegments);
      var a, b := RingAngle(math, numSegments, j), RingAngle(math, numSegments, j + 1);
      var t := 3 * (numSegments + 1) + j + 3;
      3 * t + 2 < |indices| && indices[3 * t] < |vertices| && indices[3 * t + 1] < |vertices| && indices[3 * t + 2] < |vertices| &&
      vertices[indices[3 * t]].pos == Vec3(math.cos(a) * radius, -(height / 2.0), math.sin(a) * radius) &&
      vertices[indices[3 * t + 1]].pos == Vec3(0.0, -(height / 2.0), 0.0) &&
      vertices[indices[3 * t + 2]].pos == Vec3(math.cos(b) * radius, -(height / 2.0), math.sin(b) * radius) &&
      vertices[indices[3 * t]].normal == Down && vertices[indices[3 * t + 2]].normal == Down
  {
    var vertices, indices := CylinderVertices(math, height, radius, numSegments), CylinderIndices(numSegments);
    var t := 3 * (numSegments + 1) + j + 3;
    var ring := 1 + 3 * (numSegments + 1);
    CylinderBottomFan(numSegments, j + 3);
    CylinderCenters(math, height, radius, numSegments);
    CylinderRingBands(math, height, radius, numSegments, BottomCapRing, j);
    CylinderRingBands(math, height, radius, numSegments, BottomCapRing, j + 1);
    assert vertices[indices[3 * t]] == vertices[ring + j];
    assert vertices[indices[3 * t + 1]] == vertices[4 * numSegments + 5];
    assert vertices[indices[3 * t + 2]] == vertices[ring + (j + 1)];
  }

  /** A fan triangle whose corners sit at two ring points and the center of the same
      height has the cross product FanTriangleCross gives. */
  lemma FanCrossAt(vertices: seq<Vertex>, a: nat, b: nat, c: nat, math: MathLib, radius: real, numSegments: nat, j: nat, y: real)
    requires numSegments >= 1
    requires a < |vertices| && b < |vertices| && c < |vertices|
    requires var angle := RingAngle(math, numSegments, j);
      vertices[a].pos == Vec3(math.cos(angle) * radius, y, math.sin(angle) * radius)
    requires vertices[b].pos == Vec3(0.0, y, 0.0)
    requires var angle := RingAngle(math, numSegments, j + 1);
      vertices[c].pos == Vec3(math.cos(angle) * radius, y, math.sin(angle) * radius)
    ensures TriangleCross(vertices, a, b, c) == CapCross(math, radius, numSegments, j)
  {
    var a, b := RingAngle(math, numSegments, j), RingAngle(math, numSegments, j + 1);
    FanTriangleCross(math.cos(a), math.sin(a), math.cos(b), math.sin(b), radius, y);
  }

  /** Top fan triangle j, for j < n, has cross product CapCross(j), and its ring corners
      carry the normal (0,1,0). */
  lemma CylinderTopCapCross(math: MathLib, height: real, radius: real, numSegments: nat, j: nat)
    requires numSegments >= 1 && j < numSegments
    ensures var vertices, indices := CylinderVertices(math, height, radius, numSegments), CylinderIndices(numSegments);
      3 * j + 2 < |indices| &&
      indices[3 * j] < |vertices| && indices[3 * j + 1] < |vertices| && indices[3 * j + 2] < |vertices| &&
      TriangleCross(vertices, indices[3 * j], indices[3 * j + 1], indices[3 * j + 2]) == CapCross(math, radius, numSegments, j) &&
      vertices[indices[3 * j]].normal == Up && vertices[indices[3 * j + 2]].normal == Up
  {
    var vertices, indices := CylinderVertices(math, height, radius, numSegments), CylinderIndices(numSegments);
    TopCapCorners(math, height, radius, numSegments, j);
    FanCrossAt(vertices, indices[3 * j], indices[3 * j + 1], indices[3 * j + 2], math, radius, numSegments, j, height / 2.0);
  }

  /** Bottom fan triangle j+3, for j+3 <= n, lists its corners in the same order as the
      top fan, so its cross product is the same CapCross(j), while its ring corners
      carry the normal (0,-1,0). */
  lemma CylinderBottomCapCross(math: MathLib, height: real, radius: real, numSegments: nat, j: nat)
    requires j + 3 <= numSegments
    ensures var vertices, indices := CylinderVertices(math, height, radius, numSegments), CylinderIndices(numSegments);
      var t := 3 * (numSegments + 1) + j + 3;
      3 * t + 2 < |indices| &&
      indices[3 * t] < |vertices| && indices[3 * t + 1] < |vertices| && indices[3 * t + 2] < |vertices| &&
      TriangleCross(vertices, indices[3 * t], indices[3 * t + 1], indices[3 * t + 2]) == CapCross(math, radius, numSegments, j) &&
      vertices[indices[3 * t]].normal == Down && vertices[indices[3 * t + 2]].normal == Down
  {
    var vertices, indices := CylinderVertices(math, height, radius, numSegments), CylinderIndices(numSegments);
    var t := 3 * (numSegments + 1) + j + 3;
    BottomCapCorners(math, height, radius, numSegments, j);
    FanCrossAt(vertices, indices[3 * t], indices[3 * t + 1], indices[3 * t + 2], math, radius, numSegments, j, -(height / 2.0));
  }

  /** Every index names one of the 4n+6 vertices. */
  lemma CylinderValid(math: MathLib, height: real, radius: real, numSegments: nat)
    requires numSegments >= 1
    ensures ValidMesh(MeshData(CylinderVertices(math, height, radius, numSegments), CylinderIndices(numSegments)))
  {
    CylinderCounts(math, height, radius, numSegments);
    CylinderIndexRange(numSegments);
  }

  // ---------------------------------------------------------------------------
  // Plane
  // ---------------------------------------------------------------------------

  /** The vertex the plane's loop body builds at grid row `row`, column `col`. Its y
      coordinate is never assigned and keeps the default value zero. */
  function PlaneVertex(width: real, height: real, subdivisions: nat, row: nat, col: nat): Vertex
    requires subdivisions >= 1
  {
    var s := subdivisions as real;
    Vertex(Vec3(width * (col as real / s), 0.0, -height * (row as real / s)), Up,
           Vec2(col as real / s, row as real / s))
  }

  function PlaneGrid(width: real, height: real, subdivisions: nat): (nat, nat) -> Vertex
    requires subdivisions >= 1
  {
    (row: nat, col: nat) => PlaneVertex(width, height, subdivisions, row, col)
  }

  /** The (s+1) x (s+1) vertex grid, row after row. */
  function PlaneVertices(width: real, height: real, subdivisions: nat): seq<Vertex>
    requires subdivisions >= 1
  {
    Points(subdivisions + 1, subdivisions + 1, PlaneGrid(width, height, subdivisions))
  }

  /** The six indices of cell (row, col): the triangle (start, start+1, start+columns+1)
      and then (start, start+columns+1, start+columns), where start = row * columns + col
      is the cell's lower-left corner. */
  function PlaneCell(subdivisions: nat, row: nat, col: nat): seq<nat> {
    var columns := subdivisions + 1;
    var start := Mul(row, columns) + col;
    [start, start + 1, start + columns + 1, start, start + columns + 1, start + columns]
  }

  function PlaneCells(subdivisions: nat): (nat, nat) -> seq<nat> {
    (row: nat, col: nat) => PlaneCell(subdivisions, row, col)
  }

  /** The s x s cells, six indices each, row after row. */
  function PlaneIndices(subdivisions: nat): seq<nat> {
    Cells(subdivisions, subdivisions, PlaneCells(subdivisions))
  }

  /** The cells of one grid row, six indices each. */
  function PlaneRowIndices(subdivisions: nat, row: nat): seq<nat> {
    CellRow(row, subdivisions, PlaneCells(subdivisions))
  }

  lemma PlaneChunked(subdivisions: nat, rows: nat, cols: nat)
    ensures Chunked(rows, cols, 6, PlaneCells(subdivisions))
  {
  }

  method CreatePlane(width: real, height: real, subdivisions: nat) returns (mesh: MeshData)
    requires subdivisions >= 1
    ensures mesh.vertices == PlaneVertices(width, height, subdivisions)
    ensures mesh.indices == PlaneIndices(subdivisions)
    ensures ValidMesh(mesh)
  {
    mesh := MeshData([], []);
    mesh := AddPlaneVertices(mesh, width, height, subdivisions);
    mesh := AddPlaneIndices(mesh, subdivisions);
    PlaneValid(width, height, subdivisions);
  }

  /** The vertex loops: row by row, column by column, one vertex per grid point. */
  method AddPlaneVertices(mesh0: MeshData, width: real, height: real, subdivisions: nat) returns (mesh: MeshData)
    requires subdivisions >= 1
    ensures mesh.vertices == mesh0.vertices + PlaneVertices(width, height, subdivisions)
    ensures mesh.indices == mesh0.indices
  {
    mesh := mesh0;
    ghost var f := PlaneGrid(width, height, subdivisions);
    for row := 0 to subdivisions + 1
      invariant mesh.vertices == mesh0.vertices + Points(row, subdivisions + 1, f)
      invariant mesh.indices == mesh0.indices
    {
      ghost var done, next := Points(row, subdivisions + 1, f), PointRow(row, subdivisions + 1, f);
      mesh := AddPlaneVertexRow(mesh, width, height, subdivisions, row);
      assert mesh0.vertices + done + next == mesh0.vertices + (done + next);
      assert Points(row + 1, subdivisions + 1, f) == done + next;
    }
  }

  /** The inner vertex loop: the s+1 vertices of one grid row. */
  method AddPlaneVertexRow(mesh0: MeshData, width: real, height: real, subdivisions: nat, row: nat) returns (mesh: MeshData)
    requires subdivisions >= 1
    ensures mesh.vertices == mesh0.vertices + PointRow(row, subdivisions + 1, PlaneGrid(width, height, subdivisions))
    ensures mesh.indices == mesh0.indices
  {
    mesh := mesh0;
    ghost var f := PlaneGrid(width, height, subdivisions);
    for col := 0 to subdivisions + 1
      invariant mesh.vertices == mesh0.vertices + PointRow(row, col, f)
      invariant mesh.indices == mesh0.indices
    {
      var vertex := PlaneVertex(width, height, subdivisions, row, col);
      assert PointRow(row, col + 1, f) == PointRow(row, col, f) + [vertex];
      mesh := mesh.(vertices := mesh.vertices + [vertex]);
    }
  }

  /** The index loops: row by row, column by column, two triangles per cell. */
  method AddPlaneIndices(mesh0: MeshData, subdivisions: nat) returns (mesh: MeshData)
    ensures mesh.vertices == mesh0.vertices
    ensures mesh.indices == mesh0.indices + PlaneIndices(subdivisions)
  {
    mesh := mesh0;
    ghost var g := PlaneCells(subdivisions);
    for row := 0 to subdivisions
      invariant mesh.vertices == mesh0.vertices
      invariant mesh.indices == mesh0.indices + Cells(row, subdivisions, g)
    {
      ghost var done, next := Cells(row, subdivisions, g), CellRow(row, subdivisions, g);
      mesh := AddPlaneIndexRow(mesh, subdivisions, row);
      assert mesh0.indices + done + next == mesh0.indices + (done + next);
      assert Cells(row + 1, subdivisions, g) == done + next;
    }
  }

  /** The inner index loop: the two triangles of each cell of one grid row. */
  method AddPlaneIndexRow(mesh0: MeshData, subdivisions: nat, row: nat) returns (mesh: MeshData)
    ensures mesh.vertices == mesh0.vertices
    ensures mesh.indices == mesh0.indices + PlaneRowIndices(subdivisions, row)
  {
    mesh := mesh0;
    ghost var g := PlaneCells(subdivisions);
    var columns := subdivisions + 1;
    for col := 0 to subdivisions
      invariant mesh.vertices == mesh0.vertices
      invariant mesh.indices == mesh0.indices + CellRow(row, col, g)
    {
      MulIsProduct(row, columns);
      var start: nat := row * columns + col;
      assert g(row, col) == [start, start + 1, start + columns + 1, start, start + columns + 1, start + columns];
      assert CellRow(row, col + 1, g) == CellRow(row, col, g) + g(row, col);
      mesh := mesh.(indices := mesh.indices + [start, start + 1, start + columns + 1]);
      mesh := mesh.(indices := mesh.indices + [start, start + columns + 1, start + columns]);
    }
  }

  /** (s+1)^2 vertices and 6 s^2 indices. */
  lemma PlaneCounts(width: real, height: real, subdivisions: nat)
    requires subdivisions >= 1
    ensures |PlaneVertices(width, height, subdivisions)| == (subdivisions + 1) * (subdivisions + 1)
    ensures |PlaneIndices(subdivisions)| == 6 * subdivisions * subdivisions
  {
    PlaneChunked(subdivisions, subdivisions, subdivisions);
    CellsLength(subdivisions, subdivisions, 6, PlaneCells(subdivisions));
    MulIsProduct(subdivisions + 1, subdivisions + 1);
    CellCount(subdivisions, subdivisions);
  }

  /** Row-major order: vertex row * (s+1) + col is the one for (row, col), with uv
      (col/s, row/s), normal (0,1,0) and position (width*col/s, 0, -height*row/s). */
  lemma PlaneVertexAt(width: real, height: real, subdivisions: nat, row: nat, col: nat)
    requires subdivisions >= 1 && row <= subdivisions && col <= subdivisions
    ensures var vertices := PlaneVertices(width, height, subdivisions);
      var k := row * (subdivisions + 1) + col;
      var u := col as real / subdivisions as real;
      var v := row as real / subdivisions as real;
      k < |vertices| &&
      var vertex := vertices[k];
      vertex.uv == Vec2(u, v) && vertex.normal == Up && vertex.pos == Vec3(width * u, 0.0, -height * v)
  {
    PointAt(subdivisions + 1, subdivisions + 1, PlaneGrid(width, height, subdivisions), row, col);
    MulIsProduct(row, subdivisions + 1);
  }

  /** Every plane vertex faces +Y, lies in the y = 0 plane, has its uv in the unit
      square and, for non-negative sizes, lies inside [0, width] x [-height, 0]. */
  lemma PlaneVertexRanges(width: real, height: real, subdivisions: nat)
    requires subdivisions >= 1
    ensures var vertices := PlaneVertices(width, height, subdivisions);
      forall k :: 0 <= k < |vertices| ==>
        vertices[k].normal == Up && vertices[k].pos.y == 0.0 &&
        0.0 <= vertices[k].uv.x <= 1.0 && 0.0 <= vertices[k].uv.y <= 1.0 &&
        (width >= 0.0 && height >= 0.0 ==>
          0.0 <= vertices[k].pos.x <= width && -height <= vertices[k].pos.z <= 0.0)
  {
    var columns := subdivisions + 1;
    var f := PlaneGrid(width, height, subdivisions);
    var vertices := PlaneVertices(width, height, subdivisions);
    forall k | 0 <= k < |vertices|
      ensures vertices[k].normal == Up && vertices[k].pos.y == 0.0
      ensures 0.0 <= vertices[k].uv.x <= 1.0 && 0.0 <= vertices[k].uv.y <= 1.0
      ensures width >= 0.0 && height >= 0.0 ==>
        0.0 <= vertices[k].pos.x <= width && -height <= vertices[k].pos.z <= 0.0
    {
      var row, col := PointsAt(columns, columns, f, k);
      PlaneVertexBounds(width, height, subdivisions, row, col);
    }
  }

  lemma PlaneVertexBounds(width: real, height: real, subdivisions: nat, row: nat, col: nat)
    requires subdivisions >= 1 && row <= subdivisions && col <= subdivisions
    ensures var vertex := PlaneVertex(width, height, subdivisions, row, col);
      0.0 <= vertex.uv.x <= 1.0 && 0.0 <= vertex.uv.y <= 1.0 &&
      (width >= 0.0 && height >= 0.0 ==>
        0.0 <= vertex.pos.x <= width && -height <= vertex.pos.z <= 0.0)
  {
    UnitFraction(col, subdivisions);
    UnitFraction(row, subdivisions);
    if width >= 0.0 && height >= 0.0 {
      ScaleBound(width, col as real / subdivisions as real);
      ScaleBound(height, row as real / subdivisions as real);
    }
  }

  lemma UnitFraction(i: nat, n: nat)
    requires 1 <= n && i <= n
    ensures 0.0 <= i as real / n as real <= 1.0
  {
    assert i as real / n as real * n as real == i as real;
  }

  lemma ScaleBound(a: real, u: real)
    requires a >= 0.0 && 0.0 <= u <= 1.0
    ensures 0.0 <= a * u <= a
  {
    assert a - a * u == a * (1.0 - u);
  }

  /** Winding: indices 6 (row*s + col) .. 6 (row*s + col) + 5 are the two triangles of
      cell (row, col), in the order of PlaneCell. */
  lemma PlaneCellAt(subdivisions: nat, row: nat, col: nat)
    requires row < subdivisions && col < subdivisions
    ensures var indices := PlaneIndices(subdivisions);
      var base := 6 * (row * subdivisions + col);
      base + 6 <= |indices| &&
      forall j :: 0 <= j < 6 ==> indices[base + j] == PlaneCell(subdivisions, row, col)[j]
  {
    var indices := PlaneIndices(subdivisions);
    var base := 6 * (row * subdivisions + col);
    var a, b := Mul(row, Mul(subdivisions, 6)), Mul(col, 6);
    PlaneChunked(subdivisions, subdivisions, subdivisions);
    CellBase(subdivisions, row, col);
    CellAt(subdivisions, subdivisions, 6, PlaneCells(subdivisions), row, col, 5);
    forall j | 0 <= j < 6
      ensures indices[base + j] == PlaneCell(subdivisions, row, col)[j]
    {
      CellAt(subdivisions, subdivisions, 6, PlaneCells(subdivisions), row, col, j);
      assert a + (b + j) == base + j;
    }
  }

  /** Every index names one of the (s+1)^2 vertices. */
  lemma PlaneValid(width: real, height: real, subdivisions: nat)
    requires subdivisions >= 1
    ensures ValidMesh(MeshData(PlaneVertices(width, height, subdivisions), PlaneIndices(subdivisions)))
  {
    var columns := subdivisions + 1;
    var p := Below(Mul(columns, columns));
    var g := PlaneCells(subdivisions);
    forall row: nat, col: nat | row < subdivisions && col < subdivisions
      ensures Triples(g(row, col), p)
    {
      PlaneCellBelow(subdivisions, row, col);
    }
    CellsTriples(subdivisions, subdivisions, g, p);
    TriplesValid(MeshData(PlaneVertices(width, height, subdivisions), PlaneIndices(subdivisions)));
  }

  /** Both triangles of a cell name vertices of the (s+1) x (s+1) grid. */
  lemma PlaneCellBelow(subdivisions: nat, row: nat, col: nat)
    requires row < subdivisions && col < subdivisions
    ensures Triples(PlaneCell(subdivisions, row, col), Below(Mul(subdivisions + 1, subdivisions + 1)))
  {
    var columns := subdivisions + 1;
    var p := Below(Mul(columns, columns));
    var start := Mul(row, columns) + col;
    assert start + columns == Mul(row + 1, columns) + col;
    MulBound(row + 1, columns, columns, col + 1);
    TriplesPair<nat>(start, start + 1, start + columns + 1, start, start + columns + 1, start + columns, p);
  }

  /** The cross product every plane triangle has: (0, (width/s)(height/s), 0). */
  function PlaneUp(width: real, height: real, subdivisions: nat): Vec3
    requires subdivisions >= 1
  {
    var s := subdivisions as real;
    Vec3(0.0, (width / s) * (height / s), 0.0)
  }

  /** One grid step along an axis of extent w moves by w / s. */
  lemma EdgeStep(w: real, c: real, s: real)
    requires s > 0.0
    ensures w * ((c + 1.0) / s) - w * (c / s) == w / s
  {
    assert (c + 1.0) / s == c / s + 1.0 / s;
    assert w * ((c + 1.0) / s) == w * (c / s) + w * (1.0 / s);
  }

  /** The corners of cell (row, col) in the vertex list: start = row*(s+1) + col,
      start + 1, start + columns + 1 and start + columns. */
  lemma PlaneCorners(width: real, height: real, subdivisions: nat, row: nat, col: nat)
    requires subdivisions >= 1 && row < subdivisions && col < subdivisions
    ensures var vertices := PlaneVertices(width, height, subdivisions);
      var columns := subdivisions + 1;
      var start := Mul(row, columns) + col;
      start + columns + 1 < |vertices| &&
      vertices[start] == PlaneVertex(width, height, subdivisions, row, col) &&
      vertices[start + 1] == PlaneVertex(width, height, subdivisions, row, col + 1) &&
      vertices[start + columns + 1] == PlaneVertex(width, height, subdivisions, row + 1, col + 1) &&
      vertices[start + columns] == PlaneVertex(width, height, subdivisions, row + 1, col)
  {
    PointCorners(subdivisions + 1, subdivisions + 1, PlaneGrid(width, height, subdivisions), row, col);
  }

  /** The edge cross products of cell (row, col), in the order the index loop lists
      the corners of its two triangles. */
  lemma PlaneQuadCross(width: real, height: real, subdivisions: nat, row: nat, col: nat)
    requires subdivisions >= 1
    ensures var up := PlaneUp(width, height, subdivisions);
      var p0 := PlaneVertex(width, height, subdivisions, row, col).pos;
      var p1 := PlaneVertex(width, height, subdivisions, row, col + 1).pos;
      var p2 := PlaneVertex(width, height, subdivisions, row + 1, col + 1).pos;
      var p3 := PlaneVertex(width, height, subdivisions, row + 1, col).pos;
      Cross(Sub(p1, p0), Sub(p2, p0)) == up && Cross(Sub(p2, p0), Sub(p3, p0)) == up
  {
    var s := subdivisions as real;
    var p0 := PlaneVertex(width, height, subdivisions, row, col).pos;
    var p1 := PlaneVertex(width, height, subdivisions, row, col + 1).pos;
    var p2 := PlaneVertex(width, height, subdivisions, row + 1, col + 1).pos;
    var p3 := PlaneVertex(width, height, subdivisions, row + 1, col).pos;
    var a, b := width / s, height / s;
    EdgeStep(width, col as real, s);
    EdgeStep(-height, row as real, s);
    assert Sub(p1, p0) == Vec3(a, 0.0, 0.0);
    assert Sub(p2, p0) == Vec3(a, 0.0, -b);
    assert Sub(p3, p0) == Vec3(0.0, 0.0, -b);
  }

  /** Both triangles of cell (row, col) have cross product (0, (w/s)(h/s), 0). */
  lemma PlaneCellFaces(width: real, height: real, subdivisions: nat, row: nat, col: nat)
    requires subdivisions >= 1 && row < subdivisions && col < subdivisions
    ensures Triples(PlaneCell(subdivisions, row, col),
                    HasCross(PlaneVertices(width, height, subdivisions), PlaneUp(width, height, subdivisions)))
  {
    var p := HasCross(PlaneVertices(width, height, subdivisions), PlaneUp(width, height, subdivisions));
    var columns := subdivisions + 1;
    var start := Mul(row, columns) + col;
    assert p(start, start + 1, start + columns + 1) by {
      PlaneFirstTriangle(width, height, subdivisions, row, col);
    }
    assert p(start, start + columns + 1, start + columns) by {
      PlaneSecondTriangle(width, height, subdivisions, row, col);
    }
    assert PlaneCell(subdivisions, row, col) ==
      [start, start + 1, start + columns + 1, start, start + columns + 1, start + columns];
    TriplesPair<nat>(start, start + 1, start + columns + 1, start, start + columns + 1, start + columns, p);
  }

  /** The triangle (start, start+1, start+columns+1) of cell (row, col) faces up. */
  lemma PlaneFirstTriangle(width: real, height: real, subdivisions: nat, row: nat, col: nat)
    requires subdivisions >= 1 && row < subdivisions && col < subdivisions
    ensures var columns := subdivisions + 1;
      var start := Mul(row, columns) + col;
      HasCross(PlaneVertices(width, height, subdivisions), PlaneUp(width, height, subdivisions))
        (start, start + 1, start + columns + 1)
  {
    var vertices := PlaneVertices(width, height, subdivisions);
    var columns := subdivisions + 1;
    var start := Mul(row, columns) + col;
    PlaneCorners(width, height, subdivisions, row, col);
    PlaneQuadCross(width, height, subdivisions, row, col);
    assert TriangleCross(vertices, start, start + 1, start + columns + 1) == PlaneUp(width, height, subdivisions);
  }

  /** The triangle (start, start+columns+1, start+columns) of cell (row, col) faces up. */
  lemma PlaneSecondTriangle(width: real, height: real, subdivisions: nat, row: nat, col: nat)
    requires subdivisions >= 1 && row < subdivisions && col < subdivisions
    ensures var columns := subdivisions + 1;
      var start := Mul(row, columns) + col;
      HasCross(PlaneVertices(width, height, subdivisions), PlaneUp(width, height, subdivisions))
        (start, start + columns + 1, start + columns)
  {
    var vertices := PlaneVertices(width, height, subdivisions);
    var columns := subdivisions + 1;
    var start := Mul(row, columns) + col;
    PlaneCorners(width, height, subdivisions, row, col);
    PlaneQuadCross(width, height, subdivisions, row, col);
    assert TriangleCross(vertices, start, start + columns + 1, start + columns) == PlaneUp(width, height, subdivisions);
  }

  /** Every plane triangle has face normal (0, (w/s)(h/s), 0): for positive sizes all
      of them are counter-clockwise seen from +Y and agree with the vertex normal. */
  lemma PlaneFacesUp(width: real, height: real, subdivisions: nat)
    requires subdivisions >= 1
    ensures var vertices := PlaneVertices(width, height, subdivisions);
      var indices := PlaneIndices(subdivisions);
      InBounds(indices, |vertices|) &&
      forall t :: 0 <= t && 3 * t + 2 < |indices| ==>
        FaceCross(vertices, indices, t) == PlaneUp(width, height, subdivisions)
  {
    var up := PlaneUp(width, height, subdivisions);
    var vertices := PlaneVertices(width, height, subdivisions);
    var indices := PlaneIndices(subdivisions);
    PlaneFacesTriples(width, height, subdivisions);
    PlaneValid(width, height, subdivisions);
    forall t | 0 <= t && 3 * t + 2 < |indices|
      ensures FaceCross(vertices, indices, t) == up
    {
      TriplesAt(indices, HasCross(vertices, up), t);
    }
  }

  /** The plane's index list is a list of triangles with cross product PlaneUp. */
  lemma PlaneFacesTriples(width: real, height: real, subdivisions: nat)
    requires subdivisions >= 1
    ensures Triples(PlaneIndices(subdivisions),
                    HasCross(PlaneVertices(width, height, subdivisions), PlaneUp(width, height, subdivisions)))
  {
    var p := HasCross(PlaneVertices(width, height, subdivisions), PlaneUp(width, height, subdivisions));
    var g := PlaneCells(subdivisions);
    forall row: nat, col: nat | row < subdivisions && col < subdivisions
      ensures Triples(g(row, col), p)
    {
      PlaneCellFaces(width, height, subdivisions, row, col);
    }
    CellsTriples(subdivisions, subdivisions, g, p);
  }
}
