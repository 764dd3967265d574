/** The value types of the mesh container the generators fill: a vertex list plus a
    triangle index list, and the small amount of vector arithmetic they use.
    Floating-point numbers are modelled by reals. */
module Mesh {

  datatype Vec2 = Vec2(x: real, y: real)

  datatype Vec3 = Vec3(x: real, y: real, z: real)

  /** One vertex: position, normal and texture coordinate, in that field order. */
  datatype Vertex = Vertex(pos: Vec3, normal: Vec3, uv: Vec2)

  /** A vertex list and a triangle list: indices 3t, 3t+1, 3t+2 name triangle t. */
  datatype MeshData = MeshData(vertices: seq<Vertex>, indices: seq<nat>)

  /** The math collaborators the generators call but whose code is not part of this
      model: the constant PI, cos and sin, and Normalize on vectors. */
  datatype MathLib = MathLib(pi: real, cos: real -> real, sin: real -> real, normalize: Vec3 -> Vec3)

  const Zero: Vec3 := Vec3(0.0, 0.0, 0.0)
  const Up: Vec3 := Vec3(0.0, 1.0, 0.0)
  const Down: Vec3 := Vec3(0.0, -1.0, 0.0)

  function Add(a: Vec3, b: Vec3): Vec3 {
    Vec3(a.x + b.x, a.y + b.y, a.z + b.z)
  }

  function Sub(a: Vec3, b: Vec3): Vec3 {
    Vec3(a.x - b.x, a.y - b.y, a.z - b.z)
  }

  function Cross(a: Vec3, b: Vec3): Vec3 {
    Vec3(a.y * b.z - a.z * b.y, a.z * b.x - a.x * b.z, a.x * b.y - a.y * b.x)
  }

  /** Every index names an existing vertex. */
  predicate InBounds(indices: seq<nat>, vertexCount: nat) {
    forall k :: 0 <= k < |indices| ==> indices[k] < vertexCount
  }

  /** The container's invariant: a whole number of triangles, none pointing outside
      the vertex list. */
  predicate ValidMesh(mesh: MeshData) {
    |mesh.indices| % 3 == 0 && InBounds(mesh.indices, |mesh.vertices|)
  }

  /** The un-normalised normal of the triangle with corners a, b, c: the cross product
      of its two edges leaving a. */
  function TriangleCross(vertices: seq<Vertex>, a: nat, b: nat, c: nat): Vec3
    requires a < |vertices| && b < |vertices| && c < |vertices|
  {
    var p0 := vertices[a].pos;
    Cross(Sub(vertices[b].pos, p0), Sub(vertices[c].pos, p0))
  }

  /** A triangle's cross product depends only on the positions of its corners. */
  lemma TriangleCrossSame(vs: seq<Vertex>, ws: seq<Vertex>, a: nat, b: nat, c: nat)
    requires a < |vs| && b < |vs| && c < |vs| && a < |ws| && b < |ws| && c < |ws|
    requires vs[a].pos == ws[a].pos && vs[b].pos == ws[b].pos && vs[c].pos == ws[c].pos
    ensures TriangleCross(vs, a, b, c) == TriangleCross(ws, a, b, c)
  {
  }

  /** The un-normalised normal of triangle t of a mesh. */
  function FaceCross(vertices: seq<Vertex>, indices: seq<nat>, t: nat): Vec3
    requires 3 * t + 2 < |indices|
    requires InBounds(indices, |vertices|)
  {
    TriangleCross(vertices, indices[3 * t], indices[3 * t + 1], indices[3 * t + 2])
  }

  /** s is a list of whole triangles, each of which satisfies p. */
  ghost predicate Triples<T>(s: seq<T>, p: (T, T, T) -> bool)
    decreases |s|
  {
    |s| == 0 || (|s| >= 3 && p(s[0], s[1], s[2]) && Triples(s[3..], p))
  }

  /** Two triangle lists placed one after the other make a triangle list. */
  lemma {:induction false} TriplesConcat<T>(a: seq<T>, b: seq<T>, p: (T, T, T) -> bool)
    requires Triples(a, p) && Triples(b, p)
    ensures Triples(a + b, p)
    decreases |a|
  {
    if |a| == 0 {
      assert a + b == b;
    } else {
      TriplesConcat(a[3..], b, p);
      assert (a + b)[3..] == a[3..] + b;
      assert (a + b)[0] == a[0] && (a + b)[1] == a[1] && (a + b)[2] == a[2];
    }
  }

  /** Three triangle lists one after the other make a triangle list. */
  lemma TriplesConcat3<T>(a: seq<T>, b: seq<T>, c: seq<T>, p: (T, T, T) -> bool)
    requires Triples(a, p) && Triples(b, p) && Triples(c, p)
    ensures Triples(a + b + c, p)
  {
    TriplesConcat(a, b, p);
    TriplesConcat(a + b, c, p);
  }

  /** Triangle t of a triangle list satisfies p, and the list holds whole triangles. */
  lemma {:induction false} TriplesAt<T>(s: seq<T>, p: (T, T, T) -> bool, t: nat)
    requires Triples(s, p) && 3 * t + 2 < |s|
    ensures p(s[3 * t], s[3 * t + 1], s[3 * t + 2])
    decreases t
  {
    if t > 0 {
      TriplesAt(s[3..], p, t - 1);
      assert s[3..][3 * (t - 1)] == s[3 * t];
      assert s[3..][3 * (t - 1) + 1] == s[3 * t + 1];
      assert s[3..][3 * (t - 1) + 2] == s[3 * t + 2];
    }
  }

  /** A triangle list has a length divisible by three. */
  lemma {:induction false} TriplesLength<T>(s: seq<T>, p: (T, T, T) -> bool)
    requires Triples(s, p)
    ensures |s| % 3 == 0
    decreases |s|
  {
    if |s| > 0 {
      TriplesLength(s[3..], p);
    }
  }

  /** All three corners satisfy q. */
  function Corners(q: nat -> bool): (nat, nat, nat) -> bool {
    (a: nat, b: nat, c: nat) => q(a) && q(b) && q(c)
  }

  /** Corners all below n. */
  function Below(n: nat): (nat, nat, nat) -> bool {
    Corners((k: nat) => k < n)
  }

  /** Corners all name vertices, and the triangle's cross product is `normal`. */
  function HasCross(vertices: seq<Vertex>, normal: Vec3): (nat, nat, nat) -> bool {
    (a: nat, b: nat, c: nat) =>
      a < |vertices| && b < |vertices| && c < |vertices| && TriangleCross(vertices, a, b, c) == normal
  }

  /** A single triangle is a triangle list. */
  lemma TriplesOne<T>(a: T, b: T, c: T, p: (T, T, T) -> bool)
    requires p(a, b, c)
    ensures Triples([a, b, c], p)
  {
    assert [a, b, c][3..] == [];
  }

  /** Two triangles make a triangle list. */
  lemma TriplesPair<T>(a: T, b: T, c: T, d: T, e: T, f: T, p: (T, T, T) -> bool)
    requires p(a, b, c) && p(d, e, f)
    ensures Triples([a, b, c, d, e, f], p)
  {
    TriplesOne(d, e, f, p);
    assert [a, b, c, d, e, f][3..] == [d, e, f];
  }

  /** In a triangle list whose corners all satisfy q, every index satisfies q. */
  lemma {:induction false} TriplesAll(s: seq<nat>, q: nat -> bool)
    requires Triples(s, Corners(q))
    ensures forall k :: 0 <= k < |s| ==> q(s[k])
    decreases |s|
  {
    if |s| > 0 {
      TriplesAll(s[3..], q);
      assert forall k :: 3 <= k < |s| ==> s[k] == s[3..][k - 3];
    }
  }

  /** A triangle list whose corners all lie below the vertex count is a valid mesh. */
  lemma TriplesValid(mesh: MeshData)
    requires Triples(mesh.indices, Below(|mesh.vertices|))
    ensures ValidMesh(mesh)
  {
    var q := (k: nat) => k < |mesh.vertices|;
    TriplesLength(mesh.indices, Below(|mesh.vertices|));
    TriplesAll(mesh.indices, q);
  }
}
