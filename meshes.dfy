/** The two procedural mesh generators: the superellipsoid and the 3D heart.
    Each clears a vertex buffer and an index buffer and refills them over a
    (stacks+1) x (slices+1) parameter grid, five floats per vertex
    (x, y, z, u, v), row-major. */
module Meshes {
  import opened Numerics
  import opened Vectors
  import opened GridIndices

  /** Grid resolutions: the generators divide by stacks and slices. */
  type Positive = n: nat | n >= 1 witness 1

  datatype Vertex = Vertex(x: real, y: real, z: real, u: real, v: real) {
    function Position(): Point3
    {
      Point3(x, y, z)
    }

    /** The five floats a vertex occupies in the vertex buffer. */
    function Floats(): seq<real>
    {
      [x, y, z, u, v]
    }
  }

  datatype Surface = Superellipsoid(r: real, s: real) | Heart

  /** k / n, the normalised grid coordinate used for texture coordinates. */
  function Fraction(k: nat, n: Positive): real
  {
    (k as real) / (n as real)
  }

  /** Row i's angle phi, from -pi/2 to pi/2 in stacks steps. */
  function Latitude(m: Transcendental, stacks: Positive, i: nat): (phi: real)
    ensures phi == -(m.pi / 2.0) + Fraction(i, stacks) * m.pi
    ensures i == 0 ==> phi == -(m.pi / 2.0)
    ensures i == stacks ==> phi == m.pi / 2.0
  {
    DivScale(i as real, m.pi, stacks as real);
    -(m.pi / 2.0) + (i as real) * m.pi / (stacks as real)
  }

  /** Column j's angle theta, from -pi to pi in slices steps. */
  function Longitude(m: Transcendental, slices: Positive, j: nat): (theta: real)
    ensures theta == -m.pi + Fraction(j, slices) * 2.0 * m.pi
    ensures j == 0 ==> theta == -m.pi
    ensures j == slices ==> theta == m.pi
  {
    DivScale(j as real * 2.0, m.pi, slices as real);
    DivScale(j as real, 2.0, slices as real);
    -m.pi + (j as real) * 2.0 * m.pi / (slices as real)
  }

  /** Dividing a product by c is scaling one factor by 1 / c. */
  lemma DivScale(a: real, b: real, c: real)
    requires c != 0.0
    ensures a * b / c == (a / c) * b
  {
  }

  /** A point in space. */
  datatype Point3 = Point3(x: real, y: real, z: real)

  /** The superellipsoid point at latitude phi and longitude theta. */
  function SuperellipsoidPoint(m: Transcendental, r: real, s: real, phi: real, theta: real): (p: Point3)
    ensures r >= 0.0 && m.sin(phi) >= 0.0 ==> p.z >= 0.0
    ensures r >= 0.0 && m.sin(phi) < 0.0 ==> p.z <= 0.0
  {
    Point3(r * Spow(m, m.cos(phi), s) * Spow(m, m.cos(theta), s),
           r * Spow(m, m.cos(phi), s) * Spow(m, m.sin(theta), s),
           r * Spow(m, m.sin(phi), s))
  }

  /** The point's horizontal position lies in the vertical plane through the
      z-axis along d = (spow(cos theta), spow(sin theta)); for r >= 0 and
      cos phi >= 0 it is on the side d points to. */
  lemma SuperellipsoidMeridian(m: Transcendental, r: real, s: real, phi: real, theta: real)
    ensures InVerticalPlane(SuperellipsoidPoint(m, r, s, phi, theta), Spow(m, m.cos(theta), s), Spow(m, m.sin(theta), s))
    ensures r >= 0.0 && m.cos(phi) >= 0.0 ==>
              Facing(SuperellipsoidPoint(m, r, s, phi, theta), Spow(m, m.cos(theta), s), Spow(m, m.sin(theta), s))
  {
    var p := SuperellipsoidPoint(m, r, s, phi, theta);
    var a, c, sn := Spow(m, m.cos(phi), s), Spow(m, m.cos(theta), s), Spow(m, m.sin(theta), s);
    assert m.cos(phi) >= 0.0 ==> a >= 0.0;
    PlaneAlgebra(r, a, c, sn, p);
  }

  /** p lies in the vertical plane through the z-axis along (c, sn). */
  predicate InVerticalPlane(p: Point3, c: real, sn: real)
  {
    p.x * sn == p.y * c
  }

  /** p's horizontal part points to the side that (c, sn) points to. */
  predicate Facing(p: Point3, c: real, sn: real)
  {
    p.x * c + p.y * sn >= 0.0
  }

  /** (x, y) = r a (c, sn) lies on the line along (c, sn), on its positive
      side when r and a are non-negative. */
  lemma PlaneAlgebra(r: real, a: real, c: real, sn: real, p: Point3)
    requires p.x == r * a * c && p.y == r * a * sn
    ensures InVerticalPlane(p, c, sn)
    ensures r >= 0.0 && a >= 0.0 ==> Facing(p, c, sn)
  {
    var k := r * a;
    Commute3(k, c, sn);
    if r >= 0.0 && a >= 0.0 {
      assert k >= 0.0 && c * c >= 0.0 && sn * sn >= 0.0;
      assert (k * c) * c == k * (c * c) >= 0.0;
      assert (k * sn) * sn == k * (sn * sn) >= 0.0;
    }
  }

  /** The superellipsoid vertex at row i and column j: the point at that row's
      latitude and that column's longitude, with the grid fractions as texture
      coordinates. */
  function SuperellipsoidVertex(m: Transcendental, r: real, s: real, stacks: Positive, slices: Positive, i: nat, j: nat): (vertex: Vertex)
    ensures i <= stacks && j <= slices ==> 0.0 <= vertex.u <= 1.0 && 0.0 <= vertex.v <= 1.0
    ensures InVerticalPlane(vertex.Position(), Spow(m, m.cos(Longitude(m, slices, j)), s), Spow(m, m.sin(Longitude(m, slices, j)), s))
  {
    FractionRange(i, stacks);
    FractionRange(j, slices);
    var phi, theta := Latitude(m, stacks, i), Longitude(m, slices, j);
    var p := SuperellipsoidPoint(m, r, s, phi, theta);
    SuperellipsoidMeridian(m, r, s, phi, theta);
    assert Point3(p.x, p.y, p.z) == p;
    Vertex(p.x, p.y, p.z, Fraction(j, slices), Fraction(i, stacks))
  }

  lemma Commute3(a: real, b: real, c: real)
    ensures (a * b) * c == (a * c) * b
  {
  }

  /** Row i's depth z = (i / stacks - 0.5) * 2, from -1 to 1. */
  function HeartDepth(stacks: Positive, i: nat): (z: real)
    ensures z == 2.0 * (i as real) / (stacks as real) - 1.0
    ensures i <= stacks ==> -1.0 <= z <= 1.0
  {
    FractionRange(i, stacks);
    DivScale(2.0, i as real, stacks as real);
    (Fraction(i, stacks) - 0.5) * 2.0
  }

  /** The heart point at row i and column j: the heart curve at angle
      2 pi j / slices, shrunk by the taper sqrt(1 - z^2) of its row, at height
      0.8 z. Rows run from height -0.8 to 0.8. */
  function HeartVertex(m: Transcendental, stacks: Positive, slices: Positive, i: nat, j: nat): (vertex: Vertex)
    ensures vertex.z == 0.8 * HeartDepth(stacks, i)
    ensures i <= stacks ==> -0.8 <= vertex.z <= 0.8
    ensures vertex.u == Fraction(j, slices) && vertex.v == Fraction(i, stacks)
  {
    var z := HeartDepth(stacks, i);
    var depthScale := m.sqrt(1.0 - z * z);
    var curve := HeartCurve(m, Fraction(j, slices) * 2.0 * m.pi);
    Vertex(curve.x * 0.04 * depthScale,
           curve.y * 0.04 * depthScale,
           z * 0.8,
           Fraction(j, slices),
           Fraction(i, stacks))
  }

  function SurfaceVertex(m: Transcendental, surface: Surface, stacks: Positive, slices: Positive, i: nat, j: nat): Vertex
  {
    match surface
    case Superellipsoid(r, s) => SuperellipsoidVertex(m, r, s, stacks, slices, i, j)
    case Heart => HeartVertex(m, stacks, slices, i, j)
  }

  /** What a generator stores at grid point (i, j). */
  type Grid = (nat, nat) -> Vertex

  function SurfaceGrid(m: Transcendental, surface: Surface, stacks: Positive, slices: Positive): Grid
  {
    (i: nat, j: nat) => SurfaceVertex(m, surface, stacks, slices, i, j)
  }

  /** Floats of the first j vertices of row i. */
  function VertexRow(grid: Grid, i: nat, j: nat): seq<real>
  {
    if j == 0 then [] else VertexRow(grid, i, j - 1) + grid(i, j - 1).Floats()
  }

  /** Floats of the first n complete rows, each of columns vertices. */
  function VertexRows(grid: Grid, columns: nat, n: nat): seq<real>
  {
    if n == 0 then [] else VertexRows(grid, columns, n - 1) + VertexRow(grid, n - 1, columns)
  }

  /** The whole vertex buffer of a surface: rows 0 .. stacks, columns 0 .. slices. */
  function VertexBuffer(m: Transcendental, surface: Surface, stacks: Positive, slices: Positive): seq<real>
  {
    VertexRows(SurfaceGrid(m, surface, stacks, slices), slices + 1, stacks + 1)
  }

  /** generateSuperellipsoid: whatever the buffers held before, afterwards they
      hold exactly the superellipsoid's grid vertices and the grid's triangles. */
  method GenerateSuperellipsoid(vertices: Vector<real>, indices: Vector<nat>, m: Transcendental,
                                r: real, s: real, stacks: Positive, slices: Positive)
    modifies vertices, indices
    ensures vertices.elems == VertexBuffer(m, Superellipsoid(r, s), stacks, slices)
    ensures indices.elems == IndexBuffer(stacks, slices)
    ensures |vertices.elems| == 5 * ((stacks + 1) * (slices + 1))
    ensures |indices.elems| == 6 * (stacks * slices)
    ensures forall x :: x in indices.elems ==> x < (stacks + 1) * (slices + 1)
  {
    vertices.Clear();
    indices.Clear();
    AppendGridVertices(vertices, SurfaceGrid(m, Superellipsoid(r, s), stacks, slices), stacks + 1, slices + 1);
    AppendGridIndices(indices, stacks, slices);
    BufferSizes(m, Superellipsoid(r, s), stacks, slices);
  }

  /** generate3DHeart: the heart-curve cross-section tapered by sqrt(1 - z^2)
      along z, over the same grid and with the same triangles. */
  method Generate3DHeart(vertices: Vector<real>, indices: Vector<nat>, m: Transcendental,
                         stacks: Positive, slices: Positive)
    modifies vertices, indices
    ensures vertices.elems == VertexBuffer(m, Heart, stacks, slices)
    ensures indices.elems == IndexBuffer(stacks, slices)
    ensures |vertices.elems| == 5 * ((stacks + 1) * (slices + 1))
    ensures |indices.elems| == 6 * (stacks * slices)
    ensures forall x :: x in indices.elems ==> x < (stacks + 1) * (slices + 1)
  {
    vertices.Clear();
    indices.Clear();
    AppendGridVertices(vertices, SurfaceGrid(m, Heart, stacks, slices), stacks + 1, slices + 1);
    AppendGridIndices(indices, stacks, slices);
    BufferSizes(m, Heart, stacks, slices);
  }

  /** The vertex loops of both generators: rows rows of columns vertices each,
      five floats per vertex. The generators run both loops to their bound
      inclusive, so they pass stacks + 1 rows of slices + 1 columns. */
  method AppendGridVertices(vertices: Vector<real>, grid: Grid, rows: nat, columns: nat)
    modifies vertices
    ensures vertices.elems == old(vertices.elems) + VertexRows(grid, columns, rows)
  {
    ghost var start := vertices.elems;
    var i := 0;
    while i < rows
      invariant 0 <= i <= rows
      invariant vertices.elems == start + VertexRows(grid, columns, i)
    {
      AppendVertexRow(vertices, grid, columns, i);
      i := i + 1;
    }
  }

  /** The inner vertex loop: the vertices of row i, left to right. */
  method AppendVertexRow(vertices: Vector<real>, grid: Grid, columns: nat, i: nat)
    modifies vertices
    ensures vertices.elems == old(vertices.elems) + VertexRow(grid, i, columns)
  {
    ghost var start := vertices.elems;
    var j := 0;
    while j < columns
      invariant 0 <= j <= columns
      invariant vertices.elems == start + VertexRow(grid, i, j)
    {
      var vertex := grid(i, j);
      vertices.Append(vertex.Floats());
      j := j + 1;
    }
  }

  lemma {:induction false} VertexRowLength(grid: Grid, i: nat, j: nat)
    ensures |VertexRow(grid, i, j)| == 5 * j
  {
    if j > 0 {
      VertexRowLength(grid, i, j - 1);
    }
  }

  lemma {:induction false} VertexRowAt(grid: Grid, i: nat, j: nat, c: nat, k: nat)
    requires c < j && k < 5
    ensures |VertexRow(grid, i, j)| == 5 * j
    ensures VertexRow(grid, i, j)[5 * c + k] == grid(i, c).Floats()[k]
  {
    VertexRowLength(grid, i, j);
    VertexRowLength(grid, i, j - 1);
    if c < j - 1 {
      VertexRowAt(grid, i, j - 1, c, k);
    }
  }

  lemma {:induction false} VertexRowsLength(grid: Grid, columns: nat, n: nat)
    ensures |VertexRows(grid, columns, n)| == 5 * (n * columns)
  {
    if n > 0 {
      VertexRowsLength(grid, columns, n - 1);
      VertexRowLength(grid, n - 1, columns);
      assert n * columns == (n - 1) * columns + columns;
    }
  }

  lemma {:induction false} VertexRowsAt(grid: Grid, columns: nat, n: nat, i: nat, c: nat, k: nat)
    requires i < n && c < columns && k < 5
    ensures 5 * (i * columns + c) + k < |VertexRows(grid, columns, n)|
    ensures VertexRows(grid, columns, n)[5 * (i * columns + c) + k] == grid(i, c).Floats()[k]
  {
    VertexRowsLength(grid, columns, n - 1);
    if i < n - 1 {
      VertexRowsAt(grid, columns, n - 1, i, c, k);
    } else {
      VertexRowAt(grid, i, columns, c, k);
      assert 5 * (i * columns + c) + k == 5 * (i * columns) + (5 * c + k);
    }
  }

  lemma GridLayout(grid: Grid, rows: nat, columns: nat, i: nat, j: nat)
    requires i < rows && j < columns
    ensures var p := 5 * (i * columns + j);
            p + 5 <= |VertexRows(grid, columns, rows)| &&
            VertexRows(grid, columns, rows)[p..p + 5] == grid(i, j).Floats()
  {
    var p := 5 * (i * columns + j);
    var buffer := VertexRows(grid, columns, rows);
    VertexRowsAt(grid, columns, rows, i, j, 4);
    assert p + 5 <= |buffer|;
    forall k | 0 <= k < 5
      ensures buffer[p..p + 5][k] == grid(i, j).Floats()[k]
    {
      VertexRowsAt(grid, columns, rows, i, j, k);
    }
    assert buffer[p..p + 5] == grid(i, j).Floats();
  }

  /** The vertex buffer holds exactly 5 floats for each of the
      (stacks+1) * (slices+1) grid vertices. */
  lemma VertexBufferLength(m: Transcendental, surface: Surface, stacks: Positive, slices: Positive)
    ensures |VertexBuffer(m, surface, stacks, slices)| == 5 * ((stacks + 1) * (slices + 1))
  {
    VertexRowsLength(SurfaceGrid(m, surface, stacks, slices), slices + 1, stacks + 1);
  }

  /** What both generators promise about the sizes of their buffers: the vertex
      count, whole triangles only, and every index naming an existing vertex. */
  lemma BufferSizes(m: Transcendental, surface: Surface, stacks: Positive, slices: Positive)
    ensures |VertexBuffer(m, surface, stacks, slices)| == 5 * ((stacks + 1) * (slices + 1))
    ensures |IndexBuffer(stacks, slices)| == 6 * (stacks * slices)
    ensures forall x :: x in IndexBuffer(stacks, slices) ==> x < (stacks + 1) * (slices + 1)
  {
    VertexBufferLength(m, surface, stacks, slices);
    IndexBufferLength(stacks, slices);
    IndexBufferBound(stacks, slices);
  }

  /** Vertex (i, j) starts at float offset 5 * (i * (slices + 1) + j), the flat
      index the triangles refer to, and holds that grid point's vertex. */
  lemma VertexBufferLayout(m: Transcendental, surface: Surface, stacks: Positive, slices: Positive, i: nat, j: nat)
    requires i <= stacks && j <= slices
    ensures var p := 5 * (i * (slices + 1) + j);
            p + 5 <= |VertexBuffer(m, surface, stacks, slices)| &&
            VertexBuffer(m, surface, stacks, slices)[p..p + 5] == SurfaceVertex(m, surface, stacks, slices, i, j).Floats()
  {
    var grid := SurfaceGrid(m, surface, stacks, slices);
    GridLayout(grid, stacks + 1, slices + 1, i, j);
    assert grid(i, j) == SurfaceVertex(m, surface, stacks, slices, i, j);
  }

  lemma FractionRange(k: nat, n: Positive)
    ensures 0.0 <= Fraction(k, n)
    ensures k <= n ==> Fraction(k, n) <= 1.0
    ensures Fraction(k, n) == 0.0 <==> k == 0
    ensures Fraction(k, n) == 1.0 <==> k == n
  {
    var q := Fraction(k, n);
    assert q * (n as real) == k as real;
  }

  /** Every vertex's texture coordinates are (j / slices, i / stacks), inside
      [0, 1]; they reach 0 exactly on the first row and column and 1 exactly on
      the last, so the seam closes. */
  lemma SurfaceUV(m: Transcendental, surface: Surface, stacks: Positive, slices: Positive, i: nat, j: nat)
    requires i <= stacks && j <= slices
    ensures var vertex := SurfaceVertex(m, surface, stacks, slices, i, j);
            vertex.u * (slices as real) == j as real && vertex.v * (stacks as real) == i as real &&
            0.0 <= vertex.u <= 1.0 && 0.0 <= vertex.v <= 1.0 &&
            (vertex.u == 0.0 <==> j == 0) && (vertex.u == 1.0 <==> j == slices) &&
            (vertex.v == 0.0 <==> i == 0) && (vertex.v == 1.0 <==> i == stacks)
  {
    FractionRange(j, slices);
    FractionRange(i, stacks);
    match surface
    case Superellipsoid(r, s) =>
      var vertex := SuperellipsoidVertex(m, r, s, stacks, slices, i, j);
      assert vertex.u == Fraction(j, slices) && vertex.v == Fraction(i, stacks);
    case Heart =>
  }

  /** The superellipsoid's latitude runs from -pi/2 on the first row to pi/2 on
      the last, and its longitude from -pi to pi. */
  lemma SuperellipsoidAngles(m: Transcendental, stacks: Positive, slices: Positive, i: nat, j: nat)
    requires m.pi > 0.0 && i <= stacks && j <= slices
    ensures -(m.pi / 2.0) <= Latitude(m, stacks, i) <= m.pi / 2.0
    ensures Latitude(m, stacks, i) == -(m.pi / 2.0) <==> i == 0
    ensures Latitude(m, stacks, i) == m.pi / 2.0 <==> i == stacks
    ensures -m.pi <= Longitude(m, slices, j) <= m.pi
    ensures Longitude(m, slices, j) == -m.pi <==> j == 0
    ensures Longitude(m, slices, j) == m.pi <==> j == slices
  {
    var p, q := Fraction(i, stacks), Fraction(j, slices);
    FractionRange(i, stacks);
    FractionRange(j, slices);
    ScaleRange(p, m.pi);
    ScaleRange(q, 2.0 * m.pi);
    var lat, lon := p * m.pi, q * (2.0 * m.pi);
    assert q * 2.0 * m.pi == lon;
    assert Latitude(m, stacks, i) == -(m.pi / 2.0) + lat;
    assert Longitude(m, slices, j) == -m.pi + lon;
    assert 0.0 <= lon <= 2.0 * m.pi;
  }

  /** Scaling by a positive length maps [0, 1] onto [0, length], ends to ends. */
  lemma ScaleRange(q: real, length: real)
    requires 0.0 <= q <= 1.0 && length > 0.0
    ensures 0.0 <= q * length <= length
    ensures q * length == 0.0 <==> q == 0.0
    ensures q * length == length <==> q == 1.0
  {
    if q < 1.0 {
      assert q * length < length;
    }
    if q > 0.0 {
      assert q * length > 0.0;
    }
  }

  /** With exponent 1 every superellipsoid vertex lies on the sphere of radius
      r, given the Pythagorean identity and pow(y, 1) == y. */
  lemma SuperellipsoidSphere(m: Transcendental, r: real, stacks: Positive, slices: Positive, i: nat, j: nat)
    requires forall a :: m.cos(a) * m.cos(a) + m.sin(a) * m.sin(a) == 1.0
    requires forall y :: y >= 0.0 ==> m.pow(y, 1.0) == y
    ensures OnSphere(SuperellipsoidVertex(m, r, 1.0, stacks, slices, i, j).Position(), r)
  {
    var phi, theta := Latitude(m, stacks, i), Longitude(m, slices, j);
    PointOnSphere(m, r, phi, theta);
    assert SuperellipsoidVertex(m, r, 1.0, stacks, slices, i, j).Position() == SuperellipsoidPoint(m, r, 1.0, phi, theta);
  }

  /** The same for the point at any latitude and longitude. */
  lemma PointOnSphere(m: Transcendental, r: real, phi: real, theta: real)
    requires forall a :: m.cos(a) * m.cos(a) + m.sin(a) * m.sin(a) == 1.0
    requires forall y :: y >= 0.0 ==> m.pow(y, 1.0) == y
    ensures OnSphere(SuperellipsoidPoint(m, r, 1.0, phi, theta), r)
  {
    var cp, sp, ct, st := m.cos(phi), m.sin(phi), m.cos(theta), m.sin(theta);
    SpowIdentity(m, cp);
    SpowIdentity(m, sp);
    SpowIdentity(m, ct);
    SpowIdentity(m, st);
    assert cp * cp + sp * sp == 1.0;
    assert ct * ct + st * st == 1.0;
    SphericalPoint(r, cp, sp, ct, st, SuperellipsoidPoint(m, r, 1.0, phi, theta));
  }

  /** The point lies on the sphere of radius r about the origin. */
  predicate OnSphere(p: Point3, r: real)
  {
    p.x * p.x + p.y * p.y + p.z * p.z == r * r
  }

  lemma SphericalPoint(r: real, cp: real, sp: real, ct: real, st: real, p: Point3)
    requires cp * cp + sp * sp == 1.0 && ct * ct + st * st == 1.0
    requires p.x == r * cp * ct && p.y == r * cp * st && p.z == r * sp
    ensures OnSphere(p, r)
  {
    var x, y, z := p.x, p.y, p.z;
    calc {
      x * x + y * y + z * z;
      (r * cp * ct) * (r * cp * ct) + (r * cp * st) * (r * cp * st) + (r * sp) * (r * sp);
      (r * r) * (cp * cp) * (ct * ct + st * st) + (r * r) * (sp * sp);
      (r * r) * (cp * cp) + (r * r) * (sp * sp);
      (r * r) * (cp * cp + sp * sp);
      r * r;
    }
  }

  /** The heart's row depth is z = 2 i / stacks - 1, in [-1, 1], so the taper's
      radicand 1 - z^2 is never negative, and it is zero exactly on the first
      and the last row. */
  lemma HeartDepthRange(stacks: Positive, i: nat)
    requires i <= stacks
    ensures HeartDepth(stacks, i) == 2.0 * (i as real) / (stacks as real) - 1.0
    ensures -1.0 <= HeartDepth(stacks, i) <= 1.0
    ensures 1.0 - HeartDepth(stacks, i) * HeartDepth(stacks, i) >= 0.0
    ensures 1.0 - HeartDepth(stacks, i) * HeartDepth(stacks, i) == 0.0 <==> i == 0 || i == stacks
  {
    var q := Fraction(i, stacks);
    var z := HeartDepth(stacks, i);
    FractionRange(i, stacks);
    assert 2.0 * (i as real) / (stacks as real) == 2.0 * q;
    assert z == 2.0 * q - 1.0;
    assert 1.0 - z * z == 4.0 * (q * (1.0 - q));
    if q != 0.0 && q != 1.0 {
      assert q * (1.0 - q) > 0.0;
    }
  }

  /** The taper sqrt(1 - z^2) collapses the heart's cross-section to the axis on
      its first and last rows, where z is -0.8 and 0.8. */
  lemma HeartTaperCollapses(m: Transcendental, stacks: Positive, slices: Positive, j: nat)
    requires m.sqrt(0.0) == 0.0
    ensures HeartVertex(m, stacks, slices, 0, j).x == 0.0 && HeartVertex(m, stacks, slices, 0, j).y == 0.0
    ensures HeartVertex(m, stacks, slices, 0, j).z == -0.8
    ensures HeartVertex(m, stacks, slices, stacks, j).x == 0.0 && HeartVertex(m, stacks, slices, stacks, j).y == 0.0
    ensures HeartVertex(m, stacks, slices, stacks, j).z == 0.8
  {
    HeartDepthRange(stacks, 0);
    HeartDepthRange(stacks, stacks);
    FractionRange(0, stacks);
    FractionRange(stacks, stacks);
  }
}
