/**
 * Marching cubes as specification functions: the corner mask of a cell, the
 * crossing points on its edges, the triangles the tables prescribe, how a
 * section buffer grows when a triangle is appended, and the triangles of a
 * whole Z-range section in the order the source visits the cells.
 */
module Polygonizer {
  import opened Geometry
  import opened MeshBuffers
  import opened VoxelGrid

  /**
   * The lookup tables of MarchingCubeGen.h (not part of this model).
   * Only their shapes are assumed, by WellFormed.
   */
  datatype Tables = Tables(
    cubeEdgeFlags: seq<bv16>,
    triangleConnection: seq<seq<int>>,
    edgeConnection: seq<(int, int)>,
    vertexOffset: seq<IntVec>,
    edgeDirection: seq<Vec>)
  {
    ghost predicate WellFormed() {
      && |cubeEdgeFlags| == 256
      && |triangleConnection| == 256
      && (forall m :: 0 <= m < 256 ==> |triangleConnection[m]| >= 15)
      // an entry is a negative sentinel or an edge number 0..11
      && (forall m, k :: 0 <= m < 256 && 0 <= k < |triangleConnection[m]| ==> triangleConnection[m][k] < 12)
      // a triplet that does not start with a sentinel names three edges
      && (forall m, j :: 0 <= m < 256 && 0 <= j < 5 && triangleConnection[m][3 * j] >= 0 ==>
            triangleConnection[m][3 * j + 1] >= 0 && triangleConnection[m][3 * j + 2] >= 0)
      && |edgeConnection| == 12
      && (forall e :: 0 <= e < 12 ==> 0 <= edgeConnection[e].0 < 8 && 0 <= edgeConnection[e].1 < 8)
      && |vertexOffset| == 8
      && (forall i :: 0 <= i < 8 ==> vertexOffset[i].x in {0, 1} && vertexOffset[i].y in {0, 1} && vertexOffset[i].z in {0, 1})
      && |edgeDirection| == 12
    }
  }

  /** Tables of the shape the polygonizer indexes. */
  type ShapedTables = t: Tables | t.WellFormed()
    witness Tables(seq(256, _ => 0), seq(256, _ => seq(15, _ => -1)), seq(12, _ => (0, 0)),
                   seq(8, _ => IntVec(0, 0, 0)), seq(12, _ => Zero))

  /** `1 << i` for a corner number i. */
  function CornerBit(i: nat): bv8
    requires i < 8
  {
    (1 as bv8) << i
  }

  /** `1 << i` for an edge number i. */
  function EdgeBit(i: nat): bv16
    requires i < 12
  {
    (1 as bv16) << i
  }

  /** `VertexMask & (1 << i)`: corner i is flagged in the mask. */
  predicate HasCorner(mask: bv8, i: nat)
    requires i < 8
  {
    mask & CornerBit(i) != 0
  }

  /** `VertexMask |= 1 << i`. */
  function WithCorner(mask: bv8, i: nat): bv8
    requires i < 8
  {
    mask | CornerBit(i)
  }

  /** `EdgeMask & (1 << e)`: edge e is crossed. */
  predicate EdgeFlagged(edgeMask: bv16, e: nat)
    requires e < 12
  {
    edgeMask & EdgeBit(e) != 0
  }

  /** A corner mask used as an index into the 256-entry tables. */
  function MaskIndex(mask: bv8): (m: int)
    ensures 0 <= m < 256
  {
    mask as int
  }

  /** VertexMask after the first n corners: bit i set for each corner i < n at or below the level. */
  function CornerMask(cube: seq<real>, level: real, n: nat): bv8
    requires n <= |cube| && n <= 8
  {
    if n == 0 then 0
    else if cube[n - 1] <= level then WithCorner(CornerMask(cube, level, n - 1), n - 1)
    else CornerMask(cube, level, n - 1)
  }

  /** Bit i of the mask is set iff corner i is at or below the surface level. */
  lemma {:induction false} CornerMaskBits(cube: seq<real>, level: real, n: nat)
    requires n <= |cube| && n <= 8
    ensures forall i :: 0 <= i < 8 ==> (HasCorner(CornerMask(cube, level, n), i) <==> (i < n && cube[i] <= level))
  {
    if n > 0 {
      CornerMaskBits(cube, level, n - 1);
      var m := CornerMask(cube, level, n - 1);
      forall i | 0 <= i < 8
        ensures HasCorner(CornerMask(cube, level, n), i) <==> (i < n && cube[i] <= level)
      {
        if cube[n - 1] <= level {
          WithCornerBit(m, i, n - 1);
        }
      }
    }
  }

  lemma WithCornerBit(m: bv8, i: nat, j: nat)
    requires i < 8 && j < 8
    ensures HasCorner(WithCorner(m, j), i) <==> (HasCorner(m, i) || i == j)
  {
  }

  /** A mask is determined by its eight bits. */
  lemma MaskFromBits(m: bv8, v: bv8)
    requires forall i :: 0 <= i < 8 ==> (HasCorner(m, i) <==> HasCorner(v, i))
    ensures m == v
  {
    assert HasCorner(m, 0) <==> HasCorner(v, 0);
    assert HasCorner(m, 1) <==> HasCorner(v, 1);
    assert HasCorner(m, 2) <==> HasCorner(v, 2);
    assert HasCorner(m, 3) <==> HasCorner(v, 3);
    assert HasCorner(m, 4) <==> HasCorner(v, 4);
    assert HasCorner(m, 5) <==> HasCorner(v, 5);
    assert HasCorner(m, 6) <==> HasCorner(v, 6);
    assert HasCorner(m, 7) <==> HasCorner(v, 7);
  }

  /** The mask is 0 exactly when every corner lies above the level (all outside). */
  lemma CornerMaskZero(cube: seq<real>, level: real)
    requires |cube| == 8
    ensures CornerMask(cube, level, 8) == 0 <==> forall i :: 0 <= i < 8 ==> cube[i] > level
  {
    CornerMaskBits(cube, level, 8);
    if forall i :: 0 <= i < 8 ==> cube[i] > level {
      MaskFromBits(CornerMask(cube, level, 8), 0);
    }
  }

  /** The mask is 255 exactly when every corner lies at or below the level (all inside). */
  lemma CornerMaskFull(cube: seq<real>, level: real)
    requires |cube| == 8
    ensures CornerMask(cube, level, 8) == 255 <==> forall i :: 0 <= i < 8 ==> cube[i] <= level
  {
    CornerMaskBits(cube, level, 8);
    if forall i :: 0 <= i < 8 ==> cube[i] <= level {
      MaskFromBits(CornerMask(cube, level, 8), 255);
    }
  }

  /**
   * TriangleOrder: (0, 1, 2) when the surface level is positive, (2, 1, 0)
   * otherwise. Either way a permutation of {0, 1, 2}.
   */
  function WindingOrder(level: real): (order: seq<int>)
    ensures IsWinding(order)
    ensures order[1] == 1
    ensures order[0] == 0 <==> level > 0.0
  {
    if level > 0.0 then [0, 1, 2] else [2, 1, 0]
  }

  /** A winding: a permutation of the three corners of a triangle. */
  predicate IsWinding(order: seq<int>) {
    && |order| == 3
    && (forall j :: 0 <= j < 3 ==> 0 <= order[j] < 3)
    && order[0] != order[1] && order[1] != order[2] && order[0] != order[2]
  }

  /** The external shading collaborators: the face normal and the random debug colour. */
  datatype Shading = Shading(
    // FVector::CrossProduct of the two edge vectors, normalized, or the up vector
    faceNormal: (Vec, Vec, Vec) -> Vec,
    // FColor::MakeRandomColor for triangle k of a cell
    randomColor: (IntVec, nat) -> Color)

  /** One emitted triangle: its three vertices (world units), its normal and colour. */
  datatype Tri = Tri(v1: Vec, v2: Vec, v3: Vec, normal: Vec, color: Color)

  /** Entry k of a triangle-table row starts a triangle (is not the sentinel). */
  predicate StartsTriangle(row: seq<int>, k: nat)
    requires 3 * k < |row|
  {
    row[3 * k] >= 0
  }

  /**
   * The number of leading triangles in a row, counting from triplet i: the
   * loop of March stops at the first sentinel or after five triangles.
   */
  function TriangleCount(row: seq<int>, i: nat): (n: nat)
    requires |row| >= 15 && i <= 5
    ensures i <= n <= 5
    ensures forall k :: i <= k < n ==> StartsTriangle(row, k)
    ensures n < 5 ==> !StartsTriangle(row, n)
    decreases 5 - i
  {
    if i == 5 || !StartsTriangle(row, i) then i else TriangleCount(row, i + 1)
  }

  /** The crossing point on edge e of the cell, in voxel units. */
  function EdgePoint(t: ShapedTables, level: real, cube: seq<real>, cell: IntVec, e: nat): Vec
    requires |cube| == 8 && e < 12
  {
    var (c0, c1) := t.edgeConnection[e];
    var offset := GetInterpolationOffset(level, cube[c0], cube[c1]);
    var start := t.vertexOffset[c0];
    var dir := t.edgeDirection[e];
    Vec((cell.x + start.x) as real + offset * dir.x,
        (cell.y + start.y) as real + offset * dir.y,
        (cell.z + start.z) as real + offset * dir.z)
  }

  /**
   * EdgeVertex after the edge loop of March: the crossing point for every
   * flagged edge. The source leaves the other entries uninitialised; the model
   * puts the origin there.
   */
  function EdgeVertices(t: ShapedTables, level: real, cube: seq<real>, cell: IntVec, edgeMask: bv16): seq<Vec>
    requires |cube| == 8
  {
    seq(12, e requires 0 <= e < 12 =>
      if EdgeFlagged(edgeMask, e) then EdgePoint(t, level, cube, cell, e) else Zero)
  }

  /** Triangle k of a row: vertices scaled to world units, normal and colour. */
  function MakeTri(t: ShapedTables, sh: Shading, ev: seq<Vec>, mask: int, cell: IntVec, k: nat): Tri
    requires |ev| == 12 && 0 <= mask < 256 && k < 5
    requires StartsTriangle(t.triangleConnection[mask], k)
  {
    var row := t.triangleConnection[mask];
    var a := ev[row[3 * k]].Scale(UnitsPerVoxel as real);
    var b := ev[row[3 * k + 1]].Scale(UnitsPerVoxel as real);
    var c := ev[row[3 * k + 2]].Scale(UnitsPerVoxel as real);
    Tri(a, b, c, sh.faceNormal(a, b, c), sh.randomColor(cell, k))
  }

  /** The triangles March emits for one cell with corner densities `cube`. */
  function CellTriangles(t: ShapedTables, sh: Shading, level: real, cube: seq<real>, cell: IntVec): seq<Tri>
    requires |cube| == 8
  {
    var mask := MaskIndex(CornerMask(cube, level, 8));
    var edgeMask := t.cubeEdgeFlags[mask];
    if edgeMask == 0 then [] else RowTriangles(t, sh, EdgeVertices(t, level, cube, cell, edgeMask), mask, cell)
  }

  /** The triangles of row `mask` of the triangle table, up to its first sentinel. */
  function RowTriangles(t: ShapedTables, sh: Shading, ev: seq<Vec>, mask: int, cell: IntVec): (tris: seq<Tri>)
    requires |ev| == 12 && 0 <= mask < 256
    ensures |tris| == TriangleCount(t.triangleConnection[mask], 0)
  {
    var n := TriangleCount(t.triangleConnection[mask], 0);
    seq(n, k requires 0 <= k < n => MakeTri(t, sh, ev, mask, cell, k))
  }

  /** One March call emits at most five triangles. */
  lemma CellTrianglesAtMostFive(t: ShapedTables, sh: Shading, level: real, cube: seq<real>, cell: IntVec)
    requires |cube| == 8
    ensures |CellTriangles(t, sh, level, cube, cell)| <= 5
  {
  }

  /**
   * A cell whose corners are all on the same side of the level emits nothing,
   * given that the edge table has no crossing for masks 0 and 255 (as the
   * standard table has).
   */
  lemma UniformCellEmpty(t: ShapedTables, sh: Shading, level: real, cube: seq<real>, cell: IntVec)
    requires |cube| == 8
    requires t.cubeEdgeFlags[0] == 0 && t.cubeEdgeFlags[255] == 0
    requires (forall i :: 0 <= i < 8 ==> cube[i] > level) || (forall i :: 0 <= i < 8 ==> cube[i] <= level)
    ensures CellTriangles(t, sh, level, cube, cell) == []
  {
    CornerMaskZero(cube, level);
    CornerMaskFull(cube, level);
  }

  /**
   * Appending one triangle to a section buffer: three vertices, three indices
   * `VertexCount + TriangleOrder[j]`, three normals, three colours, and
   * VertexCount grows by three.
   */
  function Emit(b: ThreadMesh, tri: Tri, order: seq<int>): ThreadMesh
    requires |order| == 3
  {
    var vc := b.vertexCount;
    ThreadMesh(
      b.vertices + [tri.v1, tri.v2, tri.v3],
      b.triangles + [vc + order[0], vc + order[1], vc + order[2]],
      b.normals + [tri.normal, tri.normal, tri.normal],
      b.colors + [tri.color, tri.color, tri.color],
      vc + 3)
  }

  /** Appending a list of triangles in order. */
  function EmitAll(b: ThreadMesh, tris: seq<Tri>, order: seq<int>): ThreadMesh
    requires |order| == 3
  {
    if tris == [] then b else Emit(EmitAll(b, tris[..|tris| - 1], order), tris[|tris| - 1], order)
  }

  /** Appending two lists one after the other is appending their concatenation. */
  lemma {:induction false} EmitAllAppend(b: ThreadMesh, xs: seq<Tri>, ys: seq<Tri>, order: seq<int>)
    requires |order| == 3
    ensures EmitAll(b, xs + ys, order) == EmitAll(EmitAll(b, xs, order), ys, order)
  {
    if ys != [] {
      assert (xs + ys)[..|xs + ys| - 1] == xs + ys[..|ys| - 1];
      EmitAllAppend(b, xs, ys[..|ys| - 1], order);
    } else {
      assert xs + ys == xs;
    }
  }

  /**
   * One emitted triangle keeps the buffer consistent; its three indices are
   * VertexCount, VertexCount+1 and VertexCount+2 in winding order, pairwise distinct.
   */
  lemma EmitConsistent(b: ThreadMesh, tri: Tri, order: seq<int>)
    requires Consistent(b) && IsWinding(order)
    ensures var b' := Emit(b, tri, order);
      && Consistent(b')
      && b'.vertexCount == b.vertexCount + 3
      && (forall i :: |b.triangles| <= i < |b'.triangles| ==>
            b.vertexCount <= b'.triangles[i] < b.vertexCount + 3)
      && b'.triangles[|b.triangles|] != b'.triangles[|b.triangles| + 1]
      && b'.triangles[|b.triangles| + 1] != b'.triangles[|b.triangles| + 2]
      && b'.triangles[|b.triangles|] != b'.triangles[|b.triangles| + 2]
  {
  }

  /**
   * Appending any list of triangles keeps the buffer consistent (VertexCount
   * equals the number of vertices, the arrays run parallel, indices come in
   * threes and name emitted vertices), adds three vertices per triangle and
   * leaves what was there before untouched.
   */
  lemma {:induction false} EmitAllConsistent(b: ThreadMesh, tris: seq<Tri>, order: seq<int>)
    requires Consistent(b) && IsWinding(order)
    ensures var b' := EmitAll(b, tris, order);
      && Consistent(b')
      && |b'.vertices| == |b.vertices| + 3 * |tris|
      && |b'.triangles| == |b.triangles| + 3 * |tris|
      && b'.vertices[..|b.vertices|] == b.vertices
      && b'.triangles[..|b.triangles|] == b.triangles
  {
    if tris != [] {
      var init := tris[..|tris| - 1];
      EmitAllConsistent(b, init, order);
      var mid := EmitAll(b, init, order);
      EmitConsistent(mid, tris[|tris| - 1], order);
      assert EmitAll(b, tris, order) == Emit(mid, tris[|tris| - 1], order);
      assert b.vertices <= mid.vertices;
      assert b.triangles <= mid.triangles;
    }
  }

  /** The three indices of a triangle are pairwise distinct. */
  predicate Distinct3(a: int, b: int, c: int) {
    a != b && b != c && a != c
  }

  /** An index list made of triplets, none of which repeats an index. */
  ghost predicate NonDegenerate(t: seq<int>)
    decreases |t|
  {
    |t| % 3 == 0 && (|t| == 0 || (Distinct3(t[|t| - 3], t[|t| - 2], t[|t| - 1]) && NonDegenerate(t[..|t| - 3])))
  }

  /** Appending a triangle with three distinct indices keeps a list non-degenerate. */
  lemma NonDegenerateSnoc(t: seq<int>, a: int, b: int, c: int)
    requires NonDegenerate(t) && Distinct3(a, b, c)
    ensures NonDegenerate(t + [a, b, c])
  {
    var s := t + [a, b, c];
    assert s[..|s| - 3] == t;
  }

  /** The triangles of an emitted list are non-degenerate within the buffer. */
  lemma {:induction false} EmitAllNonDegenerate(b: ThreadMesh, tris: seq<Tri>, order: seq<int>)
    requires IsWinding(order) && NonDegenerate(b.triangles)
    ensures NonDegenerate(EmitAll(b, tris, order).triangles)
  {
    if tris != [] {
      var init := tris[..|tris| - 1];
      EmitAllNonDegenerate(b, init, order);
      var mid := EmitAll(b, init, order);
      NonDegenerateSnoc(mid.triangles, mid.vertexCount + order[0], mid.vertexCount + order[1], mid.vertexCount + order[2]);
    }
  }

  /**
   * Everything the polygonizer of one chunk reads: the tables, the shading
   * collaborators, the density field and the surface level.
   */
  datatype MarchInput = MarchInput(tables: ShapedTables, shading: Shading, field: DensityField, level: real) {
    ghost predicate Valid() {
      field.Valid()
    }

    /** The cell (x, y, z) lies in the grid of cells [0, size)^3. */
    predicate InCells(x: int, y: int, z: int) {
      0 <= x < field.size && 0 <= y < field.size && 0 <= z < field.size
    }

    /** Cube[i] as gathered by GenerateMesh: the effective density at corner i of the cell. */
    function Corner(x: int, y: int, z: int, i: nat): real
      requires Valid() && InCells(x, y, z) && i < 8
    {
      var o := tables.vertexOffset[i];
      field.DensityAt(x + o.x, y + o.y, z + o.z)
    }

    /** Cube[0 .. n) after n rounds of the corner loop. */
    function CornersUpTo(x: int, y: int, z: int, n: nat): (cube: seq<real>)
      requires Valid() && InCells(x, y, z) && n <= 8
      ensures |cube| == n
      ensures forall i :: 0 <= i < n ==> cube[i] == Corner(x, y, z, i)
    {
      if n == 0 then [] else CornersUpTo(x, y, z, n - 1) + [Corner(x, y, z, n - 1)]
    }

    /** The eight corner densities March receives. */
    function Corners(x: int, y: int, z: int): (cube: seq<real>)
      requires Valid() && InCells(x, y, z)
      ensures |cube| == 8
    {
      CornersUpTo(x, y, z, 8)
    }

    /** The triangles March emits for cell (x, y, z). */
    function CellTris(x: int, y: int, z: int): seq<Tri>
      requires Valid() && InCells(x, y, z)
    {
      CellTriangles(tables, shading, level, Corners(x, y, z), IntVec(x, y, z))
    }

    /** Cells (x, y, zStart) .. (x, y, z - 1), in the order of the Z loop. */
    function ColumnTris(x: int, y: int, zStart: int, z: int): seq<Tri>
      requires Valid() && 0 <= x < field.size && 0 <= y < field.size
      requires 0 <= zStart && z <= field.size
      decreases z - zStart
    {
      if z <= zStart then [] else ColumnTris(x, y, zStart, z - 1) + CellTris(x, y, z - 1)
    }

    /** The buffer b after the Z loop of column (x, y) has run from zStart up to z. */
    function ColumnMesh(b: ThreadMesh, order: seq<int>, x: int, y: int, zStart: int, z: int): ThreadMesh
      requires Valid() && |order| == 3 && 0 <= x < field.size && 0 <= y < field.size
      requires 0 <= zStart && z <= field.size
      decreases z - zStart
    {
      if z <= zStart then b else EmitAll(ColumnMesh(b, order, x, y, zStart, z - 1), CellTris(x, y, z - 1), order)
    }

    /** Columns (x, 0) .. (x, y - 1), in the order of the Y loop. */
    function SliceTris(x: int, y: int, zStart: int, zEnd: int): seq<Tri>
      requires Valid() && 0 <= x < field.size && 0 <= y <= field.size
      requires 0 <= zStart && zEnd <= field.size
      decreases y
    {
      if y == 0 then [] else SliceTris(x, y - 1, zStart, zEnd) + ColumnTris(x, y - 1, zStart, zEnd)
    }

    /** Slices 0 .. x - 1, in the order of the X loop. */
    function BlockTris(x: int, zStart: int, zEnd: int): seq<Tri>
      requires Valid() && 0 <= x <= field.size
      requires 0 <= zStart && zEnd <= field.size
      decreases x
    {
      if x == 0 then [] else BlockTris(x - 1, zStart, zEnd) + SliceTris(x - 1, field.size, zStart, zEnd)
    }

    /** All triangles GenerateMesh(zStart, zEnd) emits, in emission order. */
    function SectionTris(zStart: int, zEnd: int): seq<Tri>
      requires Valid() && 0 <= zStart && zEnd <= field.size
    {
      BlockTris(field.size, zStart, zEnd)
    }

    /** The buffer of a freshly reset section after GenerateMesh(zStart, zEnd). */
    function SectionMesh(zStart: int, zEnd: int): ThreadMesh
      requires Valid() && 0 <= zStart && zEnd <= field.size
    {
      EmitAll(EmptyThreadMesh, SectionTris(zStart, zEnd), WindingOrder(level))
    }
  }

  /**
   * A section generated from a reset buffer is consistent and every one of its
   * triangles has three distinct section-local indices.
   */
  lemma SectionMeshConsistent(inp: MarchInput, zStart: int, zEnd: int)
    requires inp.Valid() && 0 <= zStart && zEnd <= inp.field.size
    ensures Consistent(inp.SectionMesh(zStart, zEnd))
    ensures NonDegenerate(inp.SectionMesh(zStart, zEnd).triangles)
  {
    EmitAllConsistent(EmptyThreadMesh, inp.SectionTris(zStart, zEnd), WindingOrder(inp.level));
    EmitAllNonDegenerate(EmptyThreadMesh, inp.SectionTris(zStart, zEnd), WindingOrder(inp.level));
  }

  /** The Z loop of column (x, y) emits the column's triangles, cell after cell, into b. */
  lemma {:induction false} ColumnMeshEmits(inp: MarchInput, b: ThreadMesh, order: seq<int>, x: int, y: int, zStart: int, z: int)
    requires inp.Valid() && |order| == 3
    requires 0 <= x < inp.field.size && 0 <= y < inp.field.size && 0 <= zStart && z <= inp.field.size
    ensures inp.ColumnMesh(b, order, x, y, zStart, z) == EmitAll(b, inp.ColumnTris(x, y, zStart, z), order)
    decreases z - zStart
  {
    if z > zStart {
      ColumnMeshEmits(inp, b, order, x, y, zStart, z - 1);
      EmitAllAppend(b, inp.ColumnTris(x, y, zStart, z - 1), inp.CellTris(x, y, z - 1), order);
    }
  }

  /** Emitting one more column extends the slice's buffer: the step of the Y loop. */
  lemma SliceStep(inp: MarchInput, b: ThreadMesh, order: seq<int>, x: int, y: int, zStart: int, zEnd: int)
    requires inp.Valid() && |order| == 3
    requires 0 <= x < inp.field.size && 0 <= y < inp.field.size && 0 <= zStart && zEnd <= inp.field.size
    ensures EmitAll(EmitAll(b, inp.SliceTris(x, y, zStart, zEnd), order), inp.ColumnTris(x, y, zStart, zEnd), order)
         == EmitAll(b, inp.SliceTris(x, y + 1, zStart, zEnd), order)
  {
    EmitAllAppend(b, inp.SliceTris(x, y, zStart, zEnd), inp.ColumnTris(x, y, zStart, zEnd), order);
  }

  /** Emitting one more slice extends the block's buffer: the step of the X loop. */
  lemma BlockStep(inp: MarchInput, b: ThreadMesh, order: seq<int>, x: int, zStart: int, zEnd: int)
    requires inp.Valid() && |order| == 3
    requires 0 <= x < inp.field.size && 0 <= zStart && zEnd <= inp.field.size
    ensures EmitAll(EmitAll(b, inp.BlockTris(x, zStart, zEnd), order), inp.SliceTris(x, inp.field.size, zStart, zEnd), order)
         == EmitAll(b, inp.BlockTris(x + 1, zStart, zEnd), order)
  {
    EmitAllAppend(b, inp.BlockTris(x, zStart, zEnd), inp.SliceTris(x, inp.field.size, zStart, zEnd), order);
  }

  /** Lower Z bound of section s of `count`: `s * size / sectionCount`. */
  function SectionStart(s: int, size: nat, count: int): int
    requires count >= 1
  {
    s * size / count
  }

  /** Section s covers Z in [SectionStart(s), SectionStart(s+1)): `zEnd = (s+1) * size / sectionCount`. */
  function SectionEnd(s: int, size: nat, count: int): int
    requires count >= 1
  {
    (s + 1) * size / count
  }

  /** The number of sections: `FMath::Max(1, NumberOfCores() / 2)`. */
  function SectionCount(cores: int): (n: int)
    ensures n >= 1
  {
    var half := if cores >= 0 then cores / 2 else -((-cores) / 2);
    if half > 1 then half else 1
  }

  lemma DivMonotone(a: int, b: int, c: int)
    requires 0 <= a <= b && c >= 1
    ensures a / c <= b / c
  {
    var qa, qb := a / c, b / c;
    assert qa * c <= a;
    assert b < (qb + 1) * c;
    MulCancel(qa, qb + 1, c);
  }

  /**
   * The sections tile [0, size) along Z: the first starts at 0, the last
   * ends at size, each ends where the next starts, and none runs backwards or
   * beyond the grid.
   */
  lemma SectionsTile(size: nat, count: int)
    requires count >= 1
    ensures SectionStart(0, size, count) == 0
    ensures SectionEnd(count - 1, size, count) == size
    ensures forall s :: 0 <= s < count ==> SectionEnd(s, size, count) == SectionStart(s + 1, size, count)
    ensures forall s :: 0 <= s < count ==>
      0 <= SectionStart(s, size, count) <= SectionEnd(s, size, count) <= size
  {
    DivModUnique(size, 0, count);
    assert count * size == size * count + 0;
    forall s | 0 <= s < count
      ensures 0 <= SectionStart(s, size, count) <= SectionEnd(s, size, count) <= size
    {
      MulLe(0, s, size);
      MulLe(s, s + 1, size);
      MulLe(s + 1, count, size);
      DivMonotone(s * size, (s + 1) * size, count);
      DivMonotone((s + 1) * size, count * size, count);
      DivMonotone(0, s * size, count);
    }
  }

  /** Every Z layer of the grid belongs to a section... */
  lemma SectionContaining(size: nat, count: int, z: int) returns (s: int)
    requires count >= 1 && 0 <= z < size
    ensures 0 <= s < count && SectionStart(s, size, count) <= z < SectionEnd(s, size, count)
  {
    DivModUnique(size, 0, count);
    assert count * size == size * count + 0;
    assert SectionEnd(count - 1, size, count) == size;
    s := 0;
    while SectionEnd(s, size, count) <= z
      invariant 0 <= s < count && SectionStart(s, size, count) <= z
      decreases count - s
    {
      s := s + 1;
    }
  }

  /** ...and to only one. */
  lemma SectionUnique(size: nat, count: int, z: int, s: int, s': int)
    requires count >= 1
    requires 0 <= s < count && SectionStart(s, size, count) <= z < SectionEnd(s, size, count)
    requires 0 <= s' < count && SectionStart(s', size, count) <= z < SectionEnd(s', size, count)
    ensures s == s'
  {
    SectionOrder(size, count, s, s', z);
    SectionOrder(size, count, s', s, z);
  }

  lemma SectionOrder(size: nat, count: int, a: int, b: int, z: int)
    requires count >= 1 && 0 <= a < count && 0 <= b < count
    requires z < SectionEnd(a, size, count) && SectionStart(b, size, count) <= z
    ensures b <= a
  {
    if a < b {
      SectionStartMonotone(size, count, a + 1, b);
    }
  }

  lemma SectionStartMonotone(size: nat, count: int, a: int, b: int)
    requires count >= 1 && 0 <= a <= b <= count
    ensures SectionStart(a, size, count) <= SectionStart(b, size, count)
  {
    MulLe(a, b, size);
    MulLe(0, a, size);
    DivMonotone(a * size, b * size, count);
  }

  /** The section buffers BeginPlay generates: section s covers Z in [SectionStart(s), SectionEnd(s)). */
  function SectionMeshes(inp: MarchInput, count: int): (r: seq<ThreadMesh>)
    requires inp.Valid() && count >= 1
    ensures |r| == count
  {
    SectionsTile(inp.field.size, count);
    seq(count, s requires 0 <= s < count =>
      inp.SectionMesh(SectionStart(s, inp.field.size, count), SectionEnd(s, inp.field.size, count)))
  }

  /** Section s of the list, with its Z range inside the grid. */
  lemma SectionMeshesAt(inp: MarchInput, count: int, s: int)
    requires inp.Valid() && count >= 1 && 0 <= s < count
    ensures 0 <= SectionStart(s, inp.field.size, count) <= SectionEnd(s, inp.field.size, count) <= inp.field.size
    ensures SectionMeshes(inp, count)[s] ==
      inp.SectionMesh(SectionStart(s, inp.field.size, count), SectionEnd(s, inp.field.size, count))
  {
    SectionsTile(inp.field.size, count);
  }

  /** Every section buffer is consistent and free of degenerate triangles, as merging requires. */
  lemma SectionMeshesConsistent(inp: MarchInput, count: int)
    requires inp.Valid() && count >= 1
    ensures forall s :: 0 <= s < count ==>
      Consistent(SectionMeshes(inp, count)[s]) && NonDegenerate(SectionMeshes(inp, count)[s].triangles)
  {
    SectionsTile(inp.field.size, count);
    forall s | 0 <= s < count
      ensures Consistent(SectionMeshes(inp, count)[s]) && NonDegenerate(SectionMeshes(inp, count)[s].triangles)
    {
      SectionMeshConsistent(inp, SectionStart(s, inp.field.size, count), SectionEnd(s, inp.field.size, count));
    }
  }
}
