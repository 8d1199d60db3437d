/**
 * The chunk actor AMarchingCubeGen: its density grid, its edit map, its mesh
 * buffers and the operations that fill them. BeginPlay's asynchronous stages
 * run here one after another, with the sections generated and merged in
 * index order; engine services (noise, face normals, random colours,
 * normalization, the core count, the clock, distances and the file system)
 * are parameters.
 */
module ChunkActor {
  import opened Geometry
  import opened Optional
  import opened MeshBuffers
  import opened VoxelGrid
  import opened Polygonizer
  import opened Assembler
  import opened Editor
  import opened Persistence

  /**
   * The surface level of a chunk whose spawner does not set one. The
   * initialiser lives in MarchingCubeGen.h, which is not part of this model.
   */
  const DefaultSurfaceLevel: real := 0.0

  /** The engine services a chunk calls. */
  datatype Engine = Engine(
    // FastNoiseLite (Perlin, FBm) at a frequency: GetNoise(x, y, z)
    noise: (real, real, real, real) -> real,
    // face normals and random colours of emitted triangles
    shading: Shading,
    // FVector::Normalize on the welded normals
    normalize: Vec -> Vec,
    // FPlatformMisc::NumberOfCores()
    cores: int)

  /** The corner loop of March: VertexMask has bit i set iff Cube[i] <= surfaceLevel (CornerMaskBits). */
  method ComputeVertexMask(cube: seq<real>, level: real) returns (mask: bv8)
    requires |cube| == 8
    ensures mask == CornerMask(cube, level, 8)
  {
    mask := 0;
    for i := 0 to 8
      invariant mask == CornerMask(cube, level, i)
    {
      if cube[i] <= level {
        mask := WithCorner(mask, i);
      }
    }
  }

  /**
   * The edge loop of March: EdgeVertex holds the crossing point of every
   * edge whose flag is set in EdgeMask.
   */
  method ComputeEdgeVertices(t: ShapedTables, level: real, cube: seq<real>, cell: IntVec, edgeMask: bv16) returns (ev: seq<Vec>)
    requires |cube| == 8
    ensures ev == EdgeVertices(t, level, cube, cell, edgeMask)
  {
    ghost var full := EdgeVertices(t, level, cube, cell, edgeMask);
    ev := seq(12, _ => Zero);
    for i := 0 to 12
      invariant |ev| == 12
      invariant forall e :: 0 <= e < i ==> ev[e] == full[e]
      invariant forall e :: i <= e < 12 ==> ev[e] == Zero
    {
      if EdgeFlagged(edgeMask, i) {
        ev := ev[i := EdgePoint(t, level, cube, cell, i)];
      }
    }
  }

  class Chunk {
    // set by the spawner before the actor finishes spawning
    const location: Vec
    const frequency: real
    const material: nat
    const size: nat
    const surfaceLevel: real
    // the lookup tables of MarchingCubeGen.h
    const tables: ShapedTables

    const meshData: MeshData
    var Voxels: seq<real>
    var modifications: map<IntVec, real>
    var TriangleOrder: seq<int>
    var vertexCount: int
    /** The arrays last handed to CreateMeshSection. */
    var section: Mesh
    /** The final vertex of each merged corner, and the first corner of each final vertex, of the last weld. */
    ghost var weldSlot: seq<int>
    ghost var weldOrigin: seq<int>

    ghost predicate Valid() {
      size > 0
    }

    /** Everything the polygonizer reads of this chunk, for a grid and an edit map. */
    function Input(sh: Shading, voxels: seq<real>, mods: map<IntVec, real>): MarchInput {
      MarchInput(tables, sh, DensityField(size, voxels, mods), surfaceLevel)
    }

    /** `GetActorLocation() / 100`: the chunk's corner in voxel units. */
    function GridOrigin(): Vec {
      location.Scale(1.0 / UnitsPerVoxel as real)
    }

    /**
     * SpawnActorDeferred followed by the spawner's assignments: a chunk with
     * an empty grid, no edits and empty mesh buffers.
     */
    constructor (location: Vec, frequency: real, material: nat, size: nat, surfaceLevel: real, tables: ShapedTables)
      ensures this.location == location && this.frequency == frequency && this.material == material
      ensures this.size == size && this.surfaceLevel == surfaceLevel && this.tables == tables
      ensures Voxels == [] && modifications == map[] && vertexCount == 0 && section == EmptyMesh
      ensures fresh(meshData) && meshData.Value() == EmptyMesh
    {
      this.location := location;
      this.frequency := frequency;
      this.material := material;
      this.size := size;
      this.surfaceLevel := surfaceLevel;
      this.tables := tables;
      meshData := new MeshData();
      Voxels := [];
      modifications := map[];
      TriangleOrder := [0, 1, 2];
      vertexCount := 0;
      section := EmptyMesh;
      weldSlot, weldOrigin := [], [];
    }

    /**
     * Setup: `Voxels.SetNum((size+1)^3)`. Existing samples up to the new
     * length are kept, new ones are zero.
     */
    method Setup()
      modifies this`Voxels
      ensures |Voxels| == GridLength(size)
      ensures forall i :: 0 <= i < |Voxels| ==> Voxels[i] == if i < |old(Voxels)| then old(Voxels)[i] else 0.0
    {
      var n := (size + 1) * (size + 1) * (size + 1);
      GridLengthCube(size);
      if |Voxels| >= n {
        Voxels := Voxels[..n];
      } else {
        Voxels := Voxels + seq(n - |Voxels|, _ => 0.0);
      }
    }

    /** GenerateHeightMap: every grid sample (x, y, z) gets the noise at (x, y, z) + position. */
    method GenerateHeightMap(position: Vec, noise: (real, real, real, real) -> real)
      requires |Voxels| == GridLength(size)
      modifies this`Voxels
      ensures HeightMapped(Voxels, size, noise, frequency, position)
    {
      ghost var sample := (k: IntVec) => noise(frequency, k.x as real + position.x, k.y as real + position.y, k.z as real + position.z);
      var x := 0;
      while x <= size
        invariant 0 <= x <= size + 1
        invariant SampledBefore(Voxels, size, sample, x, 0, 0)
      {
        var y := 0;
        while y <= size
          invariant 0 <= y <= size + 1
          invariant SampledBefore(Voxels, size, sample, x, y, 0)
        {
          var z := 0;
          while z <= size
            invariant 0 <= z <= size + 1
            invariant SampledBefore(Voxels, size, sample, x, y, z)
          {
            var d := noise(frequency, x as real + position.x, y as real + position.y, z as real + position.z);
            assert d == sample(IntVec(x, y, z));
            SampledStep(Voxels, size, sample, x, y, z);
            Voxels := Voxels[GetVoxelIndex(size, x, y, z) := d];
            z := z + 1;
          }
          SampledRow(Voxels, size, sample, x, y);
          y := y + 1;
        }
        SampledSlice(Voxels, size, sample, x);
        x := x + 1;
      }
      SampledAll(Voxels, size, sample);
    }

    /** GetVoxelDensityWithModif: the base sample, plus the edit delta when there is one. */
    function GetVoxelDensityWithModif(x: int, y: int, z: int): (d: real)
      reads this`Voxels, this`modifications
      requires |Voxels| == GridLength(size) && InGrid(size, x, y, z)
      ensures IntVec(x, y, z) in modifications ==>
        d == Voxels[GetVoxelIndex(size, x, y, z)] + modifications[IntVec(x, y, z)]
      ensures IntVec(x, y, z) !in modifications ==> d == Voxels[GetVoxelIndex(size, x, y, z)]
    {
      DensityField(size, Voxels, modifications).DensityAt(x, y, z)
    }

    /** The corner loop of GenerateMesh: Cube[i] is the density at corner i of the cell. */
    method GatherCube(sh: Shading, x: int, y: int, z: int) returns (cube: seq<real>)
      requires Valid() && |Voxels| == GridLength(size) && Input(sh, Voxels, modifications).InCells(x, y, z)
      ensures cube == Input(sh, Voxels, modifications).Corners(x, y, z)
    {
      cube := [];
      for i := 0 to 8
        invariant cube == Input(sh, Voxels, modifications).CornersUpTo(x, y, z, i)
      {
        var o := tables.vertexOffset[i];
        cube := cube + [GetVoxelDensityWithModif(x + o.x, y + o.y, z + o.z)];
      }
    }

    /**
     * March: the triangles of one cell appended to the section buffer in the
     * current winding; nothing when the edge table has no crossing.
     */
    method March(sh: Shading, x: int, y: int, z: int, cube: seq<real>, data: ThreadMeshData)
      requires Valid() && |cube| == 8 && IsWinding(TriangleOrder)
      modifies data
      ensures data.Value() == EmitAll(old(data.Value()), CellTriangles(tables, sh, surfaceLevel, cube, IntVec(x, y, z)), TriangleOrder)
    {
      var mask := ComputeVertexMask(cube, surfaceLevel);
      var index := MaskIndex(mask);
      var edgeMask := tables.cubeEdgeFlags[index];
      if edgeMask == 0 {
        return;
      }
      var cell := IntVec(x, y, z);
      var ev := ComputeEdgeVertices(tables, surfaceLevel, cube, cell, edgeMask);
      EmitRow(sh, ev, index, cell, data);
    }

    /**
     * The triangle loop of March: one triangle per triplet of the row, until
     * a sentinel or five triangles; vertices scaled to world units.
     */
    method EmitRow(sh: Shading, ev: seq<Vec>, index: int, cell: IntVec, data: ThreadMeshData)
      requires Valid() && |ev| == 12 && 0 <= index < 256 && IsWinding(TriangleOrder)
      modifies data
      ensures data.Value() == EmitAll(old(data.Value()), RowTriangles(tables, sh, ev, index, cell), TriangleOrder)
    {
      var row := tables.triangleConnection[index];
      ghost var tris := RowTriangles(tables, sh, ev, index, cell);
      ghost var d0 := data.Value();
      var i := 0;
      while i < 5 && row[3 * i] >= 0
        invariant 0 <= i <= |tris|
        invariant data.Value() == EmitAll(d0, tris[..i], TriangleOrder)
      {
        EmitTableTriangle(sh, ev, index, cell, i, data);
        assert tris[..i + 1] == tris[..i] + [tris[i]];
        i := i + 1;
      }
      assert tris[..i] == tris;
    }

    /** One round of the triangle loop of March: triangle i of the row, scaled, shaded and appended. */
    method EmitTableTriangle(sh: Shading, ev: seq<Vec>, index: int, cell: IntVec, i: nat, data: ThreadMeshData)
      requires Valid() && |ev| == 12 && 0 <= index < 256 && IsWinding(TriangleOrder)
      requires i < 5 && StartsTriangle(tables.triangleConnection[index], i)
      modifies data
      ensures data.Value() == Emit(old(data.Value()), MakeTri(tables, sh, ev, index, cell, i), TriangleOrder)
    {
      var row := tables.triangleConnection[index];
      var v1 := ev[row[3 * i]].Scale(UnitsPerVoxel as real);
      var v2 := ev[row[3 * i + 1]].Scale(UnitsPerVoxel as real);
      var v3 := ev[row[3 * i + 2]].Scale(UnitsPerVoxel as real);
      var normal := sh.faceNormal(v1, v2, v3);
      var color := sh.randomColor(cell, i);
      EmitTriangle(data, Tri(v1, v2, v3, normal, color));
    }

    /** The body of the Z loop of GenerateMesh: gather the cell's corners, then March it. */
    method MarchCell(sh: Shading, x: int, y: int, z: int, data: ThreadMeshData)
      requires Valid() && |Voxels| == GridLength(size) && IsWinding(TriangleOrder) && Input(sh, Voxels, modifications).InCells(x, y, z)
      modifies data
      ensures data.Value() == EmitAll(old(data.Value()), Input(sh, Voxels, modifications).CellTris(x, y, z), TriangleOrder)
    {
      var cube := GatherCube(sh, x, y, z);
      March(sh, x, y, z, cube, data);
    }

    /** The appends of one triangle: vertices, indices VertexCount + TriangleOrder[j], normals, colours. */
    method EmitTriangle(data: ThreadMeshData, tri: Tri)
      requires |TriangleOrder| == 3
      modifies data
      ensures data.Value() == Emit(old(data.Value()), tri, TriangleOrder)
    {
      var vc := data.VertexCount;
      data.Vertices := data.Vertices + [tri.v1, tri.v2, tri.v3];
      data.Triangles := data.Triangles + [vc + TriangleOrder[0], vc + TriangleOrder[1], vc + TriangleOrder[2]];
      data.Normals := data.Normals + [tri.normal, tri.normal, tri.normal];
      data.Colors := data.Colors + [tri.color, tri.color, tri.color];
      data.VertexCount := vc + 3;
    }

    /** The Z loop of GenerateMesh for column (x, y). */
    method MarchColumn(sh: Shading, x: int, y: int, zStart: int, zEnd: int, data: ThreadMeshData)
      requires Valid() && |Voxels| == GridLength(size) && IsWinding(TriangleOrder)
      requires 0 <= x < size && 0 <= y < size && 0 <= zStart <= zEnd <= size
      modifies data
      ensures data.Value() == EmitAll(old(data.Value()), Input(sh, Voxels, modifications).ColumnTris(x, y, zStart, zEnd), TriangleOrder)
    {
      ghost var d0 := data.Value();
      ghost var inp := Input(sh, Voxels, modifications);
      ghost var order := TriangleOrder;
      for z := zStart to zEnd
        invariant data.Value() == inp.ColumnMesh(d0, order, x, y, zStart, z)
      {
        MarchColumnCell(sh, x, y, zStart, z, data, d0, inp, order);
      }
      ColumnMeshEmits(inp, d0, order, x, y, zStart, zEnd);
    }

    /** One round of the Z loop: cell (x, y, z) appended after the cells below it. */
    method MarchColumnCell(sh: Shading, x: int, y: int, zStart: int, z: int, data: ThreadMeshData,
                           ghost d0: ThreadMesh, ghost inp: MarchInput, ghost order: seq<int>)
      requires Valid() && |Voxels| == GridLength(size) && IsWinding(TriangleOrder)
      requires inp == Input(sh, Voxels, modifications) && order == TriangleOrder
      requires 0 <= x < size && 0 <= y < size && 0 <= zStart <= z < size
      requires data.Value() == inp.ColumnMesh(d0, order, x, y, zStart, z)
      modifies data
      ensures data.Value() == inp.ColumnMesh(d0, order, x, y, zStart, z + 1)
    {
      MarchCell(sh, x, y, z, data);
    }

    /** The Y loop of GenerateMesh for slice x. */
    method MarchSlice(sh: Shading, x: int, zStart: int, zEnd: int, data: ThreadMeshData)
      requires Valid() && |Voxels| == GridLength(size) && IsWinding(TriangleOrder)
      requires 0 <= x < size && 0 <= zStart <= zEnd <= size
      modifies data
      ensures data.Value() == EmitAll(old(data.Value()), Input(sh, Voxels, modifications).SliceTris(x, size, zStart, zEnd), TriangleOrder)
    {
      ghost var d0 := data.Value();
      ghost var inp := Input(sh, Voxels, modifications);
      ghost var order := TriangleOrder;
      for y := 0 to size
        invariant data.Value() == EmitAll(d0, inp.SliceTris(x, y, zStart, zEnd), order)
      {
        SliceStep(inp, d0, order, x, y, zStart, zEnd);
        MarchColumn(sh, x, y, zStart, zEnd, data);
      }
    }

    /**
     * GenerateMesh(zStart, zEnd, data): sets the winding from the sign of the
     * surface level, then appends the triangles of every cell with Z in
     * [zStart, zEnd), X outermost and Z innermost.
     */
    method GenerateMesh(zStart: int, zEnd: int, data: ThreadMeshData, sh: Shading)
      requires Valid() && |Voxels| == GridLength(size) && 0 <= zStart <= zEnd <= size
      modifies this`TriangleOrder, data
      ensures TriangleOrder == WindingOrder(surfaceLevel)
      ensures data.Value() == EmitAll(old(data.Value()), Input(sh, Voxels, modifications).SectionTris(zStart, zEnd), WindingOrder(surfaceLevel))
    {
      if surfaceLevel > 0.0 {
        TriangleOrder := [0, 1, 2];
      } else {
        TriangleOrder := [2, 1, 0];
      }
      MarchBlock(sh, zStart, zEnd, data);
    }

    /** The X loop of GenerateMesh. */
    method MarchBlock(sh: Shading, zStart: int, zEnd: int, data: ThreadMeshData)
      requires Valid() && |Voxels| == GridLength(size) && IsWinding(TriangleOrder) && 0 <= zStart <= zEnd <= size
      modifies data
      ensures data.Value() == EmitAll(old(data.Value()), Input(sh, Voxels, modifications).SectionTris(zStart, zEnd), TriangleOrder)
    {
      ghost var d0 := data.Value();
      ghost var inp := Input(sh, Voxels, modifications);
      ghost var order := TriangleOrder;
      for x := 0 to size
        invariant data.Value() == EmitAll(d0, inp.BlockTris(x, zStart, zEnd), order)
      {
        MarchSlice(sh, x, zStart, zEnd, data);
        BlockStep(inp, d0, order, x, zStart, zEnd);
      }
    }

    /** One round of the merge loop: td appended, its indices rebased by the vertices already merged. */
    method AppendSection(td: ThreadMesh)
      modifies meshData
      ensures meshData.Vertices == old(meshData.Vertices) + td.vertices
      ensures meshData.Triangles == old(meshData.Triangles) + Shift(td.triangles, |old(meshData.Vertices)|)
      ensures meshData.Normals == old(meshData.Normals) + td.normals
      ensures meshData.Colors == old(meshData.Colors) + td.colors
      ensures meshData.UV0 == old(meshData.UV0)
    {
      var baseVertex := |meshData.Vertices|;
      for t := 0 to |td.triangles|
        modifies meshData`Triangles
        invariant meshData.Triangles == old(meshData.Triangles) + Shift(td.triangles[..t], baseVertex)
      {
        assert Shift(td.triangles[..t + 1], baseVertex) == Shift(td.triangles[..t], baseVertex) + [td.triangles[t] + baseVertex];
        meshData.Triangles := meshData.Triangles + [td.triangles[t] + baseVertex];
      }
      assert td.triangles[..|td.triangles|] == td.triangles;
      meshData.Vertices := meshData.Vertices + td.vertices;
      meshData.Normals := meshData.Normals + td.normals;
      meshData.Colors := meshData.Colors + td.colors;
    }

    /** The game-thread merge of BeginPlay: Clear, then every section in index order. */
    method MergeSections(sections: seq<ThreadMesh>)
      modifies this`vertexCount, meshData
      ensures meshData.Value() == Merged(sections)
      ensures vertexCount == |meshData.Vertices|
    {
      meshData.Clear();
      vertexCount := 0;
      for i := 0 to |sections|
        modifies meshData
        invariant meshData.Value() == Merged(sections[..i])
      {
        AppendSection(sections[i]);
        assert sections[..i + 1][..i] == sections[..i];
      }
      assert sections[..|sections|] == sections;
      vertexCount := |meshData.Vertices|;
    }

    /** ApplyMesh: the merged mesh welded, normalized and handed to CreateMeshSection. */
    method ApplyMesh(normalize: Vec -> Vec)
      requires WellIndexed(meshData.Value())
      modifies this`section, this`weldSlot, this`weldOrigin
      ensures Welds(meshData.Value(), normalize, section, weldSlot, weldOrigin)
      ensures |section.triangles| <= |meshData.Triangles|
    {
      var out;
      ghost var slot, origin;
      out, slot, origin := WeldMesh(meshData.Value(), normalize);
      section := out;
      weldSlot, weldOrigin := slot, origin;
    }

    /**
     * The section loop of BeginPlay: section s generated into a freshly
     * reset buffer over Z in [s * size / count, (s + 1) * size / count).
     */
    method GenerateSections(sh: Shading, count: int) returns (sections: seq<ThreadMesh>)
      requires Valid() && |Voxels| == GridLength(size) && count >= 1
      modifies this`TriangleOrder
      ensures sections == SectionMeshes(Input(sh, Voxels, modifications), count)
      ensures TriangleOrder == WindingOrder(surfaceLevel)
    {
      ghost var inp := Input(sh, Voxels, modifications);
      ghost var expected := SectionMeshes(inp, count);
      sections := [];
      for s := 0 to count
        invariant sections == expected[..s]
        invariant s > 0 ==> TriangleOrder == WindingOrder(surfaceLevel)
      {
        var td := GenerateSection(sh, count, s);
        sections := sections + [td];
        assert expected[..s + 1] == expected[..s] + [expected[s]];
      }
      assert expected[..count] == expected;
    }

    /** The worker task of section s: a reset buffer filled over the section's Z range. */
    method GenerateSection(sh: Shading, count: int, s: int) returns (td: ThreadMesh)
      requires Valid() && |Voxels| == GridLength(size) && 0 <= s < count
      modifies this`TriangleOrder
      ensures td == SectionMeshes(Input(sh, Voxels, modifications), count)[s]
      ensures TriangleOrder == WindingOrder(surfaceLevel)
    {
      SectionMeshesAt(Input(sh, Voxels, modifications), count, s);
      var zStart := SectionStart(s, size, count);
      var zEnd := SectionEnd(s, size, count);
      var threadData := new ThreadMeshData();
      threadData.Reset();
      GenerateMesh(zStart, zEnd, threadData, sh);
      td := threadData.Value();
    }

    /**
     * BeginPlay: the grid is allocated and filled with noise at the chunk's
     * position; Max(1, cores / 2) sections are generated from reset buffers
     * and merged in order; the merged mesh is welded and rendered. The edit
     * map is not touched.
     */
    method BeginPlay(engine: Engine)
      requires Valid()
      modifies this`Voxels, this`TriangleOrder, this`vertexCount, this`section, this`weldSlot, this`weldOrigin, meshData
      ensures Valid() && |Voxels| == GridLength(size)
      ensures TriangleOrder == WindingOrder(surfaceLevel)
      ensures HeightMapped(Voxels, size, engine.noise, frequency, GridOrigin())
      ensures meshData.Value() == Merged(SectionMeshes(Input(engine.shading, Voxels, modifications), SectionCount(engine.cores)))
      ensures WellIndexed(meshData.Value()) && meshData.UV0 == []
      ensures vertexCount == |meshData.Vertices|
      ensures Welds(meshData.Value(), engine.normalize, section, weldSlot, weldOrigin)
      ensures Generated(engine)
    {
      Setup();
      GenerateHeightMap(GridOrigin(), engine.noise);
      Polygonize(engine);
    }

    /**
     * The state BeginPlay leaves: a full height-mapped grid, the winding of
     * the surface level, the merged sections in meshData and their weld on
     * screen.
     */
    ghost predicate Generated(engine: Engine)
      reads this, meshData
    {
      GeneratedWith(engine, Voxels, modifications, TriangleOrder, vertexCount, section, weldSlot, weldOrigin, meshData.Value())
    }

    /** Generated, for given values of the fields BeginPlay writes. */
    ghost predicate GeneratedWith(engine: Engine, voxels: seq<real>, mods: map<IntVec, real>, order: seq<int>,
                                  count: int, onScreen: Mesh, slot: seq<int>, origin: seq<int>, merged: Mesh)
    {
      && Valid() && |voxels| == GridLength(size)
      && order == WindingOrder(surfaceLevel)
      && HeightMapped(voxels, size, engine.noise, frequency, GridOrigin())
      && merged == Merged(SectionMeshes(Input(engine.shading, voxels, mods), SectionCount(engine.cores)))
      && WellIndexed(merged) && merged.uv0 == []
      && count == |merged.vertices|
      && Welds(merged, engine.normalize, onScreen, slot, origin)
    }

    /**
     * The mesh half of BeginPlay: Max(1, cores / 2) sections generated from
     * reset buffers, merged in order, then welded and rendered.
     */
    method Polygonize(engine: Engine)
      requires Valid() && |Voxels| == GridLength(size)
      modifies this`TriangleOrder, this`vertexCount, this`section, this`weldSlot, this`weldOrigin, meshData
      ensures TriangleOrder == WindingOrder(surfaceLevel)
      ensures meshData.Value() == Merged(SectionMeshes(Input(engine.shading, Voxels, modifications), SectionCount(engine.cores)))
      ensures WellIndexed(meshData.Value()) && meshData.UV0 == []
      ensures vertexCount == |meshData.Vertices|
      ensures Welds(meshData.Value(), engine.normalize, section, weldSlot, weldOrigin)
    {
      var count := SectionCount(engine.cores);
      var sections := GenerateSections(engine.shading, count);
      SectionsMergeWellIndexed(Input(engine.shading, Voxels, modifications), count);
      MergeAndWeld(sections, engine.normalize);
    }

    /** The game-thread half of BeginPlay: the sections merged in order, then welded and rendered. */
    method MergeAndWeld(sections: seq<ThreadMesh>, normalize: Vec -> Vec)
      requires WellIndexed(Merged(sections))
      modifies this`vertexCount, this`section, this`weldSlot, this`weldOrigin, meshData
      ensures meshData.Value() == Merged(sections) && vertexCount == |meshData.Vertices|
      ensures Welds(meshData.Value(), normalize, section, weldSlot, weldOrigin)
    {
      MergeSections(sections);
      ApplyMesh(normalize);
    }

    /** The three brush loops of ModifyVoxel. */
    method ApplyBrush(b: Brush, dist: Metric)
      modifies this`modifications
      ensures modifications == Brushed(old(modifications), b, dist)
    {
      ghost var m0 := modifications;
      var minX, maxX := FloorToInt(b.center.x - b.radius), CeilToInt(b.center.x + b.radius);
      var minY, maxY := FloorToInt(b.center.y - b.radius), CeilToInt(b.center.y + b.radius);
      var minZ, maxZ := FloorToInt(b.center.z - b.radius), CeilToInt(b.center.z + b.radius);
      BrushedBeforeStart(m0, b, dist);
      var x := minX;
      while x <= maxX
        invariant minX <= x
        invariant BrushedBefore(modifications, m0, b, dist, x, minY, minZ)
        decreases maxX - x
      {
        var y := minY;
        while y <= maxY
          invariant minY <= y
          invariant BrushedBefore(modifications, m0, b, dist, x, y, minZ)
          decreases maxY - y
        {
          var z := minZ;
          while z <= maxZ
            invariant minZ <= z
            invariant BrushedBefore(modifications, m0, b, dist, x, y, z)
            decreases maxZ - z
          {
            BrushVoxel(b, dist, m0, IntVec(x, y, z));
            z := z + 1;
          }
          BrushedBeforeRow(modifications, m0, b, dist, x, y, z);
          y := y + 1;
        }
        BrushedBeforeSlice(modifications, m0, b, dist, x, y, minZ);
        x := x + 1;
      }
      BrushedBeforeDone(modifications, m0, b, dist, x, minY, minZ);
    }

    /** The body of the brush loops for voxel k: FindOrAdd(k, 0) += falloff * speed * dt inside the radius. */
    method BrushVoxel(b: Brush, dist: Metric, ghost m0: map<IntVec, real>, k: IntVec)
      requires b.InBox(k) && BrushedBefore(modifications, m0, b, dist, k.x, k.y, k.z)
      modifies this`modifications
      ensures BrushedBefore(modifications, m0, b, dist, k.x, k.y, k.z + 1)
    {
      BrushedBeforeStep(modifications, m0, b, dist, k.x, k.y, k.z);
      var voxelCenter := Vec(k.x as real + 0.5, k.y as real + 0.5, k.z as real + 0.5);
      var d := dist(voxelCenter, b.center);
      if d < b.radius {
        var falloff := 1.0 - d / b.radius;
        var deltaDensity := falloff * b.speed * b.dt;
        assert deltaDensity == b.Delta(dist, k);
        modifications := modifications[k := Lookup(modifications, k) + deltaDensity];
      }
    }

    /**
     * SaveModifications: nothing when there are no edits; otherwise the
     * file `<saveDir>/Chunk_cx_cy_cz.sav` of the chunk containing the actor,
     * holding one record per edit in some iteration order. Loading that text
     * restores every edit, rounded to six decimals.
     */
    method SaveModifications(saveDir: string) returns (saved: Option<(string, string)>, ghost order: seq<IntVec>)
      requires Valid()
      ensures saved == None <==> |modifications| == 0
      ensures forall i :: 0 <= i < |order| ==> order[i] in modifications
      ensures forall k :: k in modifications ==> k in order
      ensures forall i, j :: 0 <= i < j < |order| ==> order[i] != order[j]
      ensures saved.Some? ==> saved.value.0 == FilePath(saveDir, ChunkCoordOf(location, size))
      ensures saved.Some? ==> saved.value.1 == SaveText(modifications, order)
      ensures saved.Some? ==> LoadText(map[], saved.value.1) == map k | k in modifications :: Round6(modifications[k])
    {
      order := [];
      if |modifications| == 0 {
        return None, order;
      }
      var chunkCoord := ChunkCoordOf(location, size);
      var fileName := FilePath(saveDir, chunkCoord);
      var saveData := "";
      var rest := modifications.Keys;
      while rest != {}
        invariant Enumerating(modifications.Keys, order, rest)
        invariant saveData == SaveText(modifications, order)
        decreases |rest|
      {
        var k :| k in rest;
        EnumeratingStep(modifications.Keys, order, rest, k);
        SaveTextSnoc(modifications, order, k);
        saveData := saveData + RecordLine(k, modifications[k]);
        order := order + [k];
        rest := rest - {k};
      }
      SaveLoadFresh(modifications, order);
      saved := Some((fileName, saveData));
    }

    /**
     * LoadModifications: when the chunk's file exists, every line with
     * exactly four comma-separated fields stores its parsed density under its
     * parsed position, replacing any edit there; otherwise nothing changes.
     */
    method LoadModifications(saveDir: string, files: map<string, string>)
      requires Valid()
      modifies this`modifications
      ensures var path := FilePath(saveDir, ChunkCoordOf(location, size));
        modifications == if path in files then LoadText(old(modifications), files[path]) else old(modifications)
    {
      var chunkCoord := ChunkCoordOf(location, size);
      var fileName := FilePath(saveDir, chunkCoord);
      if fileName !in files {
        return;
      }
      var lines := Tokens(files[fileName], LineEnds);
      var i := 0;
      while i < |lines|
        invariant 0 <= i <= |lines|
        invariant ApplyLines(modifications, lines[i..]) == ApplyLines(old(modifications), lines)
      {
        assert lines[i..][1..] == lines[i + 1..];
        var parts := Tokens(lines[i], Comma);
        if |parts| == 4 {
          var pos := IntVec(ParseInt(parts[0]), ParseInt(parts[1]), ParseInt(parts[2]));
          var density := ParseDecimal(parts[3]);
          modifications := modifications[pos := density];
        }
        i := i + 1;
      }
    }

    /**
     * The remesh stage of ModifyVoxel: the whole chunk regenerated as one
     * section whose arrays and vertex count move directly into the mesh
     * buffers, which are then welded and rendered.
     */
    method Remesh(engine: Engine)
      requires Valid() && |Voxels| == GridLength(size)
      modifies this`TriangleOrder, this`vertexCount, this`section, this`weldSlot, this`weldOrigin, meshData
      ensures var sm := Input(engine.shading, Voxels, modifications).SectionMesh(0, size);
        && meshData.Value() == Merged([sm])
        && vertexCount == sm.vertexCount
      ensures Welds(meshData.Value(), engine.normalize, section, weldSlot, weldOrigin)
      ensures TriangleOrder == WindingOrder(surfaceLevel)
    {
      RefillBuffers(engine.shading);
      ApplyMesh(engine.normalize);
    }

    /** The whole chunk regenerated and moved into the mesh buffers, before the weld. */
    method RefillBuffers(sh: Shading)
      requires Valid() && |Voxels| == GridLength(size)
      modifies this`TriangleOrder, this`vertexCount, meshData
      ensures var sm := Input(sh, Voxels, modifications).SectionMesh(0, size);
        && meshData.Value() == Merged([sm])
        && vertexCount == sm.vertexCount
      ensures WellIndexed(meshData.Value())
      ensures TriangleOrder == WindingOrder(surfaceLevel)
    {
      ghost var inp := Input(sh, Voxels, modifications);
      var td := GenerateWhole(sh);
      WholeSectionMerge(inp);
      TakeSection(td);
    }

    /** The worker-thread half of the remesh: the whole Z range generated into a fresh, reset buffer. */
    method GenerateWhole(sh: Shading) returns (td: ThreadMesh)
      requires Valid() && |Voxels| == GridLength(size)
      modifies this`TriangleOrder
      ensures td == Input(sh, Voxels, modifications).SectionMesh(0, size)
      ensures TriangleOrder == WindingOrder(surfaceLevel)
    {
      var result := new ThreadMeshData();
      result.Reset();
      GenerateMesh(0, size, result, sh);
      td := result.Value();
    }

    /**
     * The game-thread half of the remesh: Clear, then the section's arrays
     * moved in whole. The section's vertex count is stored in the chunk's
     * one vertexCount field.
     */
    method TakeSection(td: ThreadMesh)
      modifies this`vertexCount, meshData
      ensures meshData.Value() == Mesh(td.vertices, td.triangles, td.normals, td.colors, [])
      ensures vertexCount == td.vertexCount
    {
      meshData.Clear();
      meshData.Vertices := td.vertices;
      meshData.Triangles := td.triangles;
      meshData.Normals := td.normals;
      meshData.Colors := td.colors;
      vertexCount := td.vertexCount;
    }

    /**
     * ModifyVoxel: the brush at worldPos (in the chunk's voxel units) is
     * applied to the edit map, the edits are saved, and the chunk is
     * remeshed from the edited field.
     */
    method ModifyVoxel(worldPos: Vec, editingSpeed: real, brushRadius: real, dt: real, dist: Metric, engine: Engine, saveDir: string)
      returns (saved: Option<(string, string)>)
      requires Valid() && |Voxels| == GridLength(size)
      modifies this`modifications, this`TriangleOrder, this`vertexCount, this`section, this`weldSlot, this`weldOrigin, meshData
      ensures modifications == Brushed(old(modifications), Brush(ToLocal(worldPos, location), brushRadius, editingSpeed, dt), dist)
      ensures saved == None <==> |modifications| == 0
      ensures saved.Some? ==> saved.value.0 == FilePath(saveDir, ChunkCoordOf(location, size))
      ensures saved.Some? ==> LoadText(map[], saved.value.1) == map k | k in modifications :: Round6(modifications[k])
      ensures var sm := Input(engine.shading, Voxels, modifications).SectionMesh(0, size);
        && meshData.Value() == Merged([sm])
        && vertexCount == sm.vertexCount
      ensures Welds(meshData.Value(), engine.normalize, section, weldSlot, weldOrigin)
      ensures TriangleOrder == WindingOrder(surfaceLevel)
    {
      ApplyBrush(Brush(ToLocal(worldPos, location), brushRadius, editingSpeed, dt), dist);
      ghost var order;
      saved, order := SaveModifications(saveDir);
      Remesh(engine);
    }
  }
}
