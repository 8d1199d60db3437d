# Destructible marching-cubes terrain, modelled in Dafny

The repository is an Unreal Engine voxel terrain with two actors:
- **Chunks** (`AMarchingCubeGen`). Each chunk holds a `(size+1)^3` grid of noise densities and a sparse map of player-made density deltas. It polygonizes the grid with marching cubes, running several Z sections and merging them in order. It welds duplicate vertices and drops degenerate triangles. It edits the delta map with a spherical brush, and saves and loads that map as CSV text.
- **A streamer** (`AGenerateTerrain`). It keeps a reservation map from chunk coordinates to chunks, where a null value marks a reserved chunk that is not spawned yet, beside a FIFO queue of coordinates to spawn. Every tick it spawns a bounded number of queued chunks, unloads far chunks and reserves the draw box around the player.

The chunk exists in two copies, `Generation/MarchingCubeGen.cpp` and the root `MarchingCubeGen.cpp`. Apart from comments and a `void const` on the root `GenerateMesh`, they are the same code, so one model covers both. The streamer also exists in two copies. The Generation copy passes its surface level to each chunk; the root copy does not, so its chunks keep their default. The streamer's `surfaceLevel: Option<real>` models this difference: `Some` is the Generation copy and `None` is the root copy. The header `GenerateTerrain.h` declares no surface level, so it matches the root copy.

Modules, one file each:
- `Geometry` (geometry.dfy). Integer and real vectors. Chunk origins, and the floor of a world position over the chunk width, which gives the chunk a position lies in.
- `MeshBuffers` (mesh_data.dfy). `FMeshData` as a class of five arrays with `Clear`. `FThreadMeshData`, the per-section buffer, with `Reset`.
- `VoxelGrid` (voxel_grid.dfy). The flat grid index, the noise sampling predicate, the effective density (base sample plus delta), and the clamped edge interpolation.
- `Polygonizer` (marching.dfy). The lookup tables (shape only), the corner mask, and the triangles of one cell as a function. `Emit` and `EmitAll` state what appending triangles does to a buffer. The triangles of a column, slice, block and section, and the Z-section split.
- `Assembler` (assembler.dfy). Merging sections with index offsets, and the welder behind `ApplyMesh`: the quantized-key lookup, the kept triangles and the summed normals, and the proof that the weld of a mesh is unique.
- `SectionSplit` (sections.dfy). Why the number of sections does not change what is rendered: the sections regroup the cells of the grid, so the weld of the merged mesh has the same vertex keys, vertex count and index count for every section count.
- `Editor` (editor.dfy). The spherical brush of `ModifyVoxel`, as a map function with its loop invariant.
- `Persistence` (persistence.dfy):
  - `%d` and `%f` formatting, and Atoi/Atof-style parsing;
  - line and comma splitting;
  - the save text and the load fold;
  - the save/load round trip;
  - the `Chunk_x_y_z.sav` file name.
- `ChunkActor` (chunk.dfy). The chunk as a class. Its methods keep the source's loops, and each is proved against the functions above.
- `Streamer` (streamer.dfy). The streamer as a class, with its reservation invariant `Tracked`.

Floats are real numbers. The following are parameters of the model:
- the noise function;
- face normals and random colours (`Shading`);
- `FVector::Normalize`;
- the distance metric;
- the number of cores;
- the save directory and the file system (a map from path to text);
- the frame time and the player position.

The table below names, for each member, the source lines it models. All paths are relative to the repository root.

## Model

| member | source | states |
|---|---|---|
| Geometry.FloorDiv | Source/TerrainDestruct/Generation/MarchingCubeGen.cpp:465-467 | `FloorToInt(p / w)`: the integer r with `r*w <= p < (r+1)*w` |
| Geometry.ChunkCoordOf | Source/TerrainDestruct/Generation/MarchingCubeGen.cpp:464-468 | the chunk coordinate of a location is the chunk whose cube of side `size*100` contains it, on each axis |
| Geometry.FloorDivUnique | Source/TerrainDestruct/Generation/GenerateTerrain.cpp:89-91 | the floored quotient is the only integer whose cell contains the position |
| Geometry.ChunkCoordOfOrigin | Source/TerrainDestruct/Generation/GenerateTerrain.cpp:100 | a chunk spawned at `coords*size*100` computes `coords` back as its own chunk coordinate, and therefore its own save file |
| Geometry.ChunkOriginInjective | Source/TerrainDestruct/GenerateTerrain.cpp:82 | distinct chunk coordinates give distinct spawn positions |
| MeshBuffers.MeshData.constructor | Source/TerrainDestruct/MeshData.h:7-14 | a new buffer holds the five empty arrays |
| MeshBuffers.MeshData.Clear | Source/TerrainDestruct/MeshData.h:19-26 | after `Clear` all five arrays are empty; clearing an empty buffer changes nothing |
| MeshBuffers.ThreadMeshData.constructor | Source/TerrainDestruct/Generation/MarchingCubeGen.cpp:67 | a new section buffer is empty with vertex count 0 |
| MeshBuffers.ThreadMeshData.Reset | Source/TerrainDestruct/Generation/MarchingCubeGen.cpp:68 | `Reset` empties the section buffer and zeroes its vertex count |
| VoxelGrid.GridLengthCube | Source/TerrainDestruct/Generation/MarchingCubeGen.cpp:113 | the grid length is `(size+1)^3` |
| VoxelGrid.GetVoxelIndex | Source/TerrainDestruct/Generation/MarchingCubeGen.cpp:247-250 | every grid point's index lies in `[0, (size+1)^3)`, the length `Setup` allocates |
| VoxelGrid.GetVoxelIndexFormula | Source/TerrainDestruct/Generation/MarchingCubeGen.cpp:249 | the index is `Z*(size+1)^2 + Y*(size+1) + X` |
| VoxelGrid.GetVoxelIndexDecode | Source/TerrainDestruct/Generation/MarchingCubeGen.cpp:247-250 | X, Y and Z are recovered from the index by `%` and `/` by `size+1` |
| VoxelGrid.GetVoxelIndexInjective | Source/TerrainDestruct/Generation/MarchingCubeGen.cpp:247-250 | two grid points with the same index are the same point |
| VoxelGrid.SampledStep | Source/TerrainDestruct/Generation/MarchingCubeGen.cpp:127-131 | writing one sample keeps every earlier sample and adds this one |
| VoxelGrid.SampledRow | Source/TerrainDestruct/Generation/MarchingCubeGen.cpp:124 | the end of the Z loop is the start of the next row |
| VoxelGrid.SampledSlice | Source/TerrainDestruct/Generation/MarchingCubeGen.cpp:122 | the end of the Y loop is the start of the next slice |
| VoxelGrid.SampledAll | Source/TerrainDestruct/Generation/MarchingCubeGen.cpp:120-134 | after the three loops, every grid point holds its own noise sample |
| VoxelGrid.GetInterpolationOffset | Source/TerrainDestruct/Generation/MarchingCubeGen.cpp:253-263 | the offset is in `[0,1]` and is `0.5` for a flat edge; when the level lies between the two densities it is the exact crossing; otherwise it is clamped to 0 or 1 on the correct side |
| VoxelGrid.RawOffsetInside | Source/TerrainDestruct/Generation/MarchingCubeGen.cpp:261 | when the level lies between V1 and V2, `(level - V1)/delta` is in `[0,1]` and interpolates to the level |
| VoxelGrid.RawOffsetBelow | Source/TerrainDestruct/Generation/MarchingCubeGen.cpp:261-262 | when both densities are on the far side of the level from V2, the raw offset is at most 0, which clamps to 0 |
| VoxelGrid.RawOffsetAbove | Source/TerrainDestruct/Generation/MarchingCubeGen.cpp:261-262 | when the level is beyond V2, the raw offset is at least 1, which clamps to 1 |
| Polygonizer.MaskIndex | Source/TerrainDestruct/Generation/MarchingCubeGen.cpp:197 | the corner mask indexes one of the 256 table rows |
| Polygonizer.CornerMaskBits | Source/TerrainDestruct/Generation/MarchingCubeGen.cpp:185-194 | bit i of the vertex mask is set iff `Cube[i] <= surfaceLevel` |
| Polygonizer.WithCornerBit | Source/TerrainDestruct/Generation/MarchingCubeGen.cpp:192 | `mask | 1 << j` sets bit j and keeps every other bit |
| Polygonizer.MaskFromBits | Source/TerrainDestruct/Generation/MarchingCubeGen.cpp:185-194 | an 8-bit mask is determined by its eight bits |
| Polygonizer.CornerMaskZero | Source/TerrainDestruct/Generation/MarchingCubeGen.cpp:185-194 | the mask is 0 iff every corner is above the level |
| Polygonizer.CornerMaskFull | Source/TerrainDestruct/Generation/MarchingCubeGen.cpp:185-194 | the mask is 255 iff every corner is at or below the level |
| Polygonizer.WindingOrder | Source/TerrainDestruct/MarchingCubeGen.cpp:116-127 | `TriangleOrder` is a permutation of 0,1,2 with 1 in the middle; it starts with 0 iff `surfaceLevel > 0` |
| Polygonizer.TriangleCount | Source/TerrainDestruct/Generation/MarchingCubeGen.cpp:214-216 | the triangle loop runs up to the first sentinel or 5, whichever comes first; every triangle before that starts with an edge number |
| Polygonizer.RowTriangles | Source/TerrainDestruct/Generation/MarchingCubeGen.cpp:214-243 | a table row yields exactly as many triangles as the loop visits |
| Polygonizer.CellTrianglesAtMostFive | Source/TerrainDestruct/Generation/MarchingCubeGen.cpp:214 | one cell yields at most 5 triangles |
| Polygonizer.UniformCellEmpty | Source/TerrainDestruct/Generation/MarchingCubeGen.cpp:197-198 | a cell wholly above or wholly below the surface yields no triangles when the table has no edges for masks 0 and 255 |
| Polygonizer.EmitAllAppend | Source/TerrainDestruct/Generation/MarchingCubeGen.cpp:232-242 | emitting two runs of triangles is emitting the first, then the second |
| Polygonizer.EmitConsistent | Source/TerrainDestruct/Generation/MarchingCubeGen.cpp:232-242 | one triangle adds 3 vertices, normals, colours and indices; the 3 indices are distinct and in `[VertexCount, VertexCount+3)`; `VertexCount` grows by 3 and stays equal to the vertex count |
| Polygonizer.EmitAllConsistent | Source/TerrainDestruct/Generation/MarchingCubeGen.cpp:232-242 | emitting n triangles keeps the buffer consistent, adds 3n vertices and 3n indices, and leaves the old contents as a prefix |
| Polygonizer.NonDegenerateSnoc | Source/TerrainDestruct/Generation/MarchingCubeGen.cpp:235-237 | appending three distinct indices keeps every triangle nondegenerate |
| Polygonizer.EmitAllNonDegenerate | Source/TerrainDestruct/Generation/MarchingCubeGen.cpp:235-237 | no triangle emitted by `March` has two equal indices |
| Polygonizer.MarchInput.CornersUpTo | Source/TerrainDestruct/Generation/MarchingCubeGen.cpp:165-172 | the first n gathered corners are the effective densities at the cell's corner offsets |
| Polygonizer.MarchInput.Corners | Source/TerrainDestruct/Generation/MarchingCubeGen.cpp:155 | the gathered cube has 8 densities |
| Polygonizer.SectionMeshConsistent | Source/TerrainDestruct/Generation/MarchingCubeGen.cpp:138-179 | a section generated into a reset buffer is consistent (indices below its vertex count) and nondegenerate |
| Polygonizer.ColumnMeshEmits | Source/TerrainDestruct/Generation/MarchingCubeGen.cpp:162-176 | the buffer after the Z loop has run from `zStart` to z holds the column's cells, in Z order, appended to the buffer it started from |
| Polygonizer.SliceStep | Source/TerrainDestruct/Generation/MarchingCubeGen.cpp:160-177 | one more Y column appends that column's triangles to the slice |
| Polygonizer.BlockStep | Source/TerrainDestruct/Generation/MarchingCubeGen.cpp:158-178 | one more X slice appends that slice's triangles to the section |
| Polygonizer.SectionCount | Source/TerrainDestruct/Generation/MarchingCubeGen.cpp:55 | there is always at least one section |
| Polygonizer.SectionsTile | Source/TerrainDestruct/Generation/MarchingCubeGen.cpp:59-63 | the section bounds `s*size/count` start at 0, end at size, and are contiguous and ordered |
| Polygonizer.SectionContaining | Source/TerrainDestruct/Generation/MarchingCubeGen.cpp:61-62 | every Z layer of `[0,size)` lies in some section (no gap) |
| Polygonizer.SectionUnique | Source/TerrainDestruct/Generation/MarchingCubeGen.cpp:61-62 | no Z layer lies in two sections (no overlap) |
| Polygonizer.SectionOrder | Source/TerrainDestruct/Generation/MarchingCubeGen.cpp:61-62 | a later section never starts below the end of an earlier one |
| Polygonizer.SectionStartMonotone | Source/TerrainDestruct/Generation/MarchingCubeGen.cpp:61 | section starts never decrease |
| Polygonizer.SectionMeshes | Source/TerrainDestruct/Generation/MarchingCubeGen.cpp:59-72 | one generated buffer per section |
| Polygonizer.SectionMeshesAt | Source/TerrainDestruct/Generation/MarchingCubeGen.cpp:59-72 | buffer s is the mesh of Z range `[s*size/count, (s+1)*size/count)` generated from a reset buffer |
| Polygonizer.SectionMeshesConsistent | Source/TerrainDestruct/Generation/MarchingCubeGen.cpp:59-72 | every section buffer is consistent and nondegenerate |
| Assembler.Shift | Source/TerrainDestruct/Generation/MarchingCubeGen.cpp:89-92 | offsetting indices by the merged vertex count keeps their number |
| Assembler.MergedWellIndexed | Source/TerrainDestruct/Generation/MarchingCubeGen.cpp:82-101 | merging consistent sections gives a mesh whose every index is below `Vertices.Num()`, whose vertex, normal and colour arrays are equal in length, whose triangles are nondegenerate and whose UV0 is empty; the vertex count is the sum over the sections |
| Assembler.SectionsMergeWellIndexed | Source/TerrainDestruct/Generation/MarchingCubeGen.cpp:59-101 | the in-order merge of the generated sections is well indexed and has no UV0 |
| Assembler.WholeSectionMerge | Source/TerrainDestruct/Generation/MarchingCubeGen.cpp:427-443 | the whole Z range generated as one section and moved in is exactly that section's arrays, well indexed |
| Assembler.MergedSingle | Source/TerrainDestruct/Generation/MarchingCubeGen.cpp:438-443 | a merge of one section is that section's arrays moved into the mesh |
| Assembler.MergedSingleWellIndexed | Source/TerrainDestruct/Generation/MarchingCubeGen.cpp:438-443 | the moved single section is well indexed and nondegenerate |
| Assembler.ShiftNonDegenerate | Source/TerrainDestruct/Generation/MarchingCubeGen.cpp:89-92 | offsetting indices keeps triangles nondegenerate |
| Assembler.AppendNonDegenerate | Source/TerrainDestruct/Generation/MarchingCubeGen.cpp:89-92 | appending nondegenerate triangle lists keeps them nondegenerate |
| Assembler.RoundToInt | Source/TerrainDestruct/Generation/MarchingCubeGen.cpp:285-287 | rounding lands within one half of its argument |
| Assembler.SameKeyClose | Source/TerrainDestruct/Generation/MarchingCubeGen.cpp:282-289 | two coordinates with the same rounded key differ by less than the 0.001 precision |
| Assembler.QuantizeClose | Source/TerrainDestruct/Generation/MarchingCubeGen.cpp:282-289 | vertices merged under one key are within the precision on every axis |
| Assembler.GetOrAddVertex | Source/TerrainDestruct/Generation/MarchingCubeGen.cpp:292-309 | a known key returns its index and adds the normal there, changing nothing else; a new key appends the vertex, normal and colour and returns the next index; the lookup stays exact |
| Assembler.Kept | Source/TerrainDestruct/Generation/MarchingCubeGen.cpp:331-334 | every kept index is one of the welded corner indices, and there are no more kept indices than corners |
| Assembler.KeptNonDegenerate | Source/TerrainDestruct/Generation/MarchingCubeGen.cpp:331-334 | no kept triangle has two equal indices |
| Assembler.NormalSumFresh | Source/TerrainDestruct/Generation/MarchingCubeGen.cpp:298-306 | a vertex not yet created has summed no normals |
| Assembler.NormalSumStep | Source/TerrainDestruct/Generation/MarchingCubeGen.cpp:298-306 | one more corner adds its normal to exactly the vertex it was welded to |
| Assembler.SlotsStep | Source/TerrainDestruct/Generation/MarchingCubeGen.cpp:314-328 | the index returned for a corner names a vertex with the corner's key |
| Assembler.OriginsStepFound | Source/TerrainDestruct/Generation/MarchingCubeGen.cpp:295-299 | a found key adds no vertex, so every vertex keeps its originating corner |
| Assembler.OriginsStepAdded | Source/TerrainDestruct/Generation/MarchingCubeGen.cpp:303-307 | a new vertex is the position and colour of the corner that created it |
| Assembler.NormalsStepFound | Source/TerrainDestruct/Generation/MarchingCubeGen.cpp:298 | a found key's normal absorbs the corner's normal |
| Assembler.NormalsStepAdded | Source/TerrainDestruct/Generation/MarchingCubeGen.cpp:306 | a new vertex starts with the corner's normal |
| Assembler.WeldCorner | Source/TerrainDestruct/Generation/MarchingCubeGen.cpp:314-328 | one `GetOrAddVertex` call on a triangle corner, with the welding invariant kept |
| Assembler.WeldMesh | Source/TerrainDestruct/Generation/MarchingCubeGen.cpp:267-341 | the result is a weld of `meshData` (`Welds`): one vertex per quantized key, numbered in the order the keys first occur among the corners, with the first corner's position and colour; each corner's index names the vertex of its key; exactly the triangles with three distinct indices kept, in order; each normal the normalized sum of its corners' normals; no more triangles than it read. By `WeldUnique` this determines the result completely |
| Assembler.WeldCorners | Source/TerrainDestruct/Generation/MarchingCubeGen.cpp:312-335 | the triangle loop processes every corner, keeping the welding invariant (vertices numbered in first-occurrence order of their keys, each corner's index naming its key's vertex, normals summed per vertex), and emits exactly the kept triangles |
| Assembler.WeldTriangle | Source/TerrainDestruct/Generation/MarchingCubeGen.cpp:313-334 | one triangle: three corners welded in order with the welding invariant kept (a new key gets the next index), the triangle appended iff its three indices are distinct |
| Assembler.ProcessedStart | Source/TerrainDestruct/Generation/MarchingCubeGen.cpp:270-279 | the empty lookup and arrays satisfy the welding invariant |
| Assembler.KeptStep | Source/TerrainDestruct/Generation/MarchingCubeGen.cpp:331-334 | a triangle is kept iff `i1 != i2 && i2 != i3 && i3 != i1` |
| Assembler.NormalizeAll | Source/TerrainDestruct/Generation/MarchingCubeGen.cpp:338-341 | every accumulated normal is normalized, in place |
| Assembler.KeptInRange | Source/TerrainDestruct/Generation/MarchingCubeGen.cpp:331-334 | every kept index is below `finalVertices.Num()` |
| Assembler.IndexesDistinct | Source/TerrainDestruct/Generation/MarchingCubeGen.cpp:294-308 | one final vertex per distinct quantized key |
| Assembler.WeldedMesh | Source/TerrainDestruct/Generation/MarchingCubeGen.cpp:267-354 | the final arrays are well indexed, nondegenerate, equal in length, one vertex per key, each vertex taken from a corner with its colour, each normal the normalized sum of the normals welded to it, and at most `Triangles.Num()/3` triangles |
| Assembler.WeldedShape | Source/TerrainDestruct/Generation/MarchingCubeGen.cpp:312-335 | the shape part of the welded mesh: indices in range, arrays equal in length, triangles kept |
| Assembler.WeldedOrigins | Source/TerrainDestruct/Generation/MarchingCubeGen.cpp:303-307 | each final vertex and colour are those of the corner that created it, and vertices are numbered in the order their creating corners occur |
| Assembler.OriginsAreFirsts | Source/TerrainDestruct/Generation/MarchingCubeGen.cpp:294-308 | the corners that created final vertices are exactly the corners whose key no earlier corner has |
| Assembler.IncreasingUnique | Source/TerrainDestruct/Generation/MarchingCubeGen.cpp:303 | two increasing index lists with the same elements are equal, so the creating corners in increasing order are determined by the mesh |
| Assembler.FirstOfKeyUnique | Source/TerrainDestruct/Generation/MarchingCubeGen.cpp:294-295 | two corners that are each the first of their key and share a key are the same corner |
| Assembler.WeldSlotAt | Source/TerrainDestruct/Generation/MarchingCubeGen.cpp:294-299 | with the same creating corners, every corner gets the same final index in two welds |
| Assembler.WeldOutputUnique | Source/TerrainDestruct/Generation/MarchingCubeGen.cpp:312-341 | with the same corner indices and creating corners, two welds are the same mesh |
| Assembler.WeldUnique | Source/TerrainDestruct/Generation/MarchingCubeGen.cpp:267-341 | any two welds of the same mesh have the same creating corners, the same corner indices and the same output: the weld the source computes is the only one |
| Assembler.WeldedNormals | Source/TerrainDestruct/Generation/MarchingCubeGen.cpp:337-341 | each final normal is the normalized sum of its corners' normals |
| SectionSplit.ColumnSplit | Source/TerrainDestruct/Generation/MarchingCubeGen.cpp:162 | the Z loop of a column over `[z0, z2)` emits the cells over `[z0, z1)` followed by those over `[z1, z2)` |
| SectionSplit.SliceSplit | Source/TerrainDestruct/Generation/MarchingCubeGen.cpp:160-177 | each triangle occurs in a slice over `[z0, z2)` as often as in the slices over `[z0, z1)` and `[z1, z2)` together |
| SectionSplit.BlockSplit | Source/TerrainDestruct/Generation/MarchingCubeGen.cpp:158-177 | the same for the X, Y and Z loops of `GenerateMesh`: cutting the Z range in two keeps every triangle's multiplicity |
| SectionSplit.TiledCount | Source/TerrainDestruct/Generation/MarchingCubeGen.cpp:59-71 | the first k of a list of blocks over adjacent Z ranges starting at 0 hold each triangle as often as one block up to the k-th end |
| SectionSplit.SplitCells | Source/TerrainDestruct/Generation/MarchingCubeGen.cpp:55-71 | the `Max(1, cores/2)` sections together hold exactly the triangles of the whole grid (`GenerateMesh(0, size)`), each as often: the same multiset |
| SectionSplit.ColumnIs | Source/TerrainDestruct/Generation/MarchingCubeGen.cpp:158-177 | the polygonizer's column triangles are the column of the cell function that agrees with its cells |
| SectionSplit.SliceIs | Source/TerrainDestruct/Generation/MarchingCubeGen.cpp:158-177 | the same for slices |
| SectionSplit.BlockIs | Source/TerrainDestruct/Generation/MarchingCubeGen.cpp:158-177 | the same for blocks, so each section is a block of the input's cells |
| SectionSplit.SectionMeshesSplit | Source/TerrainDestruct/Generation/MarchingCubeGen.cpp:59-71 | each section buffer is a reset buffer after emitting the section's block of cells |
| SectionSplit.EmitCorners | Source/TerrainDestruct/Generation/MarchingCubeGen.cpp:214-240 | one emitted triangle names its three corners, in winding order, after the corners already in the buffer, and keeps the buffer consistent |
| SectionSplit.EmitAllCorners | Source/TerrainDestruct/Generation/MarchingCubeGen.cpp:214-240 | emitting a list of triangles appends their corners, in order, to the buffer's |
| SectionSplit.FreshCorners | Source/TerrainDestruct/Generation/MarchingCubeGen.cpp:66-69 | a reset buffer after `GenerateMesh` names exactly the corners of the emitted triangles |
| SectionSplit.FreshMeshesCorners | Source/TerrainDestruct/Generation/MarchingCubeGen.cpp:59-71 | the section buffers name the corners of the joined blocks, in order |
| SectionSplit.AppendedCorners | Source/TerrainDestruct/Generation/MarchingCubeGen.cpp:86-97 | one round of the merge loop, with its indices rebased by `baseVertex`, appends the section's corners to the merged mesh's |
| SectionSplit.MergedCorners | Source/TerrainDestruct/Generation/MarchingCubeGen.cpp:82-98 | the merged mesh is well indexed and, through its rebased indices, names every section's corners in section order |
| SectionSplit.WeldKeys | Source/TerrainDestruct/Generation/MarchingCubeGen.cpp:267-341 | the final vertices have exactly the keys of the merged mesh's corners |
| SectionSplit.WeldVertexCount | Source/TerrainDestruct/Generation/MarchingCubeGen.cpp:267-341 | `finalVertices` has one vertex per distinct corner key |
| SectionSplit.KeptCount | Source/TerrainDestruct/Generation/MarchingCubeGen.cpp:312-333 | with slots equal exactly where keys are, the kept triangles are the triplets of three distinct keys |
| SectionSplit.WeldTriangleCount | Source/TerrainDestruct/Generation/MarchingCubeGen.cpp:312-333 | `finalTriangles` has three indices per triplet of corners whose keys are three distinct keys |
| SectionSplit.DistinctTriplesAppend | Source/TerrainDestruct/Generation/MarchingCubeGen.cpp:312-333 | the count of triplets with distinct keys adds up over a concatenation |
| SectionSplit.CornerKeysAppend | Source/TerrainDestruct/Generation/MarchingCubeGen.cpp:312-333 | the corner keys and the kept-triangle count of a list of triangles add up over a concatenation |
| SectionSplit.CornerKeysMove | Source/TerrainDestruct/Generation/MarchingCubeGen.cpp:312-333 | moving one triangle to the end of the list changes neither the corner keys nor the kept-triangle count |
| SectionSplit.CornerKeysPermutation | Source/TerrainDestruct/Generation/MarchingCubeGen.cpp:312-333 | two lists with the same triangles, equally often, in any order, have the same corner keys and keep as many triangles |
| SectionSplit.WeldOfBlocks | Source/TerrainDestruct/Generation/MarchingCubeGen.cpp:82-105 | the weld of merged blocks has the keys of the corners of any list with the same triangles, one vertex per key, and three indices per such triangle with three distinct keys |
| SectionSplit.WeldOfSections | Source/TerrainDestruct/Generation/MarchingCubeGen.cpp:55-105 | for any section count, the rendered weld has the corner keys, the vertex count and the index count of the whole grid generated as one section |
| SectionSplit.SectionCountIrrelevant | Source/TerrainDestruct/Generation/MarchingCubeGen.cpp:55-105 | two section counts of at least 1 (e.g. 1 and 8) over the same field give welds with the same vertex keys, equal `|vertices|` and equal `|triangles|` |
| SectionSplit.CoresIrrelevant | Source/TerrainDestruct/Generation/MarchingCubeGen.cpp:33-107 | two BeginPlay states over the same voxels and edits, on engines that differ in `NumberOfCores()`, render the same vertex keys, vertex count and index count |
| Editor.FloorToInt | Source/TerrainDestruct/Generation/MarchingCubeGen.cpp:383 | `FloorToInt` is the greatest integer not above its argument |
| Editor.CeilToInt | Source/TerrainDestruct/Generation/MarchingCubeGen.cpp:384 | `CeilToInt` is the least integer not below its argument |
| Editor.ToLocal | Source/TerrainDestruct/Generation/MarchingCubeGen.cpp:380 | the local brush centre maps back to the world position |
| Editor.Brush.Box | Source/TerrainDestruct/Generation/MarchingCubeGen.cpp:383-395 | the voxels visited are exactly the floor/ceil box of the brush |
| Editor.Brush.Falloff | Source/TerrainDestruct/Generation/MarchingCubeGen.cpp:405 | the falloff of a touched voxel is in `(0,1]` |
| Editor.FalloffRange | Source/TerrainDestruct/Generation/MarchingCubeGen.cpp:402-405 | `dist < r` gives `0 < 1 - dist/r <= 1` |
| Editor.FalloffMonotone | Source/TerrainDestruct/Generation/MarchingCubeGen.cpp:405 | a nearer voxel gets at least the falloff of a farther one |
| Editor.Brushed | Source/TerrainDestruct/Generation/MarchingCubeGen.cpp:391-419 | the edit touches exactly the voxels in the box whose centre is strictly within the radius; each gains `falloff*speed*dt`, created at 0 if absent; every other entry is unchanged and none is removed |
| Editor.BrushedDensity | Source/TerrainDestruct/Generation/MarchingCubeGen.cpp:367-370 | after an edit, the effective density of a voxel grows by exactly its delta |
| Editor.BrushedAt | Source/TerrainDestruct/Generation/MarchingCubeGen.cpp:412-415 | `FindOrAdd(k, 0) += delta`: the stored value grows by the delta, starting from 0 |
| Editor.BrushedCommute | Source/TerrainDestruct/Generation/MarchingCubeGen.cpp:377-419 | two brush strokes give the same map in either order |
| Editor.EmptyBrush | Source/TerrainDestruct/Generation/MarchingCubeGen.cpp:402 | a brush of radius at most 0 changes nothing |
| Editor.BrushedDirection | Source/TerrainDestruct/Generation/MarchingCubeGen.cpp:405-415 | digging (negative speed) lowers a touched voxel by at most `|speed|*dt`; building raises it by at most `speed*dt` |
| Editor.DeltaBounds | Source/TerrainDestruct/Generation/MarchingCubeGen.cpp:405-408 | the delta of a touched voxel lies between 0 and `speed*dt`, on the side of the speed's sign |
| Editor.ScaledDelta | Source/TerrainDestruct/Generation/MarchingCubeGen.cpp:408 | `falloff*speed*dt` lies between 0 and `speed*dt` |
| Editor.BrushedBeforeStart | Source/TerrainDestruct/Generation/MarchingCubeGen.cpp:383-391 | before the loops nothing has been brushed |
| Editor.BrushedBeforeStep | Source/TerrainDestruct/Generation/MarchingCubeGen.cpp:397-416 | one voxel of the box: brushed if touched, skipped otherwise |
| Editor.BrushedBeforeRow | Source/TerrainDestruct/Generation/MarchingCubeGen.cpp:395 | the end of the Z loop is the start of the next row |
| Editor.BrushedBeforeSlice | Source/TerrainDestruct/Generation/MarchingCubeGen.cpp:393 | the end of the Y loop is the start of the next slice |
| Editor.BrushedBeforeDone | Source/TerrainDestruct/Generation/MarchingCubeGen.cpp:391-419 | after the three loops the map is the brushed map |
| Persistence.FormatNat | Source/TerrainDestruct/Generation/MarchingCubeGen.cpp:484-485 | `%d` of a natural is a nonempty digit string, one digit iff below 10 |
| Persistence.PadDigits | Source/TerrainDestruct/Generation/MarchingCubeGen.cpp:484-485 | the six fraction digits of `%f` are exactly six digits |
| Persistence.FormatNatValue | Source/TerrainDestruct/Generation/MarchingCubeGen.cpp:484-485 | the printed digits read back as the number |
| Persistence.PadDigitsValue | Source/TerrainDestruct/Generation/MarchingCubeGen.cpp:484-485 | zero-padded digits read back as the number modulo `10^w` |
| Persistence.FormatInt | Source/TerrainDestruct/Generation/MarchingCubeGen.cpp:484 | `%d` is an optional minus followed by digits |
| Persistence.RoundNat | Source/TerrainDestruct/Generation/MarchingCubeGen.cpp:484-485 | rounding a non-negative real lands within one half of it |
| Persistence.Round6 | Source/TerrainDestruct/Generation/MarchingCubeGen.cpp:484-485 | the value `%f` prints is within half a millionth of the float |
| Persistence.EnumeratingStep | Source/TerrainDestruct/Generation/MarchingCubeGen.cpp:482 | iterating the map visits each key once |
| Persistence.SaveTextSnoc | Source/TerrainDestruct/Generation/MarchingCubeGen.cpp:482-486 | each visited entry appends its own `x,y,z,v\n` line |
| Persistence.LeadingDigits | Source/TerrainDestruct/Generation/MarchingCubeGen.cpp:532-534 | Atoi reads the longest run of digits at the front of the field |
| Persistence.LeadingDigitsOf | Source/TerrainDestruct/Generation/MarchingCubeGen.cpp:532-534 | the run stops at the first non-digit |
| Persistence.ParseFormatInt | Source/TerrainDestruct/Generation/MarchingCubeGen.cpp:532-534 | Atoi of a `%d` field gives back the integer |
| Persistence.ParseFormatFixed | Source/TerrainDestruct/Generation/MarchingCubeGen.cpp:536 | Atof of a `%f` field gives the value rounded to six decimals |
| Persistence.ParseUnsigned | Source/TerrainDestruct/Generation/MarchingCubeGen.cpp:536 | Atof of an unsigned numeral is its magnitude |
| Persistence.ParseNegative | Source/TerrainDestruct/Generation/MarchingCubeGen.cpp:536 | Atof of `-t` is minus the magnitude of t |
| Persistence.MagnitudeOf | Source/TerrainDestruct/Generation/MarchingCubeGen.cpp:536 | the value of `a.b` is `a + b/10^len(b)` |
| Persistence.FractionOf | Source/TerrainDestruct/Generation/MarchingCubeGen.cpp:536 | the value of the fraction `.b` is `b/10^len(b)` |
| Persistence.FirstDelim | Source/TerrainDestruct/Generation/MarchingCubeGen.cpp:527 | the first delimiter position, with no delimiter before it |
| Persistence.Tokens | Source/TerrainDestruct/Generation/MarchingCubeGen.cpp:520-527 | splitting with empty parts culled yields only nonempty parts |
| Persistence.TokensCons | Source/TerrainDestruct/Generation/MarchingCubeGen.cpp:527 | a field followed by a delimiter splits off as the first part |
| Persistence.TokensLast | Source/TerrainDestruct/Generation/MarchingCubeGen.cpp:527 | a delimiter-free field is a single part |
| Persistence.FirstDelimOf | Source/TerrainDestruct/Generation/MarchingCubeGen.cpp:527 | the first delimiter after a delimiter-free field is at its end |
| Persistence.ApplyLine | Source/TerrainDestruct/Generation/MarchingCubeGen.cpp:526-539 | a line without exactly four comma fields leaves the map unchanged |
| Persistence.IntChars | Source/TerrainDestruct/Generation/MarchingCubeGen.cpp:484 | `%d` output uses only digits and minus |
| Persistence.FixedChars | Source/TerrainDestruct/Generation/MarchingCubeGen.cpp:484-485 | `%f` output is nonempty and uses only digits, minus and point |
| Persistence.NumberAvoidsComma | Source/TerrainDestruct/Generation/MarchingCubeGen.cpp:484 | a printed number contains no comma |
| Persistence.NumberAvoidsLineEnds | Source/TerrainDestruct/Generation/MarchingCubeGen.cpp:484 | a printed number contains no line break |
| Persistence.TokensJoin | Source/TerrainDestruct/Generation/MarchingCubeGen.cpp:527 | splitting a join of delimiter-free fields gives the fields back |
| Persistence.JoinAvoids | Source/TerrainDestruct/Generation/MarchingCubeGen.cpp:484 | a join of fields without line breaks has no line break |
| Persistence.RecordFields | Source/TerrainDestruct/Generation/MarchingCubeGen.cpp:484-485 | a saved line splits into exactly its four printed fields |
| Persistence.RecordChars | Source/TerrainDestruct/Generation/MarchingCubeGen.cpp:484-485 | the four printed fields are nonempty numerals |
| Persistence.ParseRecord | Source/TerrainDestruct/Generation/MarchingCubeGen.cpp:528-539 | loading a saved line stores the rounded value under its key and overwrites an existing one |
| Persistence.RecordAvoidsLineEnds | Source/TerrainDestruct/Generation/MarchingCubeGen.cpp:484 | a saved line body has no line break |
| Persistence.RecordBodies | Source/TerrainDestruct/Generation/MarchingCubeGen.cpp:482-486 | one line body per saved entry |
| Persistence.SaveTextLines | Source/TerrainDestruct/Generation/MarchingCubeGen.cpp:520 | splitting the saved text into lines gives exactly one line per map entry, in order |
| Persistence.Overwritten | Source/TerrainDestruct/Generation/MarchingCubeGen.cpp:539 | the result of `Add` over a run of entries: their keys take the rounded values and other keys stay |
| Persistence.OverwrittenCons | Source/TerrainDestruct/Generation/MarchingCubeGen.cpp:539 | `Add` of the first entry, then the rest |
| Persistence.ApplySavedLines | Source/TerrainDestruct/Generation/MarchingCubeGen.cpp:523-540 | loading the saved lines applies `Add` for each entry |
| Persistence.SaveLoadRoundTrip | Source/TerrainDestruct/Generation/MarchingCubeGen.cpp:482-539 | loading saved text onto a map: the key set is the union, saved keys take their values rounded to six decimals, other keys stay |
| Persistence.SaveLoadFresh | Source/TerrainDestruct/Generation/MarchingCubeGen.cpp:482-539 | loading saved text into an empty map restores exactly the saved keys, each value to six decimals |
| Persistence.FileNameDecodes | Source/TerrainDestruct/Generation/MarchingCubeGen.cpp:471-472 | splitting `Chunk_x_y_z.sav` at `_` and reading the three numbers gives back the chunk coordinate |
| Persistence.NumberAvoidsUnderscore | Source/TerrainDestruct/Generation/MarchingCubeGen.cpp:471-472 | a printed coordinate contains no underscore |
| Persistence.FilePathInjective | Source/TerrainDestruct/Generation/MarchingCubeGen.cpp:507-508 | distinct chunks never share a save file |
| ChunkActor.ComputeVertexMask | Source/TerrainDestruct/Generation/MarchingCubeGen.cpp:185-194 | the corner loop computes the corner mask |
| ChunkActor.ComputeEdgeVertices | Source/TerrainDestruct/Generation/MarchingCubeGen.cpp:201-211 | each flagged edge gets its interpolated crossing point |
| ChunkActor.Chunk.constructor | Source/TerrainDestruct/Generation/GenerateTerrain.cpp:104-114 | a deferred-spawned chunk with the spawner's settings, an empty grid, no edits and empty buffers |
| ChunkActor.Chunk.Setup | Source/TerrainDestruct/Generation/MarchingCubeGen.cpp:110-114 | the grid gets length `(size+1)^3`, keeping old entries and zero-filling new ones |
| ChunkActor.Chunk.GenerateHeightMap | Source/TerrainDestruct/MarchingCubeGen.cpp:96-112 | every grid point holds `noise(x+pos.X, y+pos.Y, z+pos.Z)` at the chunk's frequency |
| ChunkActor.Chunk.GetVoxelDensityWithModif | Source/TerrainDestruct/MarchingCubeGen.cpp:303-315 | base plus delta when the key has a delta, base otherwise |
| ChunkActor.Chunk.GatherCube | Source/TerrainDestruct/Generation/MarchingCubeGen.cpp:165-172 | the 8 corners are the effective densities at the cell's corner offsets |
| ChunkActor.Chunk.March | Source/TerrainDestruct/Generation/MarchingCubeGen.cpp:182-244 | the buffer gains exactly the cell's marching-cubes triangles, in table order and with the current winding |
| ChunkActor.Chunk.EmitRow | Source/TerrainDestruct/Generation/MarchingCubeGen.cpp:214-243 | the triangle loop emits the row's triangles in order |
| ChunkActor.Chunk.EmitTableTriangle | Source/TerrainDestruct/Generation/MarchingCubeGen.cpp:219-242 | one table triangle is emitted with its normal and colour |
| ChunkActor.Chunk.MarchCell | Source/TerrainDestruct/Generation/MarchingCubeGen.cpp:165-175 | gathering the corners and marching one cell emits that cell's triangles |
| ChunkActor.Chunk.EmitTriangle | Source/TerrainDestruct/Generation/MarchingCubeGen.cpp:232-242 | three vertices, three indices in winding order, three normals and three colours; `VertexCount += 3` |
| ChunkActor.Chunk.MarchColumn | Source/TerrainDestruct/Generation/MarchingCubeGen.cpp:162-177 | the Z loop emits the column's triangles |
| ChunkActor.Chunk.MarchColumnCell | Source/TerrainDestruct/Generation/MarchingCubeGen.cpp:164-175 | one round of the Z loop |
| ChunkActor.Chunk.MarchSlice | Source/TerrainDestruct/Generation/MarchingCubeGen.cpp:160-177 | the Y loop emits the slice's triangles |
| ChunkActor.Chunk.GenerateMesh | Source/TerrainDestruct/Generation/MarchingCubeGen.cpp:138-179 | `TriangleOrder` set from the surface level, then the buffer gains the triangles of Z range `[zStart, zEnd)` in loop order |
| ChunkActor.Chunk.MarchBlock | Source/TerrainDestruct/Generation/MarchingCubeGen.cpp:158-178 | the X loop emits the section's triangles |
| ChunkActor.Chunk.AppendSection | Source/TerrainDestruct/Generation/MarchingCubeGen.cpp:84-97 | one section's arrays appended, its indices offset by the vertices already merged |
| ChunkActor.Chunk.MergeSections | Source/TerrainDestruct/Generation/MarchingCubeGen.cpp:78-101 | `meshData` becomes the in-order merge of the sections and `vertexCount` its vertex count |
| ChunkActor.Chunk.ApplyMesh | Source/TerrainDestruct/Generation/MarchingCubeGen.cpp:267-355 | the rendered section is a weld of `meshData` (vertices numbered in first-occurrence order of their keys), which `WeldUnique` shows is the only one; it has no more triangles than `meshData` |
| ChunkActor.Chunk.GenerateSections | Source/TerrainDestruct/Generation/MarchingCubeGen.cpp:59-72 | each section generated from a reset buffer over its own Z range; `TriangleOrder` is the winding of the surface level |
| ChunkActor.Chunk.GenerateSection | Source/TerrainDestruct/Generation/MarchingCubeGen.cpp:61-70 | the task of section s: a reset buffer filled by `GenerateMesh` over `[s*size/count, (s+1)*size/count)`; `TriangleOrder` is the winding of the surface level |
| ChunkActor.Chunk.Polygonize | Source/TerrainDestruct/Generation/MarchingCubeGen.cpp:55-105 | `Max(1, cores/2)` sections generated and merged in order; well indexed with empty UV0; vertex count tracked; the weld rendered |
| ChunkActor.Chunk.MergeAndWeld | Source/TerrainDestruct/Generation/MarchingCubeGen.cpp:74-105 | `meshData` becomes the in-order merge of the sections, `vertexCount` its vertex count, and the rendered section its weld |
| ChunkActor.Chunk.BeginPlay | Source/TerrainDestruct/Generation/MarchingCubeGen.cpp:33-107 | grid allocated and sampled; `Max(1, cores/2)` sections generated and merged in order; well indexed with empty UV0; vertex count tracked; `TriangleOrder` is the winding of the surface level; the weld rendered; all of it together as `Generated` |
| ChunkActor.Chunk.ApplyBrush | Source/TerrainDestruct/Generation/MarchingCubeGen.cpp:383-419 | the three brush loops produce the brushed map |
| ChunkActor.Chunk.BrushVoxel | Source/TerrainDestruct/Generation/MarchingCubeGen.cpp:397-416 | one voxel of the brush box |
| ChunkActor.Chunk.SaveModifications | Source/TerrainDestruct/Generation/MarchingCubeGen.cpp:450-491 | nothing is saved when the map is empty; otherwise one line per entry goes to this chunk's file, and loading it restores the map to six decimals |
| ChunkActor.Chunk.LoadModifications | Source/TerrainDestruct/Generation/MarchingCubeGen.cpp:494-541 | a missing file changes nothing; otherwise the file's lines are applied in order |
| ChunkActor.Chunk.Remesh | Source/TerrainDestruct/Generation/MarchingCubeGen.cpp:425-446 | `meshData` is replaced by one whole-chunk `GenerateMesh(0, size)` result, with its vertex count, then welded; `TriangleOrder` is the winding of the surface level |
| ChunkActor.Chunk.RefillBuffers | Source/TerrainDestruct/Generation/MarchingCubeGen.cpp:425-443 | the buffers hold the whole-chunk mesh, well indexed; `TriangleOrder` is the winding of the surface level |
| ChunkActor.Chunk.GenerateWhole | Source/TerrainDestruct/Generation/MarchingCubeGen.cpp:427-430 | a reset buffer filled by `GenerateMesh(0, size)`; `TriangleOrder` is the winding of the surface level |
| ChunkActor.Chunk.TakeSection | Source/TerrainDestruct/Generation/MarchingCubeGen.cpp:436-443 | `Clear`, then the section's four arrays moved into `meshData` with empty UV0; the section's vertex count goes into the chunk's `vertexCount` |
| ChunkActor.Chunk.ModifyVoxel | Source/TerrainDestruct/Generation/MarchingCubeGen.cpp:377-447 | brush edit of the delta map, save of the new map (nothing when empty, else this chunk's file, which loads back to six decimals), whole-chunk remesh and weld; `TriangleOrder` is the winding of the surface level |
| Streamer.TrackedEmpty | Source/TerrainDestruct/GenerateTerrain.h:31-36 | an empty map and queue satisfy the reservation invariant |
| Streamer.TrackedReserve | Source/TerrainDestruct/Generation/GenerateTerrain.cpp:72-76 | enqueuing an absent coordinate together with its null placeholder keeps the invariant |
| Streamer.TrackedDequeue | Source/TerrainDestruct/Generation/GenerateTerrain.cpp:31-33 | dequeuing the head and spawning its chunk at the head's position keeps the invariant |
| Streamer.SavedEdits | Source/TerrainDestruct/Generation/GenerateTerrain.cpp:115 | a chunk without a save file starts with no edits |
| Streamer.Budget | Source/TerrainDestruct/Generation/GenerateTerrain.cpp:29 | the spawn loop runs `min(ChunkLoadPerFrame, queue length)` times, and never for a non-positive budget |
| Streamer.Unloaded | Source/TerrainDestruct/Generation/GenerateTerrain.cpp:40-47 | only spawned chunks beyond the unload distance are removed; placeholders and all other entries stay with their values |
| Streamer.TrackedUnload | Source/TerrainDestruct/Generation/GenerateTerrain.cpp:40-47 | unloading keeps the reservation invariant |
| Streamer.UnloadedStep | Source/TerrainDestruct/Generation/GenerateTerrain.cpp:42-46 | one iterator step: the entry is removed iff far |
| Streamer.UnloadedDone | Source/TerrainDestruct/Generation/GenerateTerrain.cpp:40-47 | after every key is visited, the map is the unloaded map |
| Streamer.ReservedBeforeStart | Source/TerrainDestruct/Generation/GenerateTerrain.cpp:59-62 | before the loops nothing is reserved |
| Streamer.ReservedBeforeStep | Source/TerrainDestruct/Generation/GenerateTerrain.cpp:69-76 | one coordinate: reserved and queued if absent, left alone if present |
| Streamer.ReservedBeforeRow | Source/TerrainDestruct/Generation/GenerateTerrain.cpp:66 | the end of the Z loop is the start of the next row |
| Streamer.ReservedBeforeSlice | Source/TerrainDestruct/Generation/GenerateTerrain.cpp:64 | the end of the Y loop is the start of the next slice |
| Streamer.ReservedBeforeDone | Source/TerrainDestruct/Generation/GenerateTerrain.cpp:62-79 | after the loops `Reserved` holds: every chunk of the draw box is a key and only those were added, as placeholders; old entries keep their values; the old queue is a prefix, and each newly queued coordinate was absent, lies in the box and is queued in loop order |
| Streamer.GenerateTerrain.constructor | Source/TerrainDestruct/GenerateTerrain.h:18-36 | a streamer with its editable settings and empty map and queue |
| Streamer.GenerateTerrain.Defaults | Source/TerrainDestruct/GenerateTerrain.h:19-34 | drawDistance 5, frequency 0.03, size 32, ChunkLoadPerFrame 4 |
| Streamer.GenerateTerrain.GetPlayerChunk | Source/TerrainDestruct/GenerateTerrain.cpp:71-78 | the chunk whose cube contains the player |
| Streamer.GenerateTerrain.SpawnChunkAt | Source/TerrainDestruct/Generation/GenerateTerrain.cpp:97-120 | the chunk sits at `coords*size*100`, carries frequency, material and size (the surface level only in the Generation copy), loads its own file before `BeginPlay`, and replaces exactly the entry at coords with a fresh chunk; the chunk has run `BeginPlay`: its grid is sampled, `TriangleOrder` is the winding of its level, and its merged sections and their weld are on screen (`SpawnedAt`, with `Generated`) |
| Streamer.GenerateTerrain.LoadNext | Source/TerrainDestruct/GenerateTerrain.cpp:27-29 | the queue head is dequeued and its placeholder replaced by a fresh chunk spawned there (`SpawnedAt`: place, settings, saved edits, generated); the chunks spawned earlier in the loop keep theirs; other entries are unchanged; the invariant holds |
| Streamer.GenerateTerrain.LoadPending | Source/TerrainDestruct/Generation/GenerateTerrain.cpp:29-34 | the first `min(ChunkLoadPerFrame, queue length)` coordinates are dequeued in FIFO order and each is spawned as a fresh chunk with its place, settings, saved edits and generated mesh (`SpawnedAt`); keys and other entries are unchanged |
| Streamer.GenerateTerrain.UnloadFarChunks | Source/TerrainDestruct/GenerateTerrain.cpp:34-41 | the iterator loop leaves exactly the unloaded map |
| Streamer.GenerateTerrain.Reserve | Source/TerrainDestruct/GenerateTerrain.cpp:60-64 | an absent coordinate is queued and reserved in the same step; a present one changes nothing |
| Streamer.GenerateTerrain.GenerateWorld | Source/TerrainDestruct/Generation/GenerateTerrain.cpp:56-80 | `Reserved`: the whole draw box around the player's chunk becomes known and no other key is added; existing entries are untouched; new keys are null; the old queue is a prefix, and each new entry was absent, lies in the box and is queued in loop order; the invariant (no coordinate queued twice) holds |
| Streamer.GenerateTerrain.ReserveSlice | Source/TerrainDestruct/Generation/GenerateTerrain.cpp:64-78 | the Y loop of one slice |
| Streamer.GenerateTerrain.ReserveRow | Source/TerrainDestruct/Generation/GenerateTerrain.cpp:66-77 | the Z loop of one row |
| Streamer.GenerateTerrain.ReserveCell | Source/TerrainDestruct/Generation/GenerateTerrain.cpp:69-76 | one round of the Z loop, keeping both invariants |
| Streamer.GenerateTerrain.BeginPlay | Source/TerrainDestruct/Generation/GenerateTerrain.cpp:14-20 | the first `GenerateWorld` round, with its whole effect (`Reserved`) and the invariant |
| Streamer.GenerateTerrain.Tick | Source/TerrainDestruct/Generation/GenerateTerrain.cpp:24-51 | the whole new state: the spawn loop's result (`SpawnedUpTo` for the budget, each spawned chunk fresh and `SpawnedAt` its coordinate), unloaded, then reserved around the player. Hence: the first `min(ChunkLoadPerFrame, queue length)` coordinates leave the queue in FIFO order and the rest of the old queue heads the new one; newly queued coordinates lie in the draw box; every chunk of the draw box is known; no spawned chunk beyond the unload distance is left; every chunk spawned before the tick that is not far keeps its entry; the invariant holds |
| Streamer.GenerateTerrain.UnloadAndReserve | Source/TerrainDestruct/Generation/GenerateTerrain.cpp:39-50 | the new state is `GenerateWorld` applied to the unloaded map and the same queue (`Reserved`); no spawned chunk beyond the unload distance is left; every entry that was not far keeps its value; the invariant holds |
| Streamer.UnloadedThenReserved | Source/TerrainDestruct/Generation/GenerateTerrain.cpp:39-50 | after unloading and reserving, no far spawned chunk is left and every entry that was not far keeps its value |
| Streamer.SpawnedKeepsChunks | Source/TerrainDestruct/Generation/GenerateTerrain.cpp:29-34 | the spawn loop replaces placeholders only, so every chunk spawned before it keeps its entry |
| Streamer.BudgetLeft | Source/TerrainDestruct/Generation/GenerateTerrain.cpp:29 | another round of the spawn loop stays within `min(ChunkLoadPerFrame, queue length)` |
| Streamer.BudgetUsed | Source/TerrainDestruct/Generation/GenerateTerrain.cpp:29 | the spawn loop stops exactly at `min(ChunkLoadPerFrame, queue length)` |
| Streamer.SpawnedNone | Source/TerrainDestruct/Generation/GenerateTerrain.cpp:29 | before the spawn loop nothing has been spawned |
| Streamer.SpawnedStep | Source/TerrainDestruct/Generation/GenerateTerrain.cpp:31-33 | one more dequeued coordinate spawned, every other entry kept |
| Geometry.ChunkOrigin | Source/TerrainDestruct/Generation/GenerateTerrain.cpp:100 | the spawn position `coords*size*100` per axis; `ChunkCoordOfOrigin` and `ChunkOriginInjective` state its properties |
| Polygonizer.CornerMask | Source/TerrainDestruct/Generation/MarchingCubeGen.cpp:185-194 | `VertexMask` after the first n corners; `CornerMaskBits` states that bit i is set iff corner i is at or below the level |
| Polygonizer.EdgePoint | Source/TerrainDestruct/Generation/MarchingCubeGen.cpp:206-209 | the crossing point of one edge: the cell position plus the edge's first corner offset, plus the interpolation offset along the edge direction, in voxel units |
| Polygonizer.EdgeVertices | Source/TerrainDestruct/Generation/MarchingCubeGen.cpp:201-211 | `EdgeVertex` after the edge loop: the crossing point on each flagged edge; `ComputeEdgeVertices` is proved against it |
| Polygonizer.MakeTri | Source/TerrainDestruct/Generation/MarchingCubeGen.cpp:219-229 | triangle k of a table row: its three edge points scaled by 100, with its normal and colour |
| Polygonizer.CellTriangles | Source/TerrainDestruct/Generation/MarchingCubeGen.cpp:182-244 | the triangles `March` emits for one cell: none when the edge mask is 0, else the row's; `March` is proved against it and `CellTrianglesAtMostFive` and `UniformCellEmpty` state its properties |
| Polygonizer.Emit | Source/TerrainDestruct/Generation/MarchingCubeGen.cpp:232-242 | the appends of one triangle; `EmitConsistent` states what it adds |
| Polygonizer.EmitAll | Source/TerrainDestruct/Generation/MarchingCubeGen.cpp:214-243 | the appends of a run of triangles in order; `EmitAllAppend`, `EmitAllConsistent` and `EmitAllNonDegenerate` state its properties |
| Polygonizer.SectionStart | Source/TerrainDestruct/Generation/MarchingCubeGen.cpp:61 | `zStart = s*size/sectionCount`; `SectionsTile` and `SectionStartMonotone` state its properties |
| Polygonizer.SectionEnd | Source/TerrainDestruct/Generation/MarchingCubeGen.cpp:62 | `zEnd = (s+1)*size/sectionCount`; `SectionsTile`, `SectionContaining` and `SectionUnique` state its properties |
| Assembler.Merged | Source/TerrainDestruct/Generation/MarchingCubeGen.cpp:78-101 | the merge loop's result: sections appended in order, each one's indices offset by the vertices already merged; `MergedWellIndexed` and `MergedSingle` state its properties and `MergeSections` is proved against it |
| Assembler.Quantize | Source/TerrainDestruct/Generation/MarchingCubeGen.cpp:282-289 | the weld key: each coordinate over 0.001, rounded; `QuantizeClose` states that one key's vertices are within the precision |
| Persistence.FormatFixed | Source/TerrainDestruct/Generation/MarchingCubeGen.cpp:484 | `%f`: sign, integer part, point and six digits; `FixedChars` and `ParseFormatFixed` state its properties |
| Persistence.RecordLine | Source/TerrainDestruct/Generation/MarchingCubeGen.cpp:484-485 | one saved line `x,y,z,v` and a line break; `RecordFields` and `ParseRecord` state its properties |
| Persistence.SaveText | Source/TerrainDestruct/Generation/MarchingCubeGen.cpp:480-486 | `SaveData`: the lines of the keys in iteration order; `SaveTextSnoc` and `SaveLoadRoundTrip` state its properties |
| Persistence.ParseInt | Source/TerrainDestruct/Generation/MarchingCubeGen.cpp:532-534 | `FCString::Atoi`: optional sign, then the leading digits; `ParseFormatInt` states that it reads back `%d` |
| Persistence.ParseDecimal | Source/TerrainDestruct/Generation/MarchingCubeGen.cpp:536 | `FCString::Atof` on decimal notation; `ParseFormatFixed` states that it reads back `%f` to six decimals |
| Persistence.LoadText | Source/TerrainDestruct/Generation/MarchingCubeGen.cpp:519-540 | the load loop: lines split with empty ones culled, each applied in order; `SaveLoadRoundTrip` and `SaveLoadFresh` state its properties and `LoadModifications` is proved against it |
| Persistence.FileName | Source/TerrainDestruct/Generation/MarchingCubeGen.cpp:471-472 | `Chunk_%d_%d_%d.sav`; `FileNameDecodes` states that it determines the coordinate |
| Persistence.FilePath | Source/TerrainDestruct/Generation/MarchingCubeGen.cpp:471-472 | the file name under the save directory; `FilePathInjective` states that distinct chunks get distinct paths |
| Streamer.Far | Source/TerrainDestruct/Generation/GenerateTerrain.cpp:42 | the unload test: a spawned chunk farther from the player than the threshold |
| Streamer.Reserved | Source/TerrainDestruct/Generation/GenerateTerrain.cpp:56-80 | the effect of `GenerateWorld` on a map and queue; `GenerateWorld`, `BeginPlay`, `UnloadAndReserve` and `Tick` state their results with it |
| Streamer.GenerateTerrain.UnloadDistance | Source/TerrainDestruct/Generation/GenerateTerrain.cpp:42 | `drawDistance*size*100` in world units |
| Streamer.GenerateTerrain.ChunkSurfaceLevel | Source/TerrainDestruct/Generation/GenerateTerrain.cpp:114 | the level a spawned chunk gets: the streamer's in the Generation copy, the chunk's default in the root copy |

## Left out

- Async plumbing. `Async`, `AsyncTask`, futures and the thread-pool and game-thread hops run one after another, and sections merge in index order. Parallel sections all write the shared `TriangleOrder` member. That race is not modelled: each section writes the same value.
- Merge order. The merge loop collects `futures[i].Get()` in index order (Source/TerrainDestruct/Generation/MarchingCubeGen.cpp:82-84), so the order in which the sections finish cannot change the merged mesh; the model merges them in index order.
- Floating point. Floats are exact reals; rounding of float arithmetic and 32-bit integer overflow are not modelled.
- `%f` is modelled as the value rounded to the nearest millionth (ties up). The exact digits the C runtime prints for a given float are not modelled.
- `FCString::Atoi` and `Atof` are modelled by their effect on the strings this program writes: an optional sign, digits, and for `Atof` a fraction. Leading whitespace, exponents and overflow are not modelled.
- FastNoiseLite. Its configuration (`SetFrequency`, Perlin, FBm) and its sampling are an uninterpreted noise function of position and frequency.
- Normals and colours. `FVector::CrossProduct`, `Normalize` with its up-vector fallback, and `FColor::MakeRandomColor` are parameters (`Shading`, `normalize`). The random colour is a function of the triangle, so two runs give the same colour.
- Distances. `FVector::Dist` is any non-negative metric.
- Vertex keys. `RoundToInt` quantization is modelled with exact reals.
- The Unreal actor and mesh machinery is not modelled:
  - the chunk and streamer constructors and the chunk destructor;
  - the creation and allocation of the mesh component and the noise object, and `SetCastShadow`;
  - `SetMaterial` and `CreateMeshSection`: the welded arrays handed to it are the model's `section`;
  - `Destroy` on unloaded chunks: the entry is removed from the map;
  - `GetFirstPlayerController` and `GetWorld`: the player position and frame time are parameters.
- The file system is a map from path to text; `FPaths::FileExists` is membership in it. `MakeDirectory`, the asynchronous write and `FFileHelper` failures are not modelled. `SaveModifications` returns the path and text it would write.
- `MarchingCubeGen.h` is not part of this model. The lookup tables are a parameter of the subset type `ShapedTables`, which fixes only their shape (`Tables.WellFormed`); the surface level of a chunk whose spawner does not set one is `DefaultSurfaceLevel`, taken as 0.0.
- Uninitialised `EdgeVertex` entries, for edges that are not flagged, are modelled as the origin. The standard tables never select them; `Tables.WellFormed` does not require it, so with other tables the model reads the origin where the source reads an uninitialised value.
- `TriangleOrder` is 0,1,2 iff `surfaceLevel > 0`, as the code tests; a level of exactly 0 gives 2,1,0.
- Grid products are written with a recursive `Times`, and closed forms are exposed through lemmas (`GridLengthCube`, `GetVoxelIndexFormula`). This keeps nonlinear arithmetic out of the proofs.
- ChunkActor.Chunk.TakeSection stores the section's vertex count in the chunk's one `vertexCount` field. The source writes `meshData.VertexCount` (Source/TerrainDestruct/Generation/MarchingCubeGen.cpp:443), a field that `FMeshData` in Source/TerrainDestruct/MeshData.h does not declare, so the model uses one field for both counts.
- ChunkActor.Chunk.Remesh, for the same reason, states the new vertex count on the chunk's `vertexCount`.
- ChunkActor.Chunk.ModifyVoxel, for the same reason, states the new vertex count on the chunk's `vertexCount`.
- ChunkActor.Chunk.GenerateMesh requires `zStart <= zEnd` where the source accepts a reversed range that emits nothing; the model's callers only use ordered section bounds.
- ChunkActor.Chunk.MarchColumn, ChunkActor.Chunk.MarchSlice and ChunkActor.Chunk.MarchBlock require `zStart <= zEnd` for the same reason.
- Streamer.GenerateTerrain.GenerateWorld runs its loops over chunk coordinates, PlayerChunk plus the offset, rather than over the offsets; the order and the coordinates visited are the same. When `drawDistance` is negative, the source's loops run zero times; the model skips them with an explicit test.
- Streamer.GenerateTerrain.constructor requires a positive `size` and well-formed tables; the source accepts any editor value, and a `size` of 0 would divide by zero in `GetPlayerChunk`.
- Streamer.GenerateTerrain.Defaults requires well-formed tables, for the same reason.
- Streamer.GenerateTerrain.SpawnChunkAt requires the coordinate to be a key, as `TMap::operator[]` does. The reservation invariant shows this always holds for a dequeued coordinate.
- `PlayerCharacter.cpp` and `PlayerCharacter.h` (input, camera, line trace and the edit throttle) are not part of this model.
