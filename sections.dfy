/**
 * Why the number of sections does not change what is rendered. Cutting the
 * Z range of the grid into Max(1, cores / 2) sections only regroups the
 * cells: the merged mesh names the corners of the same triangles, in another
 * order. The weld of ApplyMesh keeps one vertex per distinct corner key and
 * one triangle per triplet of three distinct keys, so its vertex and index
 * counts are those of the whole grid whatever the section count.
 */
module SectionSplit {
  import opened Geometry
  import opened MeshBuffers
  import opened Polygonizer
  import opened Assembler
  import opened ChunkActor

  // The cells of a Z range, regrouped

  /** The cells of any grid, given as a function from a cell to its triangles. */
  type Cells = (int, int, int) -> seq<Tri>

  /** Cells (x, y, z0) .. (x, y, z - 1), in the order of the Z loop. */
  function ColumnOf(cell: Cells, x: int, y: int, z0: int, z: int): seq<Tri>
    decreases z - z0
  {
    if z <= z0 then [] else ColumnOf(cell, x, y, z0, z - 1) + cell(x, y, z - 1)
  }

  /** Columns (x, 0) .. (x, y - 1), in the order of the Y loop. */
  function SliceOf(cell: Cells, x: int, y: nat, z0: int, z1: int): seq<Tri>
    decreases y
  {
    if y == 0 then [] else SliceOf(cell, x, y - 1, z0, z1) + ColumnOf(cell, x, y - 1, z0, z1)
  }

  /** Slices 0 .. x - 1 of n columns each, in the order of the X loop. */
  function BlockOf(cell: Cells, n: nat, x: nat, z0: int, z1: int): seq<Tri>
    decreases x
  {
    if x == 0 then [] else BlockOf(cell, n, x - 1, z0, z1) + SliceOf(cell, x - 1, n, z0, z1)
  }

  /** How often t occurs in a list of triangles. */
  function Count(s: seq<Tri>, t: Tri): (n: nat)
    ensures n <= |s|
  {
    if s == [] then 0 else Count(s[..|s| - 1], t) + if s[|s| - 1] == t then 1 else 0
  }

  lemma {:induction false} CountAppend(a: seq<Tri>, b: seq<Tri>, t: Tri)
    ensures Count(a + b, t) == Count(a, t) + Count(b, t)
    decreases |b|
  {
    if b == [] {
      assert a + b == a;
    } else {
      assert (a + b)[..|a + b| - 1] == a + b[..|b| - 1];
      CountAppend(a, b[..|b| - 1], t);
    }
  }

  /** Count is the multiplicity in the list's multiset. */
  lemma {:induction false} CountIsMultiplicity(s: seq<Tri>, t: Tri)
    ensures Count(s, t) == multiset(s)[t]
    decreases |s|
  {
    if s != [] {
      var init := s[..|s| - 1];
      CountIsMultiplicity(init, t);
      assert s == init + [s[|s| - 1]];
      assert multiset(s) == multiset(init) + multiset{s[|s| - 1]};
    }
  }

  /** Column (x, y) over [z0, z2) is the column over [z0, z1) followed by the column over [z1, z2). */
  lemma {:induction false} ColumnSplit(cell: Cells, x: int, y: int, z0: int, z1: int, z2: int)
    requires z0 <= z1 <= z2
    ensures ColumnOf(cell, x, y, z0, z1) + ColumnOf(cell, x, y, z1, z2) == ColumnOf(cell, x, y, z0, z2)
    decreases z2 - z1
  {
    if z1 < z2 {
      ColumnSplit(cell, x, y, z0, z1, z2 - 1);
    }
  }

  /** Extending both halves of a split and the whole by matching tails keeps the counts adding up. */
  lemma CountStep(lower: seq<Tri>, upper: seq<Tri>, whole: seq<Tri>, tailLower: seq<Tri>, tailUpper: seq<Tri>, tailWhole: seq<Tri>, t: Tri)
    requires Count(tailLower, t) + Count(tailUpper, t) == Count(tailWhole, t)
    requires Count(lower, t) + Count(upper, t) == Count(whole, t)
    ensures Count(lower + tailLower, t) + Count(upper + tailUpper, t) == Count(whole + tailWhole, t)
  {
    CountAppend(lower, tailLower, t);
    CountAppend(upper, tailUpper, t);
    CountAppend(whole, tailWhole, t);
  }

  /** The columns of a slice over [z0, z2) hold each triangle as often as those over [z0, z1) and [z1, z2) together. */
  lemma {:induction false} SliceSplit(cell: Cells, x: int, y: nat, z0: int, z1: int, z2: int, t: Tri)
    requires z0 <= z1 <= z2
    ensures Count(SliceOf(cell, x, y, z0, z1), t) + Count(SliceOf(cell, x, y, z1, z2), t)
         == Count(SliceOf(cell, x, y, z0, z2), t)
    decreases y
  {
    if y > 0 {
      SliceSplit(cell, x, y - 1, z0, z1, z2, t);
      ColumnSplit(cell, x, y - 1, z0, z1, z2);
      CountAppend(ColumnOf(cell, x, y - 1, z0, z1), ColumnOf(cell, x, y - 1, z1, z2), t);
      CountStep(SliceOf(cell, x, y - 1, z0, z1), SliceOf(cell, x, y - 1, z1, z2), SliceOf(cell, x, y - 1, z0, z2),
                ColumnOf(cell, x, y - 1, z0, z1), ColumnOf(cell, x, y - 1, z1, z2), ColumnOf(cell, x, y - 1, z0, z2), t);
    }
  }

  /** The same for the slices of a block. */
  lemma {:induction false} BlockSplit(cell: Cells, n: nat, x: nat, z0: int, z1: int, z2: int, t: Tri)
    requires z0 <= z1 <= z2
    ensures Count(BlockOf(cell, n, x, z0, z1), t) + Count(BlockOf(cell, n, x, z1, z2), t)
         == Count(BlockOf(cell, n, x, z0, z2), t)
    decreases x
  {
    if x > 0 {
      BlockSplit(cell, n, x - 1, z0, z1, z2, t);
      SliceSplit(cell, x - 1, n, z0, z1, z2, t);
      CountStep(BlockOf(cell, n, x - 1, z0, z1), BlockOf(cell, n, x - 1, z1, z2), BlockOf(cell, n, x - 1, z0, z2),
                SliceOf(cell, x - 1, n, z0, z1), SliceOf(cell, x - 1, n, z1, z2), SliceOf(cell, x - 1, n, z0, z2), t);
    }
  }

  /** Lists of triangles, one list after another. */
  function Joined(blocks: seq<seq<Tri>>): seq<Tri>
    decreases |blocks|
  {
    if blocks == [] then [] else Joined(blocks[..|blocks| - 1]) + blocks[|blocks| - 1]
  }

  /**
   * The triangles of each of the `count` sections of a grid of `size` cells
   * per axis: section s holds the cells with Z in [SectionStart(s), SectionEnd(s)),
   * in the order of GenerateMesh's loops.
   */
  function SplitBlocks(cell: Cells, size: nat, count: int): (r: seq<seq<Tri>>)
    requires count >= 1
    ensures |r| == count
  {
    seq(count, s requires 0 <= s < count => BlockOf(cell, size, size, SectionStart(s, size, count), SectionEnd(s, size, count)))
  }

  /** Where block s of a tiling starts: where block s - 1 ends, or 0. */
  function TileStart(ends: seq<int>, s: int): int
    requires 0 <= s < |ends|
  {
    if s == 0 then 0 else ends[s - 1]
  }

  /**
   * Blocks 0 .. k - 1 of a tiling of the Z range, block s covering
   * [TileStart(s), ends[s]), hold each triangle as often as the cells with Z
   * in [0, ends[k - 1]) do.
   */
  lemma {:induction false} TiledCount(cell: Cells, n: nat, blocks: seq<seq<Tri>>, ends: seq<int>, k: int, t: Tri)
    requires |blocks| == |ends| && 1 <= k <= |blocks|
    requires forall s :: 0 <= s < |ends| ==> 0 <= TileStart(ends, s) <= ends[s]
    requires forall s :: 0 <= s < |blocks| ==> blocks[s] == BlockOf(cell, n, n, TileStart(ends, s), ends[s])
    ensures Count(Joined(blocks[..k]), t) == Count(BlockOf(cell, n, n, 0, ends[k - 1]), t)
    decreases k
  {
    assert blocks[..k][..k - 1] == blocks[..k - 1];
    CountAppend(Joined(blocks[..k - 1]), blocks[k - 1], t);
    if k > 1 {
      TiledCount(cell, n, blocks, ends, k - 1, t);
      assert TileStart(ends, k - 1) == ends[k - 2];
      BlockSplit(cell, n, n, 0, ends[k - 2], ends[k - 1], t);
    } else {
      assert blocks[..0] == [];
    }
  }

  /** All the sections together hold the cells of the whole grid, each once. */
  lemma SplitCells(cell: Cells, size: nat, count: int)
    requires count >= 1
    ensures multiset(Joined(SplitBlocks(cell, size, count))) == multiset(BlockOf(cell, size, size, 0, size))
  {
    SectionsTile(size, count);
    var blocks := SplitBlocks(cell, size, count);
    var ends := seq(count, s requires 0 <= s < count => SectionEnd(s, size, count));
    forall s | 0 <= s < count
      ensures 0 <= TileStart(ends, s) == SectionStart(s, size, count) <= ends[s]
    {
      if s > 0 {
        assert SectionEnd(s - 1, size, count) == SectionStart(s, size, count);
      }
    }
    assert blocks[..count] == blocks;
    assert ends[count - 1] == size;
    forall t: Tri
      ensures multiset(Joined(blocks))[t] == multiset(BlockOf(cell, size, size, 0, size))[t]
    {
      TiledCount(cell, size, blocks, ends, count, t);
      CountIsMultiplicity(Joined(blocks), t);
      CountIsMultiplicity(BlockOf(cell, size, size, 0, size), t);
    }
  }

  /** The cells of the marching input, as a function; a cell outside the grid has none. */
  function CellsOf(inp: MarchInput): Cells
    requires inp.Valid()
  {
    (x: int, y: int, z: int) => if inp.InCells(x, y, z) then inp.CellTris(x, y, z) else []
  }

  /** cell agrees with the input on every cell of the grid. */
  ghost predicate AgreesWith(cell: Cells, inp: MarchInput)
    requires inp.Valid()
  {
    forall x, y, z {:trigger inp.CellTris(x, y, z)} :: inp.InCells(x, y, z) ==> cell(x, y, z) == inp.CellTris(x, y, z)
  }

  lemma CellsOfAgrees(inp: MarchInput)
    requires inp.Valid()
    ensures AgreesWith(CellsOf(inp), inp)
  {
  }

  /** Two lists built by appending equal parts are equal. */
  lemma AppendEq(whole: seq<Tri>, front: seq<Tri>, back: seq<Tri>, whole': seq<Tri>, front': seq<Tri>, back': seq<Tri>)
    requires whole == front + back && whole' == front' + back'
    requires front == front' && back == back'
    ensures whole == whole'
  {
  }

  lemma {:induction false} ColumnIs(inp: MarchInput, cell: Cells, x: int, y: int, z0: int, z: int)
    requires inp.Valid() && AgreesWith(cell, inp) && 0 <= x < inp.field.size && 0 <= y < inp.field.size
    requires 0 <= z0 && z <= inp.field.size
    ensures inp.ColumnTris(x, y, z0, z) == ColumnOf(cell, x, y, z0, z)
    decreases z - z0
  {
    if z > z0 {
      ColumnIs(inp, cell, x, y, z0, z - 1);
      AppendEq(inp.ColumnTris(x, y, z0, z), inp.ColumnTris(x, y, z0, z - 1), inp.CellTris(x, y, z - 1),
               ColumnOf(cell, x, y, z0, z), ColumnOf(cell, x, y, z0, z - 1), cell(x, y, z - 1));
    }
  }

  lemma {:induction false} SliceIs(inp: MarchInput, cell: Cells, x: int, y: int, z0: int, z1: int)
    requires inp.Valid() && AgreesWith(cell, inp) && 0 <= x < inp.field.size && 0 <= y <= inp.field.size
    requires 0 <= z0 && z1 <= inp.field.size
    ensures inp.SliceTris(x, y, z0, z1) == SliceOf(cell, x, y, z0, z1)
    decreases y
  {
    if y > 0 {
      SliceIs(inp, cell, x, y - 1, z0, z1);
      ColumnIs(inp, cell, x, y - 1, z0, z1);
      AppendEq(inp.SliceTris(x, y, z0, z1), inp.SliceTris(x, y - 1, z0, z1), inp.ColumnTris(x, y - 1, z0, z1),
               SliceOf(cell, x, y, z0, z1), SliceOf(cell, x, y - 1, z0, z1), ColumnOf(cell, x, y - 1, z0, z1));
    }
  }

  /** The polygonizer's section triangles are the regrouped cells of the input. */
  lemma {:induction false} BlockIs(inp: MarchInput, cell: Cells, x: int, z0: int, z1: int)
    requires inp.Valid() && AgreesWith(cell, inp) && 0 <= x <= inp.field.size
    requires 0 <= z0 && z1 <= inp.field.size
    ensures inp.BlockTris(x, z0, z1) == BlockOf(cell, inp.field.size, x, z0, z1)
    decreases x
  {
    if x > 0 {
      BlockIs(inp, cell, x - 1, z0, z1);
      SliceIs(inp, cell, x - 1, inp.field.size, z0, z1);
      AppendEq(inp.BlockTris(x, z0, z1), inp.BlockTris(x - 1, z0, z1), inp.SliceTris(x - 1, inp.field.size, z0, z1),
               BlockOf(cell, inp.field.size, x, z0, z1), BlockOf(cell, inp.field.size, x - 1, z0, z1), SliceOf(cell, x - 1, inp.field.size, z0, z1));
    }
  }

  // The corners the merged index list names

  /** Corner j of a triangle as March passes it to the buffer: v1, v2, v3. */
  function TriVertex(t: Tri, j: int): Vec {
    if j == 0 then t.v1 else if j == 1 then t.v2 else t.v3
  }

  /** The positions named by the indices emitted for `tris`, wound by `order`. */
  function TriCorners(tris: seq<Tri>, order: seq<int>): (cs: seq<Vec>)
    requires |order| == 3
    ensures |cs| == 3 * |tris|
  {
    if tris == [] then []
    else
      var t := tris[|tris| - 1];
      TriCorners(tris[..|tris| - 1], order) + [TriVertex(t, order[0]), TriVertex(t, order[1]), TriVertex(t, order[2])]
  }

  lemma {:induction false} TriCornersAppend(a: seq<Tri>, b: seq<Tri>, order: seq<int>)
    requires |order| == 3
    ensures TriCorners(a + b, order) == TriCorners(a, order) + TriCorners(b, order)
    decreases |b|
  {
    if b == [] {
      assert a + b == a;
    } else {
      assert (a + b)[..|a + b| - 1] == a + b[..|b| - 1];
      TriCornersAppend(a, b[..|b| - 1], order);
    }
  }

  /** The position each index of a section buffer names. */
  function BufferCorners(t: ThreadMesh): (cs: seq<Vec>)
    requires Consistent(t)
    ensures |cs| == |t.triangles|
  {
    seq(|t.triangles|, k requires 0 <= k < |t.triangles| => t.vertices[t.triangles[k]])
  }

  /** One emitted triangle names its three corners, in winding order, after the corners already named. */
  lemma EmitCorners(b: ThreadMesh, t: Tri, order: seq<int>)
    requires Consistent(b) && IsWinding(order)
    ensures Consistent(Emit(b, t, order))
    ensures BufferCorners(Emit(b, t, order))
         == BufferCorners(b) + [TriVertex(t, order[0]), TriVertex(t, order[1]), TriVertex(t, order[2])]
  {
    EmitConsistent(b, t, order);
    var e := Emit(b, t, order);
    forall k | |b.triangles| <= k < |e.triangles|
      ensures e.vertices[e.triangles[k]] == TriVertex(t, order[k - |b.triangles|])
    {
      assert e.triangles[k] == b.vertexCount + order[k - |b.triangles|];
    }
  }

  /** Emitting triangles names their corners, in order, after the corners already named. */
  lemma {:induction false} EmitAllCorners(b: ThreadMesh, tris: seq<Tri>, order: seq<int>)
    requires Consistent(b) && IsWinding(order)
    ensures Consistent(EmitAll(b, tris, order))
    ensures BufferCorners(EmitAll(b, tris, order)) == BufferCorners(b) + TriCorners(tris, order)
    decreases |tris|
  {
    if tris != [] {
      var init, t := tris[..|tris| - 1], tris[|tris| - 1];
      EmitAllCorners(b, init, order);
      EmitCorners(EmitAll(b, init, order), t, order);
    }
  }

  /** The position each index of a mesh names. */
  ghost function MeshCorners(m: Mesh): (cs: seq<Vec>)
    requires WellIndexed(m)
    ensures |cs| == |m.triangles|
  {
    seq(|m.triangles|, k requires 0 <= k < |m.triangles| => CornerVertex(m, k))
  }

  /** The corners of a list of section buffers, one buffer after another. */
  function SectionsCorners(sections: seq<ThreadMesh>): seq<Vec>
    requires forall k :: 0 <= k < |sections| ==> Consistent(sections[k])
  {
    if sections == [] then []
    else SectionsCorners(sections[..|sections| - 1]) + BufferCorners(sections[|sections| - 1])
  }

  /** Appending a buffer with its indices rebased past the mesh's vertices appends the buffer's corners. */
  lemma AppendedCorners(m: Mesh, acc: Mesh, td: ThreadMesh)
    requires WellIndexed(m) && WellIndexed(acc) && Consistent(td)
    requires m.vertices == acc.vertices + td.vertices
    requires m.triangles == acc.triangles + Shift(td.triangles, |acc.vertices|)
    ensures MeshCorners(m) == MeshCorners(acc) + BufferCorners(td)
  {
    forall k | 0 <= k < |m.triangles|
      ensures MeshCorners(m)[k] == (MeshCorners(acc) + BufferCorners(td))[k]
    {
      if k < |acc.triangles| {
        assert m.triangles[k] == acc.triangles[k];
      } else {
        assert m.triangles[k] == td.triangles[k - |acc.triangles|] + |acc.vertices|;
      }
    }
  }

  /** Rebasing keeps every index on its own section's vertex: the merged mesh names the sections' corners in order. */
  lemma {:induction false} MergedCorners(sections: seq<ThreadMesh>)
    requires forall k :: 0 <= k < |sections| ==> Consistent(sections[k]) && NonDegenerate(sections[k].triangles)
    ensures WellIndexed(Merged(sections))
    ensures MeshCorners(Merged(sections)) == SectionsCorners(sections)
    decreases |sections|
  {
    MergedWellIndexed(sections);
    if sections != [] {
      var init := sections[..|sections| - 1];
      MergedCorners(init);
      AppendedCorners(Merged(sections), Merged(init), sections[|sections| - 1]);
    }
  }

  /** One buffer per list of triangles, each filled from a reset buffer. */
  function FreshMeshes(blocks: seq<seq<Tri>>, order: seq<int>): (r: seq<ThreadMesh>)
    requires IsWinding(order)
    ensures |r| == |blocks|
  {
    seq(|blocks|, s requires 0 <= s < |blocks| => EmitAll(EmptyThreadMesh, blocks[s], order))
  }

  lemma FreshMeshesConsistent(blocks: seq<seq<Tri>>, order: seq<int>)
    requires IsWinding(order)
    ensures forall s :: 0 <= s < |blocks| ==>
      Consistent(FreshMeshes(blocks, order)[s]) && NonDegenerate(FreshMeshes(blocks, order)[s].triangles)
  {
    forall s | 0 <= s < |blocks|
      ensures Consistent(FreshMeshes(blocks, order)[s]) && NonDegenerate(FreshMeshes(blocks, order)[s].triangles)
    {
      EmitAllConsistent(EmptyThreadMesh, blocks[s], order);
      EmitAllNonDegenerate(EmptyThreadMesh, blocks[s], order);
    }
  }

  /** A reset buffer after emitting a list of triangles names exactly their corners. */
  lemma FreshCorners(tris: seq<Tri>, order: seq<int>)
    requires IsWinding(order)
    ensures Consistent(EmitAll(EmptyThreadMesh, tris, order))
    ensures BufferCorners(EmitAll(EmptyThreadMesh, tris, order)) == TriCorners(tris, order)
  {
    EmitAllCorners(EmptyThreadMesh, tris, order);
    assert BufferCorners(EmptyThreadMesh) == [];
  }

  /** The buffers of a list of blocks name the corners of the joined blocks, in order. */
  lemma {:induction false} FreshMeshesCorners(blocks: seq<seq<Tri>>, order: seq<int>)
    requires IsWinding(order)
    ensures forall s :: 0 <= s < |blocks| ==> Consistent(FreshMeshes(blocks, order)[s])
    ensures SectionsCorners(FreshMeshes(blocks, order)) == TriCorners(Joined(blocks), order)
    decreases |blocks|
  {
    FreshMeshesConsistent(blocks, order);
    if blocks != [] {
      var n := |blocks|;
      var init := blocks[..n - 1];
      FreshMeshesCorners(init, order);
      assert FreshMeshes(blocks, order)[..n - 1] == FreshMeshes(init, order);
      FreshCorners(blocks[n - 1], order);
      TriCornersAppend(Joined(init), blocks[n - 1], order);
    }
  }

  // What the weld keeps

  /** The weld key of each position. */
  function Keys(vs: seq<Vec>): (ks: seq<IntVec>)
    ensures |ks| == |vs|
  {
    seq(|vs|, i requires 0 <= i < |vs| => Quantize(vs[i]))
  }

  /** The distinct keys of a list. */
  function KeySet(ks: seq<IntVec>): set<IntVec> {
    set k | k in ks
  }

  /** The number of triplets of a corner-key list whose three keys are distinct. */
  function DistinctTriples(ks: seq<IntVec>): nat
    requires |ks| % 3 == 0
    decreases |ks|
  {
    if ks == [] then 0
    else
      var n := |ks|;
      DistinctTriples(ks[..n - 3]) + if ks[n - 3] != ks[n - 2] && ks[n - 2] != ks[n - 1] && ks[n - 3] != ks[n - 1] then 1 else 0
  }

  lemma {:induction false} DistinctKeysCard(ks: seq<IntVec>)
    requires forall a, b :: 0 <= a < b < |ks| ==> ks[a] != ks[b]
    ensures |KeySet(ks)| == |ks|
  {
    if ks != [] {
      var init := ks[..|ks| - 1];
      DistinctKeysCard(init);
      assert KeySet(ks) == KeySet(init) + {ks[|ks| - 1]};
      assert ks[|ks| - 1] !in KeySet(init);
    }
  }

  /** Every final vertex has the key of a corner (its origin), and every corner the key of a final vertex (its slot). */
  lemma WeldKeys(m: Mesh, normalize: Vec -> Vec, out: Mesh, slot: seq<int>, origin: seq<int>)
    requires Welds(m, normalize, out, slot, origin)
    ensures KeySet(Keys(out.vertices)) == KeySet(Keys(MeshCorners(m)))
  {
    var outKeys, cornerKeys := Keys(out.vertices), Keys(MeshCorners(m));
    forall key | key in KeySet(outKeys)
      ensures key in KeySet(cornerKeys)
    {
      var j :| 0 <= j < |outKeys| && outKeys[j] == key;
      assert cornerKeys[origin[j]] == key;
    }
    forall key | key in KeySet(cornerKeys)
      ensures key in KeySet(outKeys)
    {
      var k :| 0 <= k < |cornerKeys| && cornerKeys[k] == key;
      assert outKeys[slot[k]] == key;
    }
  }

  /** A weld has one final vertex per distinct corner key. */
  lemma WeldVertexCount(m: Mesh, normalize: Vec -> Vec, out: Mesh, slot: seq<int>, origin: seq<int>)
    requires Welds(m, normalize, out, slot, origin)
    ensures KeySet(Keys(out.vertices)) == KeySet(Keys(MeshCorners(m)))
    ensures |out.vertices| == |KeySet(Keys(MeshCorners(m)))|
  {
    WeldKeys(m, normalize, out, slot, origin);
    DistinctKeysCard(Keys(out.vertices));
  }

  /** Kept keeps the triplets of three distinct slots, and slots are equal exactly where keys are. */
  lemma {:induction false} KeptCount(slot: seq<int>, ks: seq<IntVec>)
    requires |slot| == |ks| && |slot| % 3 == 0
    requires forall a, b :: 0 <= a < |slot| && 0 <= b < |slot| ==> (slot[a] == slot[b] <==> ks[a] == ks[b])
    ensures |Kept(slot)| == 3 * DistinctTriples(ks)
    decreases |slot|
  {
    if slot != [] {
      var n := |slot|;
      KeptCount(slot[..n - 3], ks[..n - 3]);
      assert (slot[n - 3] == slot[n - 2] <==> ks[n - 3] == ks[n - 2]);
      assert (slot[n - 2] == slot[n - 1] <==> ks[n - 2] == ks[n - 1]);
      assert (slot[n - 3] == slot[n - 1] <==> ks[n - 3] == ks[n - 1]);
    }
  }

  /** A weld keeps three indices for each triplet of corners with three distinct keys. */
  lemma WeldTriangleCount(m: Mesh, normalize: Vec -> Vec, out: Mesh, slot: seq<int>, origin: seq<int>)
    requires Welds(m, normalize, out, slot, origin)
    ensures |out.triangles| == 3 * DistinctTriples(Keys(MeshCorners(m)))
  {
    var ks := Keys(MeshCorners(m));
    forall a, b | 0 <= a < |slot| && 0 <= b < |slot|
      ensures slot[a] == slot[b] <==> ks[a] == ks[b]
    {
      assert ks[a] == Quantize(out.vertices[slot[a]]);
      assert ks[b] == Quantize(out.vertices[slot[b]]);
    }
    KeptCount(slot, ks);
  }

  // The counts do not depend on the order of the triangles

  /** The distinct corner keys of a list of triangles. */
  function CornerKeys(tris: seq<Tri>, order: seq<int>): set<IntVec>
    requires |order| == 3
  {
    KeySet(Keys(TriCorners(tris, order)))
  }

  /** How many triangles of the list have three distinct corner keys. */
  function KeptTriangles(tris: seq<Tri>, order: seq<int>): nat
    requires |order| == 3
  {
    DistinctTriples(Keys(TriCorners(tris, order)))
  }

  lemma {:induction false} DistinctTriplesAppend(a: seq<IntVec>, b: seq<IntVec>)
    requires |a| % 3 == 0 && |b| % 3 == 0
    ensures DistinctTriples(a + b) == DistinctTriples(a) + DistinctTriples(b)
    decreases |b|
  {
    if b == [] {
      assert a + b == a;
    } else {
      var n := |b|;
      assert (a + b)[..|a + b| - 3] == a + b[..n - 3];
      DistinctTriplesAppend(a, b[..n - 3]);
    }
  }

  /** Both counts add up over a concatenation. */
  lemma CornerKeysAppend(a: seq<Tri>, b: seq<Tri>, order: seq<int>)
    requires |order| == 3
    ensures CornerKeys(a + b, order) == CornerKeys(a, order) + CornerKeys(b, order)
    ensures KeptTriangles(a + b, order) == KeptTriangles(a, order) + KeptTriangles(b, order)
  {
    TriCornersAppend(a, b, order);
    var ca, cb := TriCorners(a, order), TriCorners(b, order);
    assert Keys(ca + cb) == Keys(ca) + Keys(cb);
    DistinctTriplesAppend(Keys(ca), Keys(cb));
  }

  /** Moving one triangle out of the middle of a list to its end changes neither count. */
  lemma CornerKeysMove(left: seq<Tri>, t: Tri, right: seq<Tri>, order: seq<int>)
    requires |order| == 3
    ensures CornerKeys(left + [t] + right, order) == CornerKeys(left + right, order) + CornerKeys([t], order)
    ensures KeptTriangles(left + [t] + right, order) == KeptTriangles(left + right, order) + KeptTriangles([t], order)
  {
    CornerKeysAppend(left, [t], order);
    CornerKeysAppend(left + [t], right, order);
    CornerKeysAppend(left, right, order);
  }

  /** Taking the same triangle out of two lists with the same triangles leaves lists with the same triangles. */
  lemma RemoveOne(a: seq<Tri>, t: Tri, left: seq<Tri>, right: seq<Tri>)
    requires multiset(a + [t]) == multiset(left + [t] + right)
    ensures multiset(a) == multiset(left + right)
  {
    assert multiset(a + [t]) == multiset(a) + multiset{t};
    assert multiset(left + [t] + right) == multiset(left + right) + multiset{t};
    assert multiset(a) == multiset(a + [t]) - multiset{t};
    assert multiset(left + right) == multiset(left + [t] + right) - multiset{t};
  }

  /** Two lists holding the same triangles equally often have the same corner keys and keep as many triangles. */
  lemma {:induction false} CornerKeysPermutation(a: seq<Tri>, b: seq<Tri>, order: seq<int>)
    requires |order| == 3 && multiset(a) == multiset(b)
    ensures CornerKeys(a, order) == CornerKeys(b, order)
    ensures KeptTriangles(a, order) == KeptTriangles(b, order)
    decreases |a|
  {
    if a == [] {
      assert |b| == |multiset(b)| == 0;
    } else {
      var t, a' := a[|a| - 1], a[..|a| - 1];
      assert a == a' + [t];
      assert t in multiset(b);
      var i :| 0 <= i < |b| && b[i] == t;
      var left, right := b[..i], b[i + 1..];
      assert b == left + [t] + right;
      RemoveOne(a', t, left, right);
      CornerKeysPermutation(a', left + right, order);
      CornerKeysAppend(a', [t], order);
      CornerKeysMove(left, t, right, order);
    }
  }

  // The section count

  /**
   * The weld of the merged buffers of any lists of triangles that together
   * hold the triangles of `whole`: one final vertex per distinct corner key
   * of `whole`, and three indices per triangle of `whole` whose corners have
   * three distinct keys.
   */
  lemma WeldOfBlocks(blocks: seq<seq<Tri>>, whole: seq<Tri>, order: seq<int>,
                     normalize: Vec -> Vec, out: Mesh, slot: seq<int>, origin: seq<int>)
    requires IsWinding(order) && multiset(Joined(blocks)) == multiset(whole)
    requires Welds(Merged(FreshMeshes(blocks, order)), normalize, out, slot, origin)
    ensures KeySet(Keys(out.vertices)) == CornerKeys(whole, order)
    ensures |out.vertices| == |CornerKeys(whole, order)|
    ensures |out.triangles| == 3 * KeptTriangles(whole, order)
  {
    var sections := FreshMeshes(blocks, order);
    var m := Merged(sections);
    FreshMeshesConsistent(blocks, order);
    MergedCorners(sections);
    FreshMeshesCorners(blocks, order);
    WeldVertexCount(m, normalize, out, slot, origin);
    WeldTriangleCount(m, normalize, out, slot, origin);
    CornerKeysPermutation(Joined(blocks), whole, order);
  }

  /** BeginPlay's sections are the split of the input's cells. */
  lemma SectionMeshesSplit(inp: MarchInput, count: int)
    requires inp.Valid() && count >= 1
    ensures SectionMeshes(inp, count) == FreshMeshes(SplitBlocks(CellsOf(inp), inp.field.size, count), WindingOrder(inp.level))
  {
    var size := inp.field.size;
    CellsOfAgrees(inp);
    forall s | 0 <= s < count
      ensures SectionMeshes(inp, count)[s] == FreshMeshes(SplitBlocks(CellsOf(inp), size, count), WindingOrder(inp.level))[s]
    {
      SectionMeshesAt(inp, count, s);
      BlockIs(inp, CellsOf(inp), size, SectionStart(s, size, count), SectionEnd(s, size, count));
    }
  }

  /**
   * The weld ApplyMesh makes of the merged sections, for any section count:
   * one final vertex per distinct corner key of the triangles of the whole
   * grid generated as one section, and three indices per such triangle whose
   * corners have three distinct keys.
   */
  lemma WeldOfSections(inp: MarchInput, count: int, normalize: Vec -> Vec, out: Mesh, slot: seq<int>, origin: seq<int>)
    requires inp.Valid() && count >= 1
    requires Welds(Merged(SectionMeshes(inp, count)), normalize, out, slot, origin)
    ensures KeySet(Keys(out.vertices)) == CornerKeys(inp.SectionTris(0, inp.field.size), WindingOrder(inp.level))
    ensures |out.vertices| == |CornerKeys(inp.SectionTris(0, inp.field.size), WindingOrder(inp.level))|
    ensures |out.triangles| == 3 * KeptTriangles(inp.SectionTris(0, inp.field.size), WindingOrder(inp.level))
  {
    SectionMeshesSplit(inp, count);
    CellsOfAgrees(inp);
    BlockIs(inp, CellsOf(inp), inp.field.size, 0, inp.field.size);
    SplitCells(CellsOf(inp), inp.field.size, count);
    WeldOfBlocks(SplitBlocks(CellsOf(inp), inp.field.size, count), inp.SectionTris(0, inp.field.size),
                 WindingOrder(inp.level), normalize, out, slot, origin);
  }

  /** One section or eight: the weld has vertices with the same keys, as many of them, and as many indices. */
  lemma SectionCountIrrelevant(inp: MarchInput, a: int, b: int, normalize: Vec -> Vec,
                               outA: Mesh, slotA: seq<int>, originA: seq<int>,
                               outB: Mesh, slotB: seq<int>, originB: seq<int>)
    requires inp.Valid() && a >= 1 && b >= 1
    requires Welds(Merged(SectionMeshes(inp, a)), normalize, outA, slotA, originA)
    requires Welds(Merged(SectionMeshes(inp, b)), normalize, outB, slotB, originB)
    ensures KeySet(Keys(outA.vertices)) == KeySet(Keys(outB.vertices))
    ensures |outA.vertices| == |outB.vertices|
    ensures |outA.triangles| == |outB.triangles|
  {
    WeldOfSections(inp, a, normalize, outA, slotA, originA);
    WeldOfSections(inp, b, normalize, outB, slotB, originB);
  }

  /**
   * The number of cores does not change what a chunk's BeginPlay puts on
   * screen: two engines that differ in `cores` give the same welded vertex
   * keys and the same vertex and index counts.
   */
  lemma CoresIrrelevant(c: Chunk, one: Engine, other: Engine, voxels: seq<real>, mods: map<IntVec, real>,
                        order1: seq<int>, count1: int, onScreen1: Mesh, slot1: seq<int>, origin1: seq<int>, merged1: Mesh,
                        order2: seq<int>, count2: int, onScreen2: Mesh, slot2: seq<int>, origin2: seq<int>, merged2: Mesh)
    requires one.shading == other.shading && one.normalize == other.normalize
    requires c.GeneratedWith(one, voxels, mods, order1, count1, onScreen1, slot1, origin1, merged1)
    requires c.GeneratedWith(other, voxels, mods, order2, count2, onScreen2, slot2, origin2, merged2)
    ensures KeySet(Keys(onScreen1.vertices)) == KeySet(Keys(onScreen2.vertices))
    ensures |onScreen1.vertices| == |onScreen2.vertices|
    ensures |onScreen1.triangles| == |onScreen2.triangles|
  {
    SectionCountIrrelevant(c.Input(one.shading, voxels, mods), SectionCount(one.cores), SectionCount(other.cores),
                           one.normalize, onScreen1, slot1, origin1, onScreen2, slot2, origin2);
  }
}
