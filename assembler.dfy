/**
 * Turning section buffers into the rendered mesh: the merge of BeginPlay,
 * which concatenates sections and rebases their indices, and ApplyMesh, which
 * welds vertices that quantize to the same key, sums their normals, drops the
 * triangles that collapse, and normalizes the normals.
 */
module Assembler {
  import opened Geometry
  import opened MeshBuffers
  import opened Polygonizer

  /** Every index moved up by `base`: `td.Triangles[t] + baseVertex`. */
  function Shift(t: seq<int>, base: int): (r: seq<int>)
    ensures |r| == |t|
  {
    seq(|t|, i requires 0 <= i < |t| => t[i] + base)
  }

  /**
   * meshData after the merge loop of BeginPlay: the sections appended in
   * order, each section's indices rebased by the vertices already merged.
   * UV0 stays empty.
   */
  function Merged(sections: seq<ThreadMesh>): Mesh
  {
    if sections == [] then EmptyMesh
    else
      var acc := Merged(sections[..|sections| - 1]);
      var td := sections[|sections| - 1];
      Mesh(acc.vertices + td.vertices,
           acc.triangles + Shift(td.triangles, |acc.vertices|),
           acc.normals + td.normals,
           acc.colors + td.colors,
           acc.uv0)
  }

  /** Total vertices of a list of sections. */
  function TotalVertices(sections: seq<ThreadMesh>): nat
  {
    if sections == [] then 0 else TotalVertices(sections[..|sections| - 1]) + |sections[|sections| - 1].vertices|
  }

  /**
   * Merging consistent sections gives a mesh the renderer can take: vertex
   * count is the sum of the sections', every rebased index names a vertex, no
   * triangle has a repeated index, and UV0 is empty.
   */
  lemma {:induction false} MergedWellIndexed(sections: seq<ThreadMesh>)
    requires forall k :: 0 <= k < |sections| ==> Consistent(sections[k]) && NonDegenerate(sections[k].triangles)
    ensures WellIndexed(Merged(sections))
    ensures NonDegenerate(Merged(sections).triangles)
    ensures |Merged(sections).vertices| == TotalVertices(sections)
    ensures Merged(sections).uv0 == []
  {
    if sections != [] {
      var init := sections[..|sections| - 1];
      MergedWellIndexed(init);
      var acc := Merged(init);
      var td := sections[|sections| - 1];
      ShiftNonDegenerate(td.triangles, |acc.vertices|);
      AppendNonDegenerate(acc.triangles, Shift(td.triangles, |acc.vertices|));
    }
  }

  /** The merge of the section buffers BeginPlay generates is well indexed with an empty UV0. */
  lemma SectionsMergeWellIndexed(inp: MarchInput, count: int)
    requires inp.Valid() && count >= 1
    ensures WellIndexed(Merged(SectionMeshes(inp, count)))
    ensures Merged(SectionMeshes(inp, count)).uv0 == []
  {
    SectionMeshesConsistent(inp, count);
    MergedWellIndexed(SectionMeshes(inp, count));
  }

  /**
   * A single section merges into a mesh holding exactly its arrays: the merge
   * of BeginPlay and the direct move of ModifyVoxel agree when there is one section.
   */
  lemma MergedSingle(td: ThreadMesh)
    ensures Merged([td]) == Mesh(td.vertices, td.triangles, td.normals, td.colors, [])
  {
    assert [td][..0] == [];
    assert Shift(td.triangles, 0) == td.triangles;
  }

  /** A single consistent section merges into a well-indexed mesh. */
  lemma MergedSingleWellIndexed(td: ThreadMesh)
    requires Consistent(td) && NonDegenerate(td.triangles)
    ensures WellIndexed(Merged([td])) && NonDegenerate(Merged([td]).triangles)
  {
    MergedWellIndexed([td]);
  }

  /** The whole Z range generated as one section merges into exactly that section, well indexed. */
  lemma WholeSectionMerge(inp: MarchInput)
    requires inp.Valid()
    ensures var sm := inp.SectionMesh(0, inp.field.size);
      && Merged([sm]) == Mesh(sm.vertices, sm.triangles, sm.normals, sm.colors, [])
      && WellIndexed(Merged([sm]))
  {
    var sm := inp.SectionMesh(0, inp.field.size);
    SectionMeshConsistent(inp, 0, inp.field.size);
    MergedSingle(sm);
    MergedSingleWellIndexed(sm);
  }

  lemma {:induction false} ShiftNonDegenerate(t: seq<int>, base: int)
    requires NonDegenerate(t)
    ensures NonDegenerate(Shift(t, base))
    decreases |t|
  {
    if |t| > 0 {
      var p := t[..|t| - 3];
      ShiftNonDegenerate(p, base);
      var s := Shift(t, base);
      assert s[..|s| - 3] == Shift(p, base);
    }
  }

  lemma {:induction false} AppendNonDegenerate(a: seq<int>, b: seq<int>)
    requires NonDegenerate(a) && NonDegenerate(b)
    ensures NonDegenerate(a + b)
    decreases |b|
  {
    if |b| == 0 {
      assert a + b == a;
    } else {
      var p := b[..|b| - 3];
      AppendNonDegenerate(a, p);
      var s := a + b;
      assert s[..|s| - 3] == a + p;
      assert s[|s| - 3] == b[|b| - 3] && s[|s| - 2] == b[|b| - 2] && s[|s| - 1] == b[|b| - 1];
    }
  }

  /** The `0.001f` grid on which vertices are welded. */
  const Precision: real := 0.001

  /** FMath::RoundToInt: round half up. */
  function RoundToInt(r: real): (n: int)
    ensures r - 0.5 < n as real <= r + 0.5
  {
    (r + 0.5).Floor
  }

  /** The Quantize lambda: a position's key on the welding grid. */
  function Quantize(v: Vec): IntVec
  {
    IntVec(RoundToInt(v.x / Precision), RoundToInt(v.y / Precision), RoundToInt(v.z / Precision))
  }

  /** Two coordinates that round to the same key lie less than one precision step apart. */
  lemma SameKeyClose(a: real, b: real)
    requires RoundToInt(a / Precision) == RoundToInt(b / Precision)
    ensures -Precision < a - b < Precision
  {
  }

  /** Positions welded into one vertex differ by less than 0.001 on every axis. */
  lemma QuantizeClose(a: Vec, b: Vec)
    requires Quantize(a) == Quantize(b)
    ensures -Precision < a.x - b.x < Precision
    ensures -Precision < a.y - b.y < Precision
    ensures -Precision < a.z - b.z < Precision
  {
    SameKeyClose(a.x, b.x);
    SameKeyClose(a.y, b.y);
    SameKeyClose(a.z, b.z);
  }

  /** The state the GetOrAddVertex lambda threads: vertexLookup and the final arrays. */
  datatype DedupState = DedupState(
    lookup: map<IntVec, int>,
    vertices: seq<Vec>,
    normals: seq<Vec>,
    colors: seq<Color>)

  const EmptyDedup: DedupState := DedupState(map[], [], [], [])

  /**
   * vertexLookup indexes the final vertices: each key names the one vertex
   * with that key, each vertex is found under its own key, and the final
   * arrays run parallel.
   */
  ghost predicate Indexes(st: DedupState) {
    && |st.normals| == |st.vertices|
    && |st.colors| == |st.vertices|
    && (forall k :: k in st.lookup ==> 0 <= st.lookup[k] < |st.vertices| && Quantize(st.vertices[st.lookup[k]]) == k)
    && (forall j :: 0 <= j < |st.vertices| ==> Quantize(st.vertices[j]) in st.lookup && st.lookup[Quantize(st.vertices[j])] == j)
  }

  /**
   * GetOrAddVertex: the vertex with v's key, found (its normal accumulating n)
   * or appended with v, n and c. The lookup stays an index of the final arrays.
   */
  function GetOrAddVertex(st: DedupState, v: Vec, n: Vec, c: Color): (r: (DedupState, int))
    requires Indexes(st)
    ensures Indexes(r.0)
    ensures 0 <= r.1 < |r.0.vertices| && Quantize(r.0.vertices[r.1]) == Quantize(v)
    ensures Quantize(v) in st.lookup ==>
      && r.1 == st.lookup[Quantize(v)]
      && r.0.vertices == st.vertices && r.0.colors == st.colors
      && r.0.normals == st.normals[r.1 := st.normals[r.1].Plus(n)]
    ensures Quantize(v) !in st.lookup ==>
      && r.1 == |st.vertices|
      && r.0.vertices == st.vertices + [v] && r.0.normals == st.normals + [n] && r.0.colors == st.colors + [c]
  {
    var key := Quantize(v);
    if key in st.lookup then
      var i := st.lookup[key];
      (st.(normals := st.normals[i := st.normals[i].Plus(n)]), i)
    else
      var i := |st.vertices|;
      (DedupState(st.lookup[key := i], st.vertices + [v], st.normals + [n], st.colors + [c]), i)
  }

  /**
   * finalTriangles for the final vertex of each input corner: the corners
   * taken three at a time, a triple kept only when its three vertices differ.
   */
  function Kept(slot: seq<int>): (t: seq<int>)
    requires |slot| % 3 == 0
    ensures |t| <= |slot|
    ensures forall i :: 0 <= i < |t| ==> t[i] in slot
    decreases |slot|
  {
    if |slot| == 0 then []
    else
      var p := slot[..|slot| - 3];
      var a, b, c := slot[|slot| - 3], slot[|slot| - 2], slot[|slot| - 1];
      assert forall x :: x in p ==> x in slot;
      Kept(p) + (if Distinct3(a, b, c) then [a, b, c] else [])
  }

  /** No kept triangle repeats a vertex. */
  lemma {:induction false} KeptNonDegenerate(slot: seq<int>)
    requires |slot| % 3 == 0
    ensures NonDegenerate(Kept(slot))
    decreases |slot|
  {
    if |slot| > 0 {
      var p := slot[..|slot| - 3];
      KeptNonDegenerate(p);
      var a, b, c := slot[|slot| - 3], slot[|slot| - 2], slot[|slot| - 1];
      if Distinct3(a, b, c) {
        assert Kept(slot) == Kept(p) + [a, b, c];
        NonDegenerateSnoc(Kept(p), a, b, c);
      } else {
        assert Kept(slot) == Kept(p) + [];
        assert Kept(p) + [] == Kept(p);
      }
    }
  }

  /** The normal of every input corner, in triangle order. */
  function CornerNormals(m: Mesh): seq<Vec>
    requires WellIndexed(m)
  {
    seq(|m.triangles|, k requires 0 <= k < |m.triangles| => m.normals[m.triangles[k]])
  }

  /** The sum, in corner order, of the normals of the corners welded into vertex j. */
  function NormalSum(ns: seq<Vec>, slot: seq<int>, j: int): Vec
    requires |ns| == |slot|
  {
    if slot == [] then Zero
    else NormalSum(ns[..|ns| - 1], slot[..|slot| - 1], j).Plus(if slot[|slot| - 1] == j then ns[|ns| - 1] else Zero)
  }

  /** A vertex no corner has been welded into yet has a zero normal sum. */
  lemma {:induction false} NormalSumFresh(ns: seq<Vec>, slot: seq<int>, j: int)
    requires |ns| == |slot|
    requires forall k :: 0 <= k < |slot| ==> slot[k] < j
    ensures NormalSum(ns, slot, j) == Zero
  {
    if slot != [] {
      NormalSumFresh(ns[..|ns| - 1], slot[..|slot| - 1], j);
    }
  }

  lemma NormalSumStep(ns: seq<Vec>, slot: seq<int>, n: Vec, s: int, j: int)
    requires |ns| == |slot|
    ensures NormalSum(ns + [n], slot + [s], j) == NormalSum(ns, slot, j).Plus(if s == j then n else Zero)
  {
    assert (ns + [n])[..|ns|] == ns;
    assert (slot + [s])[..|slot|] == slot;
  }

  /** Corner k of m went to final vertex slot[k], which carries the corner's key. */
  ghost predicate SlotsOk(m: Mesh, st: DedupState, slot: seq<int>)
    requires WellIndexed(m) && |slot| <= |m.triangles|
  {
    forall k :: 0 <= k < |slot| ==>
      0 <= slot[k] < |st.vertices| && Quantize(st.vertices[slot[k]]) == Quantize(m.vertices[m.triangles[k]])
  }

  /**
   * Final vertex j is a copy, in position and colour, of corner origin[j], the
   * first corner welded into it; vertices are numbered in the order their
   * first corners occur.
   */
  ghost predicate OriginsOk(m: Mesh, st: DedupState, slot: seq<int>, origin: seq<int>)
    requires WellIndexed(m) && |slot| <= |m.triangles|
  {
    && |st.colors| == |st.vertices|
    && |origin| == |st.vertices|
    && (forall j :: 0 <= j < |origin| ==> 0 <= origin[j] < |slot| && slot[origin[j]] == j)
    && (forall j :: 0 <= j < |origin| ==>
          st.vertices[j] == m.vertices[m.triangles[origin[j]]] && st.colors[j] == m.colors[m.triangles[origin[j]]])
    && (forall j, k :: 0 <= j < |origin| && 0 <= k < origin[j] ==> slot[k] != j)
    && (forall a, b :: 0 <= a < b < |origin| ==> origin[a] < origin[b])
  }

  /** The normals seen so far are those of the first corners. */
  ghost predicate SeenOk(m: Mesh, seen: seq<Vec>)
    requires WellIndexed(m) && |seen| <= |m.triangles|
  {
    forall k :: 0 <= k < |seen| ==> seen[k] == m.normals[m.triangles[k]]
  }

  /** The normal of final vertex j is the sum of the normals of its corners. */
  ghost predicate NormalsOk(st: DedupState, slot: seq<int>, seen: seq<Vec>)
    requires |seen| == |slot|
  {
    && |st.normals| == |st.vertices|
    && forall j :: 0 <= j < |st.vertices| ==> st.normals[j] == NormalSum(seen, slot, j)
  }

  /** What the first |slot| corners of m have produced. */
  ghost predicate Processed(m: Mesh, st: DedupState, slot: seq<int>, seen: seq<Vec>, origin: seq<int>) {
    && WellIndexed(m)
    && |slot| <= |m.triangles|
    && |seen| == |slot|
    && Indexes(st)
    && SeenOk(m, seen)
    && SlotsOk(m, st, slot)
    && OriginsOk(m, st, slot, origin)
    && NormalsOk(st, slot, seen)
  }

  /** The corner at position i of m's triangle list, looked up in the state. */
  function CornerLookup(m: Mesh, st: DedupState, i: nat): (DedupState, int)
    requires WellIndexed(m) && i < |m.triangles| && Indexes(st)
  {
    GetOrAddVertex(st, m.vertices[m.triangles[i]], m.normals[m.triangles[i]], m.colors[m.triangles[i]])
  }

  lemma SlotsStep(m: Mesh, st: DedupState, st': DedupState, slot: seq<int>, index: int)
    requires WellIndexed(m) && |slot| < |m.triangles| && SlotsOk(m, st, slot)
    requires |st.vertices| <= |st'.vertices| && st'.vertices[..|st.vertices|] == st.vertices
    requires 0 <= index < |st'.vertices| && Quantize(st'.vertices[index]) == Quantize(m.vertices[m.triangles[|slot|]])
    ensures SlotsOk(m, st', slot + [index])
  {
    var slot' := slot + [index];
    forall k | 0 <= k < |slot'|
      ensures 0 <= slot'[k] < |st'.vertices| && Quantize(st'.vertices[slot'[k]]) == Quantize(m.vertices[m.triangles[k]])
    {
      if k < |slot| {
        assert slot'[k] == slot[k];
        assert st'.vertices[slot[k]] == st.vertices[slot[k]];
      }
    }
  }

  /** A corner welded into an existing vertex leaves every vertex's origin in place. */
  lemma OriginsStepFound(m: Mesh, st: DedupState, st': DedupState, slot: seq<int>, origin: seq<int>, index: int)
    requires WellIndexed(m) && |slot| < |m.triangles| && OriginsOk(m, st, slot, origin)
    requires st'.vertices == st.vertices && st'.colors == st.colors
    ensures OriginsOk(m, st', slot + [index], origin)
  {
    var slot' := slot + [index];
    assert forall k :: 0 <= k < |slot| ==> slot'[k] == slot[k];
  }

  /** A corner that starts a new vertex becomes that vertex's origin. */
  lemma OriginsStepAdded(m: Mesh, st: DedupState, st': DedupState, slot: seq<int>, origin: seq<int>)
    requires WellIndexed(m) && |slot| < |m.triangles| && SlotsOk(m, st, slot) && OriginsOk(m, st, slot, origin)
    requires st'.vertices == st.vertices + [m.vertices[m.triangles[|slot|]]]
    requires st'.colors == st.colors + [m.colors[m.triangles[|slot|]]]
    ensures OriginsOk(m, st', slot + [|st.vertices|], origin + [|slot|])
  {
    var slot' := slot + [|st.vertices|];
    var origin' := origin + [|slot|];
    assert forall k :: 0 <= k < |slot| ==> slot'[k] == slot[k];
    forall j, k | 0 <= j < |origin'| && 0 <= k < origin'[j]
      ensures slot'[k] != j
    {
      if j < |origin| {
        assert origin'[j] == origin[j];
      }
    }
  }

  /** Adding corner normal n to the vertex the corner went to keeps the normal sums. */
  lemma NormalsStepFound(st: DedupState, st': DedupState, slot: seq<int>, seen: seq<Vec>, n: Vec, index: int)
    requires |seen| == |slot| && NormalsOk(st, slot, seen)
    requires 0 <= index < |st.vertices|
    requires st'.vertices == st.vertices && st'.normals == st.normals[index := st.normals[index].Plus(n)]
    ensures NormalsOk(st', slot + [index], seen + [n])
  {
    forall j | 0 <= j < |st'.vertices|
      ensures st'.normals[j] == NormalSum(seen + [n], slot + [index], j)
    {
      NormalSumStep(seen, slot, n, index, j);
    }
  }

  /** A new vertex starts from its first corner's normal. */
  lemma NormalsStepAdded(st: DedupState, st': DedupState, slot: seq<int>, seen: seq<Vec>, n: Vec, v: Vec)
    requires |seen| == |slot| && NormalsOk(st, slot, seen)
    requires forall k :: 0 <= k < |slot| ==> slot[k] < |st.vertices|
    requires st'.vertices == st.vertices + [v] && st'.normals == st.normals + [n]
    ensures NormalsOk(st', slot + [|st.vertices|], seen + [n])
  {
    forall j | 0 <= j < |st'.vertices|
      ensures st'.normals[j] == NormalSum(seen + [n], slot + [|st.vertices|], j)
    {
      NormalSumStep(seen, slot, n, |st.vertices|, j);
      if j == |st.vertices| {
        NormalSumFresh(seen, slot, j);
      }
    }
  }

  /** One GetOrAddVertex call for corner i: the lambda's update of its captured state. */
  method WeldCorner(m: Mesh, st: DedupState, i: nat, ghost slot: seq<int>, ghost seen: seq<Vec>, ghost origin: seq<int>)
    returns (st': DedupState, index: int, ghost slot': seq<int>, ghost seen': seq<Vec>, ghost origin': seq<int>)
    requires Processed(m, st, slot, seen, origin) && i == |slot| < |m.triangles|
    ensures (st', index) == CornerLookup(m, st, |slot|)
    ensures slot' == slot + [index] && |seen'| == |seen| + 1
    ensures Processed(m, st', slot', seen', origin')
  {
    var v, n, c := m.vertices[m.triangles[i]], m.normals[m.triangles[i]], m.colors[m.triangles[i]];
    var r := GetOrAddVertex(st, v, n, c);
    st', index := r.0, r.1;
    slot', seen' := slot + [index], seen + [n];
    assert st'.vertices[..|st.vertices|] == st.vertices;
    SlotsStep(m, st, st', slot, index);
    if Quantize(v) in st.lookup {
      origin' := origin;
      OriginsStepFound(m, st, st', slot, origin, index);
      NormalsStepFound(st, st', slot, seen, n, index);
    } else {
      origin' := origin + [i];
      OriginsStepAdded(m, st, st', slot, origin);
      NormalsStepAdded(st, st', slot, seen, n, v);
    }
  }

  /**
   * `out` is what ApplyMesh hands to CreateMeshSection for the merged mesh m,
   * with `slot[k]` the final vertex of input corner k and `origin[j]` the
   * first corner of final vertex j: a well-indexed mesh without collapsed
   * triangles; no two final vertices share a key; each corner went to the
   * vertex with its key; the triangles are the corner triples whose vertices
   * differ; each vertex and colour is that of the first corner welded into it;
   * each normal is the normalized sum of its corners' normals; UV0 is passed
   * through.
   */
  ghost predicate Welds(m: Mesh, normalize: Vec -> Vec, out: Mesh, slot: seq<int>, origin: seq<int>) {
    && WellIndexed(m)
    && WeldShape(m, out, slot)
    && WeldOrigins(m, out, slot, origin)
    && WeldNormals(m, normalize, out, slot)
  }

  /** The mesh structure of a weld: indices, collapsed triangles, distinct keys, corner slots. */
  ghost predicate WeldShape(m: Mesh, out: Mesh, slot: seq<int>)
    requires WellIndexed(m)
  {
    && WellIndexed(out) && out.uv0 == m.uv0
    && NonDegenerate(out.triangles)
    && (forall a, b :: 0 <= a < b < |out.vertices| ==> Quantize(out.vertices[a]) != Quantize(out.vertices[b]))
    && |slot| == |m.triangles|
    && (forall k :: 0 <= k < |slot| ==>
          0 <= slot[k] < |out.vertices| && Quantize(out.vertices[slot[k]]) == Quantize(m.vertices[m.triangles[k]]))
    && out.triangles == Kept(slot)
  }

  /** Each final vertex and colour is that of the first corner welded into it, numbered in first-occurrence order. */
  ghost predicate WeldOrigins(m: Mesh, out: Mesh, slot: seq<int>, origin: seq<int>)
    requires WellIndexed(m)
  {
    && |slot| == |m.triangles|
    && |origin| == |out.vertices| && |out.colors| == |out.vertices|
    && (forall j :: 0 <= j < |origin| ==> 0 <= origin[j] < |slot| && slot[origin[j]] == j)
    && (forall j :: 0 <= j < |origin| ==>
          out.vertices[j] == m.vertices[m.triangles[origin[j]]] && out.colors[j] == m.colors[m.triangles[origin[j]]])
    && (forall j, k :: 0 <= j < |origin| && 0 <= k < origin[j] ==> slot[k] != j)
    && (forall a, b :: 0 <= a < b < |origin| ==> origin[a] < origin[b])
  }

  /** Each final normal is the normalized sum of the normals of its corners. */
  ghost predicate WeldNormals(m: Mesh, normalize: Vec -> Vec, out: Mesh, slot: seq<int>)
    requires WellIndexed(m)
  {
    && |slot| == |m.triangles|
    && |out.normals| == |out.vertices|
    && (forall j :: 0 <= j < |out.vertices| ==> out.normals[j] == normalize(NormalSum(CornerNormals(m), slot, j)))
  }

  /**
   * ApplyMesh's welding pass and normalization. The result welds m as Welds
   * describes, and keeps at most as many triangles as m has.
   */
  method WeldMesh(m: Mesh, normalize: Vec -> Vec) returns (out: Mesh, ghost slot: seq<int>, ghost origin: seq<int>)
    requires WellIndexed(m)
    ensures Welds(m, normalize, out, slot, origin)
    ensures |out.triangles| <= |m.triangles|
  {
    var st, finalTriangles;
    ghost var seen;
    st, finalTriangles, slot, seen, origin := WeldCorners(m);
    var finalNormals := NormalizeAll(st.normals, normalize);
    out := Mesh(st.vertices, finalTriangles, finalNormals, st.colors, m.uv0);
    WeldedMesh(m, normalize, st, slot, seen, origin, finalNormals);
  }

  /** The loop over the triangles of ApplyMesh: every corner through GetOrAddVertex. */
  method WeldCorners(m: Mesh) returns (st: DedupState, finalTriangles: seq<int>, ghost slot: seq<int>, ghost seen: seq<Vec>, ghost origin: seq<int>)
    requires WellIndexed(m)
    ensures Processed(m, st, slot, seen, origin) && |slot| == |m.triangles|
    ensures finalTriangles == Kept(slot)
  {
    st := EmptyDedup;
    finalTriangles := [];
    slot, seen, origin := [], [], [];
    ProcessedStart(m);
    var i := 0;
    while i < |m.triangles|
      invariant 0 <= i <= |m.triangles| && i % 3 == 0 && |slot| == i
      invariant Processed(m, st, slot, seen, origin)
      invariant finalTriangles == Kept(slot)
    {
      TripletStep(i, |m.triangles|);
      st, finalTriangles, slot, seen, origin := WeldTriangle(m, st, finalTriangles, i, slot, seen, origin);
      i := i + 3;
    }
  }

  /** One iteration of that loop: the three corners of a triangle, and the triangle kept if it did not collapse. */
  method WeldTriangle(m: Mesh, st: DedupState, finalTriangles: seq<int>, i: nat, ghost slot: seq<int>, ghost seen: seq<Vec>, ghost origin: seq<int>)
    returns (st': DedupState, finalTriangles': seq<int>, ghost slot': seq<int>, ghost seen': seq<Vec>, ghost origin': seq<int>)
    requires Processed(m, st, slot, seen, origin) && i == |slot| && i + 3 <= |m.triangles| && i % 3 == 0
    requires finalTriangles == Kept(slot)
    ensures Processed(m, st', slot', seen', origin') && |slot'| == i + 3 && |slot'| % 3 == 0
    ensures finalTriangles' == Kept(slot')
  {
    var i1, i2, i3;
    st', i1, slot', seen', origin' := WeldCorner(m, st, i, slot, seen, origin);
    st', i2, slot', seen', origin' := WeldCorner(m, st', i + 1, slot', seen', origin');
    st', i3, slot', seen', origin' := WeldCorner(m, st', i + 2, slot', seen', origin');
    SnocThree(slot, i1, i2, i3);
    KeptStep(slot, i1, i2, i3);
    finalTriangles' := finalTriangles;
    if i1 != i2 && i2 != i3 && i3 != i1 {
      finalTriangles' := finalTriangles + [i1, i2, i3];
    }
  }

  lemma SnocThree(s: seq<int>, a: int, b: int, c: int)
    ensures s + [a] + [b] + [c] == s + [a, b, c]
    ensures |s + [a, b, c]| == |s| + 3
  {
  }

  lemma TripletStep(i: int, n: int)
    requires 0 <= i < n && i % 3 == 0 && n % 3 == 0
    ensures i + 3 <= n && (i + 3) % 3 == 0
  {
    assert i == 3 * (i / 3) && n == 3 * (n / 3);
    assert i / 3 < n / 3;
  }

  lemma ProcessedStart(m: Mesh)
    requires WellIndexed(m)
    ensures Processed(m, EmptyDedup, [], [], [])
  {
  }

  lemma KeptStep(slot: seq<int>, a: int, b: int, c: int)
    requires |slot| % 3 == 0
    ensures |slot + [a, b, c]| % 3 == 0
    ensures Kept(slot + [a, b, c]) == Kept(slot) + (if Distinct3(a, b, c) then [a, b, c] else [])
  {
    var s := slot + [a, b, c];
    assert s[..|s| - 3] == slot;
  }

  /** The normalization loop of ApplyMesh: every accumulated normal normalized in place. */
  method NormalizeAll(ns: seq<Vec>, normalize: Vec -> Vec) returns (r: seq<Vec>)
    ensures |r| == |ns| && forall k :: 0 <= k < |ns| ==> r[k] == normalize(ns[k])
  {
    r := ns;
    var j := 0;
    while j < |r|
      invariant 0 <= j <= |r| == |ns|
      invariant forall k :: 0 <= k < j ==> r[k] == normalize(ns[k])
      invariant forall k :: j <= k < |r| ==> r[k] == ns[k]
    {
      r := r[j := normalize(r[j])];
      j := j + 1;
    }
  }

  /** The kept triangles only name vertices the corners went to. */
  lemma KeptInRange(slot: seq<int>, n: int)
    requires |slot| % 3 == 0 && forall k :: 0 <= k < |slot| ==> 0 <= slot[k] < n
    ensures forall i :: 0 <= i < |Kept(slot)| ==> 0 <= Kept(slot)[i] < n
  {
  }

  /** Distinct final vertices have distinct keys. */
  lemma IndexesDistinct(st: DedupState)
    requires Indexes(st)
    ensures forall a, b :: 0 <= a < b < |st.vertices| ==> Quantize(st.vertices[a]) != Quantize(st.vertices[b])
  {
  }

  /** The state after all corners, with its normals normalized, is a weld of m. */
  lemma WeldedMesh(m: Mesh, normalize: Vec -> Vec, st: DedupState, slot: seq<int>, seen: seq<Vec>, origin: seq<int>, normals: seq<Vec>)
    requires Processed(m, st, slot, seen, origin) && |slot| == |m.triangles|
    requires |normals| == |st.normals| && forall k :: 0 <= k < |normals| ==> normals[k] == normalize(st.normals[k])
    ensures Welds(m, normalize, Mesh(st.vertices, Kept(slot), normals, st.colors, m.uv0), slot, origin)
    ensures |Kept(slot)| <= |m.triangles|
  {
    var out := Mesh(st.vertices, Kept(slot), normals, st.colors, m.uv0);
    WeldedShape(m, st, slot, normals);
    WeldedOrigins(m, st, slot, seen, origin, normals);
    WeldedNormals(m, normalize, st, slot, seen, origin, normals);
  }

  lemma WeldedShape(m: Mesh, st: DedupState, slot: seq<int>, normals: seq<Vec>)
    requires WellIndexed(m) && |slot| == |m.triangles| && Indexes(st) && SlotsOk(m, st, slot)
    requires |normals| == |st.vertices| && |st.colors| == |st.vertices|
    ensures WeldShape(m, Mesh(st.vertices, Kept(slot), normals, st.colors, m.uv0), slot)
  {
    KeptNonDegenerate(slot);
    KeptInRange(slot, |st.vertices|);
    IndexesDistinct(st);
  }

  lemma WeldedOrigins(m: Mesh, st: DedupState, slot: seq<int>, seen: seq<Vec>, origin: seq<int>, normals: seq<Vec>)
    requires Processed(m, st, slot, seen, origin) && |slot| == |m.triangles|
    ensures WeldOrigins(m, Mesh(st.vertices, Kept(slot), normals, st.colors, m.uv0), slot, origin)
  {
  }

  lemma WeldedNormals(m: Mesh, normalize: Vec -> Vec, st: DedupState, slot: seq<int>, seen: seq<Vec>, origin: seq<int>, normals: seq<Vec>)
    requires Processed(m, st, slot, seen, origin) && |slot| == |m.triangles|
    requires |normals| == |st.normals| && forall k :: 0 <= k < |normals| ==> normals[k] == normalize(st.normals[k])
    ensures WeldNormals(m, normalize, Mesh(st.vertices, Kept(slot), normals, st.colors, m.uv0), slot)
  {
    assert seen == CornerNormals(m);
  }

  /** The position of input corner k. */
  function CornerVertex(m: Mesh, k: int): Vec
    requires WellIndexed(m) && 0 <= k < |m.triangles|
  {
    m.vertices[m.triangles[k]]
  }

  /** No corner before k has k's key: corner k starts a new final vertex. */
  ghost predicate FirstOfKey(m: Mesh, k: int)
    requires WellIndexed(m) && 0 <= k < |m.triangles|
  {
    forall k' :: 0 <= k' < k ==> Quantize(CornerVertex(m, k')) != Quantize(CornerVertex(m, k))
  }

  /** x occurs in s. */
  ghost predicate Has(s: seq<int>, x: int) {
    exists i :: 0 <= i < |s| && s[i] == x
  }

  ghost predicate Increasing(s: seq<int>) {
    forall a, b :: 0 <= a < b < |s| ==> s[a] < s[b]
  }

  /** The origins of a weld are exactly the corners that are first of their key. */
  lemma OriginsAreFirsts(m: Mesh, out: Mesh, slot: seq<int>, origin: seq<int>)
    requires WellIndexed(m) && WeldShape(m, out, slot) && WeldOrigins(m, out, slot, origin)
    ensures forall x :: Has(origin, x) <==> 0 <= x < |m.triangles| && FirstOfKey(m, x)
  {
    forall x | Has(origin, x)
      ensures 0 <= x < |m.triangles| && FirstOfKey(m, x)
    {
      var j :| 0 <= j < |origin| && origin[j] == x;
      forall k' | 0 <= k' < x
        ensures Quantize(CornerVertex(m, k')) != Quantize(CornerVertex(m, x))
      {
        assert slot[k'] != j;
      }
    }
    forall x | 0 <= x < |m.triangles| && FirstOfKey(m, x)
      ensures Has(origin, x)
    {
      var j := slot[x];
      assert origin[j] <= x;
      assert Quantize(CornerVertex(m, origin[j])) == Quantize(CornerVertex(m, x));
      assert origin[j] == x;
    }
  }

  /** The tail of an increasing sequence holds its elements other than the first. */
  lemma IncreasingTail(a: seq<int>, x: int)
    requires Increasing(a) && |a| > 0
    ensures Increasing(a[1..])
    ensures Has(a[1..], x) <==> Has(a, x) && x != a[0]
  {
    if Has(a[1..], x) {
      var i :| 0 <= i < |a| - 1 && a[1..][i] == x;
      assert a[i + 1] == x;
    }
    if Has(a, x) && x != a[0] {
      var i :| 0 <= i < |a| && a[i] == x;
      assert a[1..][i - 1] == x;
    }
  }

  /** Two increasing sequences with the same elements are equal. */
  lemma {:induction false} IncreasingUnique(a: seq<int>, b: seq<int>)
    requires Increasing(a) && Increasing(b)
    requires forall x :: Has(a, x) <==> Has(b, x)
    ensures a == b
    decreases |a|
  {
    if |a| > 0 && |b| > 0 {
      assert Has(a, a[0]) && Has(b, b[0]);
      var i :| 0 <= i < |a| && a[i] == b[0];
      var j :| 0 <= j < |b| && b[j] == a[0];
      assert a[0] <= a[i] && b[0] <= b[j];
      forall x
        ensures Has(a[1..], x) <==> Has(b[1..], x)
      {
        IncreasingTail(a, x);
        IncreasingTail(b, x);
      }
      IncreasingTail(a, a[0]);
      IncreasingTail(b, b[0]);
      IncreasingUnique(a[1..], b[1..]);
      assert a == [a[0]] + a[1..] && b == [b[0]] + b[1..];
    } else {
      SameElementsEmpty(a, b);
    }
  }

  /** Sequences with the same elements are empty together. */
  lemma SameElementsEmpty(a: seq<int>, b: seq<int>)
    requires forall x :: Has(a, x) <==> Has(b, x)
    ensures |a| == 0 <==> |b| == 0
  {
    if |a| > 0 {
      assert Has(a, a[0]);
    }
    if |b| > 0 {
      assert Has(b, b[0]);
    }
  }

  /** Two corners that are both first of the same key are the same corner. */
  lemma FirstOfKeyUnique(m: Mesh, f1: int, f2: int)
    requires WellIndexed(m) && 0 <= f1 < |m.triangles| && 0 <= f2 < |m.triangles|
    requires FirstOfKey(m, f1) && FirstOfKey(m, f2)
    requires Quantize(CornerVertex(m, f1)) == Quantize(CornerVertex(m, f2))
    ensures f1 == f2
  {
  }

  /** An increasing sequence repeats no element. */
  lemma IncreasingInjective(s: seq<int>, a: int, b: int)
    requires Increasing(s) && 0 <= a < |s| && 0 <= b < |s| && s[a] == s[b]
    ensures a == b
  {
  }

  /** Corner k goes to the same final vertex in two welds with the same origins. */
  lemma WeldSlotAt(m: Mesh, out1: Mesh, slot1: seq<int>, out2: Mesh, slot2: seq<int>, origin: seq<int>, k: int)
    requires WellIndexed(m)
    requires WeldShape(m, out1, slot1) && WeldOrigins(m, out1, slot1, origin)
    requires WeldShape(m, out2, slot2) && WeldOrigins(m, out2, slot2, origin)
    requires forall x :: Has(origin, x) ==> 0 <= x < |m.triangles| && FirstOfKey(m, x)
    requires 0 <= k < |slot1|
    ensures slot1[k] == slot2[k]
  {
    var f1, f2 := origin[slot1[k]], origin[slot2[k]];
    assert Has(origin, f1) && Has(origin, f2);
    assert Quantize(CornerVertex(m, f1)) == Quantize(out1.vertices[slot1[k]]);
    assert Quantize(CornerVertex(m, f2)) == Quantize(out2.vertices[slot2[k]]);
    FirstOfKeyUnique(m, f1, f2);
    IncreasingInjective(origin, slot1[k], slot2[k]);
  }

  /** Two welds with the same slots and origins are the same mesh. */
  lemma WeldOutputUnique(m: Mesh, normalize: Vec -> Vec, out1: Mesh, out2: Mesh, slot: seq<int>, origin: seq<int>)
    requires Welds(m, normalize, out1, slot, origin) && Welds(m, normalize, out2, slot, origin)
    ensures out1 == out2
  {
    assert out1.vertices == out2.vertices;
    assert out1.colors == out2.colors;
    assert out1.normals == out2.normals;
  }

  /**
   * A weld of m is unique: vertices are numbered in the order their first
   * corners occur, so the output mesh, the corner slots and the origins are
   * all determined by m and the normalization.
   */
  lemma WeldUnique(m: Mesh, normalize: Vec -> Vec, out1: Mesh, slot1: seq<int>, origin1: seq<int>,
                   out2: Mesh, slot2: seq<int>, origin2: seq<int>)
    requires Welds(m, normalize, out1, slot1, origin1) && Welds(m, normalize, out2, slot2, origin2)
    ensures origin1 == origin2 && slot1 == slot2 && out1 == out2
  {
    OriginsAreFirsts(m, out1, slot1, origin1);
    OriginsAreFirsts(m, out2, slot2, origin2);
    IncreasingUnique(origin1, origin2);
    forall k | 0 <= k < |slot1|
      ensures slot1[k] == slot2[k]
    {
      WeldSlotAt(m, out1, slot1, out2, slot2, origin1, k);
    }
    assert slot1 == slot2;
    WeldOutputUnique(m, normalize, out1, out2, slot1, origin1);
  }
}
