/**
 * The terrain streamer (AGenerateTerrain): a map from chunk coordinates to
 * spawned chunks in which a null value reserves a coordinate whose chunk is
 * still waiting in a FIFO queue; each tick spawns a bounded number of queued
 * chunks, unloads chunks beyond the draw distance and reserves every chunk
 * coordinate around the player that is not yet known.
 */
module Streamer {
  import opened Geometry
  import opened Optional
  import opened Polygonizer
  import opened Persistence
  import opened MeshBuffers
  import opened VoxelGrid
  import opened Assembler
  import opened ChunkActor

  /** The header's defaults: drawDistance, frequency, size and ChunkLoadPerFrame. */
  const DefaultDrawDistance: int := 5
  const DefaultFrequency: real := 0.03
  const DefaultSize: nat := 32
  const DefaultChunkLoadPerFrame: int := 4

  /**
   * The reservation invariant: every queued coordinate is queued once and is
   * reserved (mapped to null); every reserved coordinate is queued; every
   * spawned chunk sits at the world position of its key.
   */
  ghost predicate Tracked(loaded: map<IntVec, Chunk?>, pending: seq<IntVec>, size: int) {
    && (forall i, j :: 0 <= i < j < |pending| ==> pending[i] != pending[j])
    && (forall k :: k in loaded && loaded[k] == null <==> k in pending)
    && (forall k :: k in loaded && loaded[k] != null ==> loaded[k].location == ChunkOrigin(k, size))
  }

  /** The empty streamer keeps the invariant. */
  lemma TrackedEmpty(size: int)
    ensures Tracked(map[], [], size)
  {
  }

  /** Reserving an unknown coordinate: a null placeholder and a queue entry, in the same step. */
  lemma TrackedReserve(loaded: map<IntVec, Chunk?>, pending: seq<IntVec>, size: int, c: IntVec)
    requires Tracked(loaded, pending, size) && c !in loaded
    ensures Tracked(loaded[c := null], pending + [c], size)
  {
    var p := pending + [c];
    forall i, j | 0 <= i < j < |p|
      ensures p[i] != p[j]
    {
      if j == |pending| {
        assert p[i] == pending[i];
      }
    }
  }

  /**
   * Dequeuing the head of the queue and spawning its chunk at the head's
   * position: the placeholder is replaced and the rest of the queue stays reserved.
   */
  lemma TrackedDequeue(loaded: map<IntVec, Chunk?>, pending: seq<IntVec>, size: int, chunk: Chunk)
    requires Tracked(loaded, pending, size) && |pending| > 0
    requires chunk.location == ChunkOrigin(pending[0], size)
    ensures Tracked(loaded[pending[0] := chunk], pending[1..], size)
  {
    var c := pending[0];
    var rest := pending[1..];
    forall k | k in loaded && loaded[k] == null && k != c
      ensures k in rest
    {
      var i :| 0 <= i < |pending| && pending[i] == k;
      assert rest[i - 1] == k;
    }
    forall k | k in rest
      ensures k != c
    {
      var i :| 0 <= i < |rest| && rest[i] == k;
      assert pending[i + 1] == k;
    }
  }

  /** The edits a fresh chunk holds after loading the file at path, if there is one. */
  function SavedEdits(files: map<string, string>, path: string): (mods: map<IntVec, real>)
    ensures path !in files ==> mods == map[]
  {
    if path in files then LoadText(map[], files[path]) else map[]
  }

  /** The spawn budget of one tick: ChunkLoadPerFrame, or fewer when the queue runs dry. */
  function Budget(perFrame: int, queued: nat): (n: nat)
    ensures n <= queued
    ensures perFrame <= 0 ==> n == 0
    ensures perFrame > 0 ==> n == if perFrame < queued then perFrame else queued
  {
    if perFrame <= 0 then 0 else if perFrame < queued then perFrame else queued
  }

  /** Another round of the spawn loop stays within the budget. */
  lemma BudgetLeft(perFrame: int, queued: nat, i: nat)
    requires i < perFrame && i < queued
    ensures i + 1 <= Budget(perFrame, queued)
  {
  }

  /** The spawn loop stops exactly at the budget. */
  lemma BudgetUsed(perFrame: int, queued: nat, i: nat)
    requires i <= Budget(perFrame, queued) && (i >= perFrame || i >= queued)
    ensures i == Budget(perFrame, queued)
  {
  }

  /** The unload test of Tick: a spawned chunk farther from the player than the threshold. */
  predicate Far(c: Chunk?, playerPos: Vec, dist: Metric, threshold: real) {
    c != null && dist(c.location, playerPos) > threshold
  }

  /**
   * LoadedChunks after the unload loop: every far spawned chunk removed,
   * placeholders and near chunks kept with their values.
   */
  function Unloaded(loaded: map<IntVec, Chunk?>, playerPos: Vec, dist: Metric, threshold: real): (r: map<IntVec, Chunk?>)
    ensures forall k :: k in r ==> k in loaded && r[k] == loaded[k]
    ensures forall k :: k in loaded && loaded[k] == null ==> k in r
    ensures forall k :: k in loaded && k !in r ==> loaded[k] != null && dist(loaded[k].location, playerPos) > threshold
  {
    map k | k in loaded && !Far(loaded[k], playerPos, dist, threshold) :: loaded[k]
  }

  /** Unloading removes only spawned chunks, so the queue stays reserved. */
  lemma TrackedUnload(loaded: map<IntVec, Chunk?>, pending: seq<IntVec>, size: int, playerPos: Vec, dist: Metric, threshold: real)
    requires Tracked(loaded, pending, size)
    ensures Tracked(Unloaded(loaded, playerPos, dist, threshold), pending, size)
  {
  }

  /**
   * The unload loop has visited every key outside `rest`: cur is orig with
   * the far chunks among the visited keys removed.
   */
  ghost predicate UnloadedExcept(cur: map<IntVec, Chunk?>, orig: map<IntVec, Chunk?>, rest: set<IntVec>, playerPos: Vec, dist: Metric, threshold: real) {
    && rest <= orig.Keys
    && (forall k :: k in cur <==> k in orig && (k in rest || !Far(orig[k], playerPos, dist, threshold)))
    && (forall k :: k in cur ==> cur[k] == orig[k])
  }

  /** Visiting key k: removed when far, kept otherwise. */
  lemma UnloadedStep(cur: map<IntVec, Chunk?>, orig: map<IntVec, Chunk?>, rest: set<IntVec>, playerPos: Vec, dist: Metric, threshold: real, k: IntVec)
    requires UnloadedExcept(cur, orig, rest, playerPos, dist, threshold) && k in rest
    ensures k in cur
    ensures var next := if Far(cur[k], playerPos, dist, threshold) then cur - {k} else cur;
      UnloadedExcept(next, orig, rest - {k}, playerPos, dist, threshold)
  {
  }

  /** Every key visited: the map is Unloaded(orig). */
  lemma UnloadedDone(cur: map<IntVec, Chunk?>, orig: map<IntVec, Chunk?>, playerPos: Vec, dist: Metric, threshold: real)
    requires UnloadedExcept(cur, orig, {}, playerPos, dist, threshold)
    ensures cur == Unloaded(orig, playerPos, dist, threshold)
  {
    var r := Unloaded(orig, playerPos, dist, threshold);
    assert cur.Keys == r.Keys;
  }

  /** Chunk k lies in the draw box around chunk pc: |k - pc| <= r on every axis. */
  predicate Near(k: IntVec, pc: IntVec, r: int) {
    && pc.x - r <= k.x <= pc.x + r
    && pc.y - r <= k.y <= pc.y + r
    && pc.z - r <= k.z <= pc.z + r
  }

  /**
   * The loops of GenerateWorld have visited every coordinate of the draw box
   * LexBefore (x, y, z) (absolute chunk coordinates): starting from (l0, p0),
   * each unknown one visited got a placeholder and was queued, in loop
   * order; nothing else changed.
   */
  ghost predicate ReservedBefore(l: map<IntVec, Chunk?>, p: seq<IntVec>, l0: map<IntVec, Chunk?>, p0: seq<IntVec>,
                                 pc: IntVec, r: int, x: int, y: int, z: int) {
    && |p0| <= |p| && p[..|p0|] == p0
    && (forall k :: k in l <==> k in l0 || (Near(k, pc, r) && LexBefore(k, x, y, z)))
    && (forall k :: k in l0 ==> l[k] == l0[k])
    && (forall k :: k in l && k !in l0 ==> l[k] == null)
    && (forall i :: |p0| <= i < |p| ==> p[i] !in l0 && Near(p[i], pc, r) && LexBefore(p[i], x, y, z))
    && (forall i, j :: |p0| <= i < j < |p| ==> LexBefore(p[i], p[j].x, p[j].y, p[j].z))
  }

  lemma ReservedBeforeStart(l0: map<IntVec, Chunk?>, p0: seq<IntVec>, pc: IntVec, r: int)
    ensures ReservedBefore(l0, p0, l0, p0, pc, r, pc.x - r, pc.y - r, pc.z - r)
  {
  }

  /** Visiting (x, y, z): an unknown coordinate is reserved and queued, a known one is left alone. */
  lemma ReservedBeforeStep(l: map<IntVec, Chunk?>, p: seq<IntVec>, l0: map<IntVec, Chunk?>, p0: seq<IntVec>,
                           pc: IntVec, r: int, x: int, y: int, z: int)
    requires ReservedBefore(l, p, l0, p0, pc, r, x, y, z) && Near(IntVec(x, y, z), pc, r)
    ensures var c := IntVec(x, y, z);
      if c in l then ReservedBefore(l, p, l0, p0, pc, r, x, y, z + 1)
      else ReservedBefore(l[c := null], p + [c], l0, p0, pc, r, x, y, z + 1)
  {
    var c := IntVec(x, y, z);
    if c !in l {
      var p' := p + [c];
      assert p'[..|p0|] == p0 by {
        assert p'[..|p0|] == p[..|p0|];
      }
      forall i | |p0| <= i < |p'|
        ensures p'[i] !in l0 && Near(p'[i], pc, r) && LexBefore(p'[i], x, y, z + 1)
      {
        if i < |p| {
          assert p'[i] == p[i];
        }
      }
      forall i, j | |p0| <= i < j < |p'|
        ensures LexBefore(p'[i], p'[j].x, p'[j].y, p'[j].z)
      {
        assert p'[i] == p[i];
      }
    }
  }

  /** The Z loop is done: the next row starts at the bottom of the box. */
  lemma ReservedBeforeRow(l: map<IntVec, Chunk?>, p: seq<IntVec>, l0: map<IntVec, Chunk?>, p0: seq<IntVec>,
                          pc: IntVec, r: int, x: int, y: int)
    requires ReservedBefore(l, p, l0, p0, pc, r, x, y, pc.z + r + 1)
    ensures ReservedBefore(l, p, l0, p0, pc, r, x, y + 1, pc.z - r)
  {
  }

  /** The Y loop is done: the next slice starts at the front of the box. */
  lemma ReservedBeforeSlice(l: map<IntVec, Chunk?>, p: seq<IntVec>, l0: map<IntVec, Chunk?>, p0: seq<IntVec>,
                            pc: IntVec, r: int, x: int)
    requires ReservedBefore(l, p, l0, p0, pc, r, x, pc.y + r + 1, pc.z - r)
    ensures ReservedBefore(l, p, l0, p0, pc, r, x + 1, pc.y - r, pc.z - r)
  {
  }

  /**
   * What GenerateWorld makes of (l0, p0) around chunk pc: every coordinate
   * of the draw box is known; exactly the unknown ones were added, as
   * placeholders, and queued after p0 in loop order; every entry l0 had
   * keeps its value.
   */
  ghost predicate Reserved(l: map<IntVec, Chunk?>, p: seq<IntVec>, l0: map<IntVec, Chunk?>, p0: seq<IntVec>, pc: IntVec, r: int) {
    && (forall k :: Near(k, pc, r) ==> k in l)
    && (forall k :: k in l <==> k in l0 || Near(k, pc, r))
    && (forall k :: k in l0 ==> l[k] == l0[k])
    && (forall k :: k in l && k !in l0 ==> l[k] == null)
    && |p0| <= |p| && p[..|p0|] == p0
    && (forall i :: |p0| <= i < |p| ==> p[i] !in l0 && Near(p[i], pc, r))
    && (forall i, j :: |p0| <= i < j < |p| ==> LexBefore(p[i], p[j].x, p[j].y, p[j].z))
  }

  /** The X loop is done: the whole draw box has been visited. */
  lemma ReservedBeforeDone(l: map<IntVec, Chunk?>, p: seq<IntVec>, l0: map<IntVec, Chunk?>, p0: seq<IntVec>, pc: IntVec, r: int)
    requires ReservedBefore(l, p, l0, p0, pc, r, pc.x + r + 1, pc.y - r, pc.z - r)
    ensures Reserved(l, p, l0, p0, pc, r)
  {
  }

  /**
   * The unload loop followed by GenerateWorld: no spawned chunk farther than
   * the threshold is left, and every entry that was not far keeps its value.
   */
  lemma UnloadedThenReserved(l: map<IntVec, Chunk?>, p: seq<IntVec>, l0: map<IntVec, Chunk?>, p0: seq<IntVec>, pc: IntVec, r: int,
                             playerPos: Vec, dist: Metric, threshold: real)
    requires Reserved(l, p, Unloaded(l0, playerPos, dist, threshold), p0, pc, r)
    ensures forall k :: k in l ==> !Far(l[k], playerPos, dist, threshold)
    ensures forall k :: k in l0 && !Far(l0[k], playerPos, dist, threshold) ==> k in l && l[k] == l0[k]
  {
  }

  /** The spawn loop replaces placeholders only: every chunk spawned before it is kept. */
  lemma SpawnedKeepsChunks(l: map<IntVec, Chunk?>, l0: map<IntVec, Chunk?>, p0: seq<IntVec>, n: nat, size: int)
    requires Tracked(l0, p0, size) && SpawnedUpTo(l, l0, p0, n)
    ensures forall k :: k in l0 && l0[k] != null ==> k in l && l[k] == l0[k]
  {
  }

  /** AGenerateTerrain: the streamer actor. */
  class GenerateTerrain {
    const drawDistance: int
    const frequency: real
    const size: nat
    const material: nat
    const ChunkLoadPerFrame: int
    /**
     * The level the Generation copy passes to every chunk it spawns; None for
     * the root copy, whose chunks keep their own default.
     */
    const surfaceLevel: Option<real>
    /** The marching-cubes tables every chunk uses. */
    const tables: ShapedTables
    /** The save directory, FPaths::ProjectSavedDir() / "VoxelChunks", which the chunks' save and load paths use. */
    const saveDir: string

    var LoadedChunks: map<IntVec, Chunk?>
    /** The TQueue, head first. */
    var PendingChunks: seq<IntVec>

    ghost predicate Valid()
      reads this`LoadedChunks, this`PendingChunks
    {
      size > 0 && Tracked(LoadedChunks, PendingChunks, size)
    }

    /** The streamer as placed in the level: its editable settings, nothing loaded or queued. */
    constructor (drawDistance: int, frequency: real, size: nat, material: nat, chunkLoadPerFrame: int,
                 surfaceLevel: Option<real>, tables: ShapedTables, saveDir: string)
      requires size > 0
      ensures this.drawDistance == drawDistance && this.frequency == frequency && this.size == size
      ensures this.material == material && ChunkLoadPerFrame == chunkLoadPerFrame
      ensures this.surfaceLevel == surfaceLevel && this.tables == tables && this.saveDir == saveDir
      ensures LoadedChunks == map[] && PendingChunks == []
      ensures Valid()
    {
      this.drawDistance := drawDistance;
      this.frequency := frequency;
      this.size := size;
      this.material := material;
      ChunkLoadPerFrame := chunkLoadPerFrame;
      this.surfaceLevel := surfaceLevel;
      this.tables := tables;
      this.saveDir := saveDir;
      LoadedChunks := map[];
      PendingChunks := [];
      new;
      TrackedEmpty(size);
    }

    /** The streamer with the header's default settings. */
    constructor Defaults(material: nat, surfaceLevel: Option<real>, tables: ShapedTables, saveDir: string)
      ensures drawDistance == DefaultDrawDistance && frequency == DefaultFrequency && size == DefaultSize
      ensures ChunkLoadPerFrame == DefaultChunkLoadPerFrame && this.material == material
      ensures this.surfaceLevel == surfaceLevel && this.tables == tables && this.saveDir == saveDir
      ensures LoadedChunks == map[] && PendingChunks == []
      ensures Valid()
    {
      drawDistance := DefaultDrawDistance;
      frequency := DefaultFrequency;
      size := DefaultSize;
      this.material := material;
      ChunkLoadPerFrame := DefaultChunkLoadPerFrame;
      this.surfaceLevel := surfaceLevel;
      this.tables := tables;
      this.saveDir := saveDir;
      LoadedChunks := map[];
      PendingChunks := [];
      new;
      TrackedEmpty(size);
    }

    /** The surface level a spawned chunk ends up with. */
    function ChunkSurfaceLevel(): real {
      if surfaceLevel.Some? then surfaceLevel.value else DefaultSurfaceLevel
    }

    /** `drawDistance * size * 100`: the unload distance in world units. */
    function UnloadDistance(): real {
      (drawDistance * ChunkWorldSize(size)) as real
    }

    /**
     * GetPlayerChunk: the chunk whose cube contains the player,
     * `FloorToInt(pos / (size * 100))` per axis.
     */
    function GetPlayerChunk(playerPos: Vec): (c: IntVec)
      requires size > 0
      ensures ChunkOrigin(c, size).x <= playerPos.x < ChunkOrigin(c, size).x + ChunkWorldSize(size) as real
      ensures ChunkOrigin(c, size).y <= playerPos.y < ChunkOrigin(c, size).y + ChunkWorldSize(size) as real
      ensures ChunkOrigin(c, size).z <= playerPos.z < ChunkOrigin(c, size).z + ChunkWorldSize(size) as real
    {
      ChunkCoordOf(playerPos, size)
    }

    /**
     * SpawnChunkAt: a chunk at `coords * size * 100` with the streamer's
     * frequency, material, size (and, in the Generation copy, surface level);
     * its saved edits are loaded before it finishes spawning, which runs its
     * BeginPlay; it replaces the entry at coords.
     */
    method SpawnChunkAt(c: IntVec, engine: Engine, files: map<string, string>) returns (chunk: Chunk)
      requires size > 0 && c in LoadedChunks
      modifies this`LoadedChunks
      ensures fresh(chunk) && LoadedChunks == old(LoadedChunks)[c := chunk]
      ensures chunk.location == ChunkOrigin(c, size)
      ensures chunk.frequency == frequency && chunk.material == material && chunk.size == size
      ensures surfaceLevel.Some? ==> chunk.surfaceLevel == surfaceLevel.value
      ensures surfaceLevel.None? ==> chunk.surfaceLevel == DefaultSurfaceLevel
      ensures chunk.tables == tables
      ensures chunk.modifications == SavedEdits(files, FilePath(saveDir, c))
      ensures chunk.Valid() && |chunk.Voxels| == GridLength(size)
      ensures HeightMapped(chunk.Voxels, size, engine.noise, frequency, chunk.GridOrigin())
      ensures chunk.meshData.Value() == Merged(SectionMeshes(chunk.Input(engine.shading, chunk.Voxels, chunk.modifications), SectionCount(engine.cores)))
      ensures WellIndexed(chunk.meshData.Value())
      ensures chunk.TriangleOrder == WindingOrder(chunk.surfaceLevel)
      ensures Welds(chunk.meshData.Value(), engine.normalize, chunk.section, chunk.weldSlot, chunk.weldOrigin)
      ensures SpawnedAt(chunk, c, engine, files)
    {
      var worldPos := ChunkOrigin(c, size);
      chunk := new Chunk(worldPos, frequency, material, size, ChunkSurfaceLevel(), tables);
      ChunkCoordOfOrigin(c, size);
      chunk.LoadModifications(saveDir, files);
      chunk.BeginPlay(engine);
      LoadedChunks := LoadedChunks[c := chunk];
    }

    /**
     * What SpawnChunkAt(c) leaves: a chunk at c's origin with the streamer's
     * settings, the edits saved for c, and BeginPlay's generated state.
     */
    ghost predicate SpawnedAt(chunk: Chunk, c: IntVec, engine: Engine, files: map<string, string>)
      reads chunk, chunk.meshData
    {
      && chunk.location == ChunkOrigin(c, size)
      && chunk.frequency == frequency && chunk.material == material && chunk.size == size
      && chunk.surfaceLevel == ChunkSurfaceLevel() && chunk.tables == tables
      && chunk.modifications == SavedEdits(files, FilePath(saveDir, c))
      && chunk.Generated(engine)
    }

    /** One round of the spawn loop of Tick: the head of the queue, p0[i], dequeued and spawned. */
    method LoadNext(engine: Engine, files: map<string, string>, ghost l0: map<IntVec, Chunk?>, ghost p0: seq<IntVec>, ghost i: nat)
      requires Valid() && i < |p0| && PendingChunks == p0[i..] && SpawnedUpTo(LoadedChunks, l0, p0, i)
      requires forall j :: 0 <= j < i ==> SpawnedAt(LoadedChunks[p0[j]], p0[j], engine, files)
      modifies this`LoadedChunks, this`PendingChunks
      ensures Valid() && PendingChunks == p0[i + 1..] && SpawnedUpTo(LoadedChunks, l0, p0, i + 1)
      ensures forall j :: 0 <= j <= i ==> SpawnedAt(LoadedChunks[p0[j]], p0[j], engine, files)
      ensures p0[i] in LoadedChunks && LoadedChunks[p0[i]] != null
      ensures fresh(LoadedChunks[p0[i]]) && SpawnedAt(LoadedChunks[p0[i]], p0[i], engine, files)
      ensures forall k :: k in old(LoadedChunks) && k != p0[i] ==> k in LoadedChunks && LoadedChunks[k] == old(LoadedChunks)[k]
    {
      ghost var l := LoadedChunks;
      var c := PendingChunks[0];
      PendingChunks := PendingChunks[1..];
      var chunk := SpawnChunkAt(c, engine, files);
      TrackedDequeue(l, p0[i..], size, chunk);
      SpawnedStep(l, LoadedChunks, l0, p0, i);
      forall j | 0 <= j <= i
        ensures SpawnedAt(LoadedChunks[p0[j]], p0[j], engine, files)
      {
        if p0[j] != c {
          assert LoadedChunks[p0[j]] == l[p0[j]];
        }
      }
    }

    /**
     * The spawn loop of Tick: at most ChunkLoadPerFrame coordinates dequeued
     * in FIFO order, fewer when the queue empties; each one's placeholder is
     * replaced by a spawned chunk and no other entry changes.
     */
    method LoadPending(engine: Engine, files: map<string, string>)
      requires Valid()
      modifies this`LoadedChunks, this`PendingChunks
      ensures Valid()
      ensures var n := Budget(ChunkLoadPerFrame, |old(PendingChunks)|);
        PendingChunks == old(PendingChunks)[n..] && SpawnedUpTo(LoadedChunks, old(LoadedChunks), old(PendingChunks), n)
      ensures forall j :: 0 <= j < Budget(ChunkLoadPerFrame, |old(PendingChunks)|) ==>
        var k := old(PendingChunks)[j];
        k in LoadedChunks && LoadedChunks[k] != null && fresh(LoadedChunks[k]) && SpawnedAt(LoadedChunks[k], k, engine, files)
    {
      ghost var l0, p0 := LoadedChunks, PendingChunks;
      ghost var n := Budget(ChunkLoadPerFrame, |p0|);
      SpawnedNone(l0, p0);
      var i := 0;
      while i < ChunkLoadPerFrame && |PendingChunks| > 0
        invariant Valid() && i <= n && PendingChunks == p0[i..] && SpawnedUpTo(LoadedChunks, l0, p0, i)
        invariant forall j :: 0 <= j < i ==> fresh(LoadedChunks[p0[j]])
        invariant forall j :: 0 <= j < i ==> SpawnedAt(LoadedChunks[p0[j]], p0[j], engine, files)
      {
        BudgetLeft(ChunkLoadPerFrame, |p0|, i);
        LoadNext(engine, files, l0, p0, i);
        i := i + 1;
      }
      BudgetUsed(ChunkLoadPerFrame, |p0|, i);
    }

    /**
     * The unload loop of Tick: every spawned chunk farther than
     * drawDistance * size * 100 from the player is destroyed and removed;
     * placeholders are never removed.
     */
    method UnloadFarChunks(playerPos: Vec, dist: Metric)
      modifies this`LoadedChunks
      ensures LoadedChunks == Unloaded(old(LoadedChunks), playerPos, dist, UnloadDistance())
    {
      var threshold := UnloadDistance();
      ghost var orig := LoadedChunks;
      var rest := LoadedChunks.Keys;
      while rest != {}
        invariant UnloadedExcept(LoadedChunks, orig, rest, playerPos, dist, threshold)
        decreases |rest|
      {
        var k :| k in rest;
        UnloadedStep(LoadedChunks, orig, rest, playerPos, dist, threshold, k);
        if LoadedChunks[k] != null && dist(LoadedChunks[k].location, playerPos) > threshold {
          LoadedChunks := LoadedChunks - {k};
        }
        rest := rest - {k};
      }
      UnloadedDone(LoadedChunks, orig, playerPos, dist, threshold);
    }

    /** The body of the Z loop of GenerateWorld: an unknown coordinate is queued and reserved. */
    method Reserve(c: IntVec)
      modifies this`LoadedChunks, this`PendingChunks
      ensures c in old(LoadedChunks) ==> LoadedChunks == old(LoadedChunks) && PendingChunks == old(PendingChunks)
      ensures c !in old(LoadedChunks) ==>
        LoadedChunks == old(LoadedChunks)[c := null] && PendingChunks == old(PendingChunks) + [c]
    {
      if c !in LoadedChunks {
        PendingChunks := PendingChunks + [c];
        LoadedChunks := LoadedChunks[c := null];
      }
    }

    /**
     * GenerateWorld: every chunk coordinate within drawDistance of the
     * player's chunk on every axis becomes known; the unknown ones are
     * reserved and queued after what was queued before, in loop order
     * (X outermost); known entries are untouched.
     */
    method GenerateWorld(playerPos: Vec)
      requires Valid()
      modifies this`LoadedChunks, this`PendingChunks
      ensures Valid()
      ensures Reserved(LoadedChunks, PendingChunks, old(LoadedChunks), old(PendingChunks), GetPlayerChunk(playerPos), drawDistance)
    {
      var pc := GetPlayerChunk(playerPos);
      ghost var l0, p0 := LoadedChunks, PendingChunks;
      var r := drawDistance;
      ReservedBeforeStart(l0, p0, pc, r);
      if r >= 0 {
        for x := pc.x - r to pc.x + r + 1
          invariant Valid()
          invariant ReservedBefore(LoadedChunks, PendingChunks, l0, p0, pc, r, x, pc.y - r, pc.z - r)
        {
          ReserveSlice(pc, x, l0, p0);
        }
      }
      ReservedBeforeDone(LoadedChunks, PendingChunks, l0, p0, pc, r);
    }

    /**
     * The Y loop of GenerateWorld for the slice at chunk X coordinate x; the
     * loops run over chunk coordinates, PlayerChunk plus the offset.
     */
    method ReserveSlice(pc: IntVec, x: int, ghost l0: map<IntVec, Chunk?>, ghost p0: seq<IntVec>)
      requires Valid() && drawDistance >= 0 && pc.x - drawDistance <= x <= pc.x + drawDistance
      requires ReservedBefore(LoadedChunks, PendingChunks, l0, p0, pc, drawDistance, x, pc.y - drawDistance, pc.z - drawDistance)
      modifies this`LoadedChunks, this`PendingChunks
      ensures Valid()
      ensures ReservedBefore(LoadedChunks, PendingChunks, l0, p0, pc, drawDistance, x + 1, pc.y - drawDistance, pc.z - drawDistance)
    {
      for y := pc.y - drawDistance to pc.y + drawDistance + 1
        invariant Valid()
        invariant ReservedBefore(LoadedChunks, PendingChunks, l0, p0, pc, drawDistance, x, y, pc.z - drawDistance)
      {
        ReserveRow(pc, x, y, l0, p0);
      }
      ReservedBeforeSlice(LoadedChunks, PendingChunks, l0, p0, pc, drawDistance, x);
    }

    /** The Z loop of GenerateWorld for the row at chunk coordinates (x, y). */
    method ReserveRow(pc: IntVec, x: int, y: int, ghost l0: map<IntVec, Chunk?>, ghost p0: seq<IntVec>)
      requires Valid() && drawDistance >= 0
      requires pc.x - drawDistance <= x <= pc.x + drawDistance && pc.y - drawDistance <= y <= pc.y + drawDistance
      requires ReservedBefore(LoadedChunks, PendingChunks, l0, p0, pc, drawDistance, x, y, pc.z - drawDistance)
      modifies this`LoadedChunks, this`PendingChunks
      ensures Valid()
      ensures ReservedBefore(LoadedChunks, PendingChunks, l0, p0, pc, drawDistance, x, y + 1, pc.z - drawDistance)
    {
      for z := pc.z - drawDistance to pc.z + drawDistance + 1
        invariant Valid()
        invariant ReservedBefore(LoadedChunks, PendingChunks, l0, p0, pc, drawDistance, x, y, z)
      {
        ReserveCell(pc, x, y, z, l0, p0);
      }
      ReservedBeforeRow(LoadedChunks, PendingChunks, l0, p0, pc, drawDistance, x, y);
    }

    /** One round of the Z loop: chunk (x, y, z) reserved if unknown, with both invariants kept. */
    method ReserveCell(pc: IntVec, x: int, y: int, z: int, ghost l0: map<IntVec, Chunk?>, ghost p0: seq<IntVec>)
      requires Valid() && Near(IntVec(x, y, z), pc, drawDistance)
      requires ReservedBefore(LoadedChunks, PendingChunks, l0, p0, pc, drawDistance, x, y, z)
      modifies this`LoadedChunks, this`PendingChunks
      ensures Valid()
      ensures ReservedBefore(LoadedChunks, PendingChunks, l0, p0, pc, drawDistance, x, y, z + 1)
    {
      var c := IntVec(x, y, z);
      ReservedBeforeStep(LoadedChunks, PendingChunks, l0, p0, pc, drawDistance, x, y, z);
      if c !in LoadedChunks {
        TrackedReserve(LoadedChunks, PendingChunks, size, c);
      }
      Reserve(c);
    }

    /** BeginPlay: the first reservation round around the player. */
    method BeginPlay(playerPos: Vec)
      requires Valid()
      modifies this`LoadedChunks, this`PendingChunks
      ensures Valid()
      ensures Reserved(LoadedChunks, PendingChunks, old(LoadedChunks), old(PendingChunks), GetPlayerChunk(playerPos), drawDistance)
    {
      GenerateWorld(playerPos);
    }

    /**
     * Tick: spawn up to ChunkLoadPerFrame queued chunks, unload the far ones,
     * then reserve the draw box around the player again. `spawned` is the map
     * between the spawn loop and the unload loop. Afterwards the first n
     * queued coordinates have left the queue in FIFO order, what is queued
     * anew lies in the draw box, every chunk of the draw box is known, no
     * far chunk is left, and every chunk spawned before that was not far is
     * kept as it was.
     */
    method Tick(playerPos: Vec, dist: Metric, engine: Engine, files: map<string, string>)
      returns (ghost spawned: map<IntVec, Chunk?>)
      requires Valid()
      modifies this`LoadedChunks, this`PendingChunks
      ensures Valid()
      ensures var n := Budget(ChunkLoadPerFrame, |old(PendingChunks)|);
        && SpawnedUpTo(spawned, old(LoadedChunks), old(PendingChunks), n)
        && Reserved(LoadedChunks, PendingChunks, Unloaded(spawned, playerPos, dist, UnloadDistance()),
                    old(PendingChunks)[n..], GetPlayerChunk(playerPos), drawDistance)
      ensures var n := Budget(ChunkLoadPerFrame, |old(PendingChunks)|);
        && |old(PendingChunks)| - n <= |PendingChunks|
        && PendingChunks[..|old(PendingChunks)| - n] == old(PendingChunks)[n..]
        && (forall i :: |old(PendingChunks)| - n <= i < |PendingChunks| ==>
              Near(PendingChunks[i], GetPlayerChunk(playerPos), drawDistance))
      ensures forall j :: 0 <= j < Budget(ChunkLoadPerFrame, |old(PendingChunks)|) ==>
        var k := old(PendingChunks)[j];
        k in spawned && spawned[k] != null && fresh(spawned[k]) && SpawnedAt(spawned[k], k, engine, files)
      ensures forall k :: k in spawned && !Far(spawned[k], playerPos, dist, UnloadDistance()) ==>
        k in LoadedChunks && LoadedChunks[k] == spawned[k]
      ensures forall k :: Near(k, GetPlayerChunk(playerPos), drawDistance) ==> k in LoadedChunks
      ensures forall k :: k in LoadedChunks ==> !Far(LoadedChunks[k], playerPos, dist, UnloadDistance())
      ensures forall k :: k in old(LoadedChunks) && old(LoadedChunks)[k] != null && !Far(old(LoadedChunks)[k], playerPos, dist, UnloadDistance()) ==>
        k in LoadedChunks && LoadedChunks[k] == old(LoadedChunks)[k]
    {
      ghost var l0, p0 := LoadedChunks, PendingChunks;
      LoadPending(engine, files);
      spawned := LoadedChunks;
      SpawnedKeepsChunks(spawned, l0, p0, Budget(ChunkLoadPerFrame, |p0|), size);
      UnloadAndReserve(playerPos, dist);
    }

    /**
     * The second half of Tick: the unload loop, then GenerateWorld. No
     * spawned chunk farther than UnloadDistance() is left, and every entry
     * that was not far keeps its value.
     */
    method UnloadAndReserve(playerPos: Vec, dist: Metric)
      requires Valid()
      modifies this`LoadedChunks, this`PendingChunks
      ensures Valid()
      ensures Reserved(LoadedChunks, PendingChunks, Unloaded(old(LoadedChunks), playerPos, dist, UnloadDistance()),
                       old(PendingChunks), GetPlayerChunk(playerPos), drawDistance)
      ensures forall k :: k in LoadedChunks ==> !Far(LoadedChunks[k], playerPos, dist, UnloadDistance())
      ensures forall k :: k in old(LoadedChunks) && !Far(old(LoadedChunks)[k], playerPos, dist, UnloadDistance()) ==>
        k in LoadedChunks && LoadedChunks[k] == old(LoadedChunks)[k]
    {
      ghost var l, p := LoadedChunks, PendingChunks;
      UnloadFarChunks(playerPos, dist);
      TrackedUnload(l, PendingChunks, size, playerPos, dist, UnloadDistance());
      GenerateWorld(playerPos);
      UnloadedThenReserved(LoadedChunks, PendingChunks, l, p, GetPlayerChunk(playerPos), drawDistance, playerPos, dist, UnloadDistance());
    }
  }

  /**
   * The spawn loop has handled p0[..i]: the same keys as l0, those i
   * entries spawned, every other entry as in l0.
   */
  ghost predicate SpawnedUpTo(l: map<IntVec, Chunk?>, l0: map<IntVec, Chunk?>, p0: seq<IntVec>, i: nat) {
    && i <= |p0|
    && l.Keys == l0.Keys
    && (forall j :: 0 <= j < i ==> p0[j] in l && l[p0[j]] != null)
    && (forall k :: k in l0 && k !in p0[..i] ==> l[k] == l0[k])
  }

  lemma SpawnedNone(l0: map<IntVec, Chunk?>, p0: seq<IntVec>)
    ensures SpawnedUpTo(l0, l0, p0, 0)
  {
  }

  /** Spawning p0[i], whose key is already known, extends the handled prefix by one. */
  lemma SpawnedStep(l: map<IntVec, Chunk?>, l': map<IntVec, Chunk?>, l0: map<IntVec, Chunk?>, p0: seq<IntVec>, i: nat)
    requires SpawnedUpTo(l, l0, p0, i) && i < |p0| && p0[i] in l
    requires p0[i] in l' && l'[p0[i]] != null && l' == l[p0[i] := l'[p0[i]]]
    ensures SpawnedUpTo(l', l0, p0, i + 1)
  {
    assert p0[..i + 1] == p0[..i] + [p0[i]];
  }
}
