/**
 * Integer and real 3-vectors (FIntVector, FVector) and the mapping between
 * chunk coordinates and world positions that both the chunk actor and the
 * streamer use. Floating-point coordinates are modelled as reals.
 */
module Geometry {

  /** FIntVector: a voxel coordinate or a chunk coordinate. */
  datatype IntVec = IntVec(x: int, y: int, z: int) {
    function Plus(o: IntVec): IntVec {
      IntVec(x + o.x, y + o.y, z + o.z)
    }
  }

  /**
   * k is visited before (x, y, z) by three nested loops over X, Y and Z, X
   * outermost: the order of the grid, brush and chunk-reservation loops.
   */
  predicate LexBefore(k: IntVec, x: int, y: int, z: int) {
    k.x < x || (k.x == x && (k.y < y || (k.y == y && k.z < z)))
  }

  /** FVector with float components modelled as reals. */
  datatype Vec = Vec(x: real, y: real, z: real) {
    function Plus(o: Vec): Vec {
      Vec(x + o.x, y + o.y, z + o.z)
    }
    function Minus(o: Vec): Vec {
      Vec(x - o.x, y - o.y, z - o.z)
    }
    function Scale(k: real): Vec {
      Vec(k * x, k * y, k * z)
    }
  }

  const Zero: Vec := Vec(0.0, 0.0, 0.0)

  /** Unreal units (centimetres) per voxel: the `* 100` and `/ 100` of the source. */
  const UnitsPerVoxel: int := 100

  /**
   * A distance function such as FVector::Dist. The square root is not
   * modelled; all that the model relies on is that a distance is never negative.
   */
  type Metric = d: (Vec, Vec) -> real | forall a: Vec, b: Vec :: d(a, b) >= 0.0
    witness (a: Vec, b: Vec) => 0.0

  /** Edge length of a chunk in world units: `size * 100`. */
  function ChunkWorldSize(size: int): int {
    size * UnitsPerVoxel
  }

  /** World position of a chunk: `coords * size * 100` per axis (SpawnChunkAt). */
  function ChunkOrigin(c: IntVec, size: int): Vec {
    var w := ChunkWorldSize(size);
    Vec((c.x * w) as real, (c.y * w) as real, (c.z * w) as real)
  }

  /** FMath::FloorToInt(p / w): the cell of width w that contains p. */
  function FloorDiv(p: real, w: int): (r: int)
    requires w > 0
    ensures (r * w) as real <= p < ((r + 1) * w) as real
  {
    var wr := w as real;
    var q := p / wr;
    var r := q.Floor;
    MulMonotone(r as real, q, wr);
    MulMonotone(q, r as real + 1.0, wr);
    assert q * wr == p;
    assert (r * w) as real == (r as real) * wr;
    assert ((r + 1) * w) as real == (r as real + 1.0) * wr;
    r
  }

  lemma MulMonotone(a: real, b: real, w: real)
    requires w > 0.0
    ensures a <= b ==> a * w <= b * w
    ensures a < b ==> a * w < b * w
  {
  }

  /**
   * The chunk containing world position p: `FloorToInt(p / (size * 100))`
   * per axis (GetPlayerChunk, and the chunk coordinate of the save files).
   * The result is the unique chunk whose cube contains p.
   */
  function ChunkCoordOf(p: Vec, size: int): (c: IntVec)
    requires size > 0
    ensures ChunkOrigin(c, size).x <= p.x < ChunkOrigin(c, size).x + ChunkWorldSize(size) as real
    ensures ChunkOrigin(c, size).y <= p.y < ChunkOrigin(c, size).y + ChunkWorldSize(size) as real
    ensures ChunkOrigin(c, size).z <= p.z < ChunkOrigin(c, size).z + ChunkWorldSize(size) as real
  {
    var w := ChunkWorldSize(size);
    IntVec(FloorDiv(p.x, w), FloorDiv(p.y, w), FloorDiv(p.z, w))
  }

  /** The floor of p / w is determined by the cell that contains p. */
  lemma FloorDivUnique(p: real, w: int, k: int)
    requires w > 0
    requires (k * w) as real <= p < ((k + 1) * w) as real
    ensures FloorDiv(p, w) == k
  {
    var r := FloorDiv(p, w);
    assert r < k + 1 by {
      assert (r * w) as real < ((k + 1) * w) as real;
      MulCancel(r, k + 1, w);
    }
    assert k < r + 1 by {
      assert (k * w) as real < ((r + 1) * w) as real;
      MulCancel(k, r + 1, w);
    }
  }

  lemma MulCancel(a: int, b: int, w: int)
    requires w > 0 && a * w < b * w
    ensures a < b
  {
  }

  /**
   * A chunk spawned at coordinate c has the coordinate c again when its
   * location is divided back (so its save file is named after c).
   */
  lemma ChunkCoordOfOrigin(c: IntVec, size: int)
    requires size > 0
    ensures ChunkCoordOf(ChunkOrigin(c, size), size) == c
  {
    var w := ChunkWorldSize(size);
    FloorDivUnique((c.x * w) as real, w, c.x);
    FloorDivUnique((c.y * w) as real, w, c.y);
    FloorDivUnique((c.z * w) as real, w, c.z);
  }

  /** Distinct chunk coordinates have distinct world positions. */
  lemma ChunkOriginInjective(a: IntVec, b: IntVec, size: int)
    requires size > 0
    requires ChunkOrigin(a, size) == ChunkOrigin(b, size)
    ensures a == b
  {
    ChunkCoordOfOrigin(a, size);
    ChunkCoordOfOrigin(b, size);
  }
}
