/**
 * The density field of one chunk: a dense (size+1)^3 grid of base samples,
 * addressed through a flat index, plus a sparse map of edit deltas; and the
 * linear interpolation the polygonizer uses along a cube edge.
 */
module VoxelGrid {
  import opened Geometry

  /**
   * a * b as repeated addition. The grid's length and the flat index are
   * written with it, so that the solver sees their products only where
   * TimesIsProduct is called.
   */
  function Times(a: int, b: nat): int {
    if b == 0 then 0 else Times(a, b - 1) + a
  }

  lemma {:induction false} TimesIsProduct(a: int, b: nat)
    ensures Times(a, b) == a * b
  {
    if b > 0 {
      TimesIsProduct(a, b - 1);
      Distribute(b - 1, a);
      assert (b - 1) * a == a * (b - 1);
    }
  }

  /** Number of samples the grid holds: (size+1)^3. */
  function GridLength(size: nat): nat {
    var n := size + 1;
    TimesIsProduct(n, n);
    TimesIsProduct(n * n, n);
    Times(Times(n, n), n)
  }

  /** GridLength is Setup's `(size+1)*(size+1)*(size+1)`. */
  lemma GridLengthCube(size: nat)
    ensures GridLength(size) == (size + 1) * (size + 1) * (size + 1)
  {
    var n := size + 1;
    TimesIsProduct(n, n);
    TimesIsProduct(n * n, n);
  }

  /** (x, y, z) addresses a sample of the grid: every coordinate in [0, size]. */
  predicate InGrid(size: nat, x: int, y: int, z: int) {
    0 <= x <= size && 0 <= y <= size && 0 <= z <= size
  }

  /**
   * GetVoxelIndex: the Z-major flat offset `x + y * (size+1) + z * (size+1)^2`
   * of a sample. Every sample of the grid lands inside the array Setup allocates.
   */
  function GetVoxelIndex(size: nat, x: int, y: int, z: int): (i: int)
    ensures InGrid(size, x, y, z) ==> 0 <= i < GridLength(size)
  {
    var n := size + 1;
    IndexFormula(n, x, y, z);
    if InGrid(size, x, y, z) then
      IndexBound(n, x, y, z);
      GridLengthCube(size);
      Times(Times(z, n), n) + Times(y, n) + x
    else
      Times(Times(z, n), n) + Times(y, n) + x
  }

  lemma IndexFormula(n: nat, x: int, y: int, z: int)
    ensures Times(Times(z, n), n) + Times(y, n) + x == z * n * n + y * n + x
  {
    TimesIsProduct(z, n);
    TimesIsProduct(z * n, n);
    TimesIsProduct(y, n);
  }

  /** The flat index in Horner form: (z * n + y) * n + x. */
  lemma NestedIndex(n: nat, x: int, y: int, z: int)
    ensures Times(Times(z, n), n) + Times(y, n) + x == (z * n + y) * n + x
  {
    TimesIsProduct(z, n);
    TimesIsProduct(z * n, n);
    TimesIsProduct(y, n);
    AddMul(z * n, y, n);
  }

  lemma AddMul(a: int, b: int, n: int)
    ensures (a + b) * n == a * n + b * n
  {
  }

  /** GetVoxelIndex as the closed formula. */
  lemma GetVoxelIndexFormula(size: nat, x: int, y: int, z: int)
    ensures var n := size + 1; GetVoxelIndex(size, x, y, z) == z * n * n + y * n + x
  {
    IndexFormula(size + 1, x, y, z);
  }

  lemma IndexBound(n: nat, x: int, y: int, z: int)
    requires 0 <= x < n && 0 <= y < n && 0 <= z < n
    ensures 0 <= z * n * n + y * n + x < n * n * n
  {
    var nn := n * n;
    RowBound(n, x, y);
    MulLe(z + 1, n, nn);
    MulLe(0, z, nn);
    Distribute(z, nn);
    Associate(z, n);
    Associate(n, n);
  }

  /** Within one Z layer the offset stays below n * n. */
  lemma RowBound(n: nat, x: int, y: int)
    requires 0 <= x < n && 0 <= y < n
    ensures 0 <= y * n + x < n * n
  {
    MulLe(y, n - 1, n);
    MulLe(0, y, n);
    Distribute(n - 1, n);
  }

  lemma Distribute(a: int, b: int)
    ensures (a + 1) * b == a * b + b
  {
  }

  lemma Associate(a: int, n: int)
    ensures a * n * n == a * (n * n)
  {
  }

  lemma MulLe(a: int, b: int, c: nat)
    requires a <= b
    ensures a * c <= b * c
  {
  }

  /** Euclidean division undoes `q * n + r` for a remainder in [0, n). */
  lemma DivModUnique(q: int, r: int, n: int)
    requires n > 0 && 0 <= r < n
    ensures (q * n + r) / n == q && (q * n + r) % n == r
  {
    var a := q * n + r;
    var q', r' := a / n, a % n;
    assert a == q' * n + r';
    assert (q - q') * n == r' - r;
    SignMul(q - q', n);
  }

  lemma SignMul(d: int, n: int)
    requires n > 0
    ensures d >= 1 ==> d * n >= n
    ensures d <= -1 ==> d * n <= -n
  {
    if d >= 1 {
      MulLe(1, d, n);
    }
    if d <= -1 {
      MulLe(d, -1, n);
    }
  }

  /** The flat index determines the sample: X, Y and Z are read back from it. */
  lemma GetVoxelIndexDecode(size: nat, x: int, y: int, z: int)
    requires InGrid(size, x, y, z)
    ensures var n := size + 1; var i := GetVoxelIndex(size, x, y, z);
      i % n == x && (i / n) % n == y && i / n / n == z
  {
    var n := size + 1;
    NestedIndex(n, x, y, z);
    DivModUnique(z * n + y, x, n);
    DivModUnique(z, y, n);
  }

  /** GetVoxelIndex is injective on the grid: no two samples share a slot. */
  lemma GetVoxelIndexInjective(size: nat, x: int, y: int, z: int, x': int, y': int, z': int)
    requires InGrid(size, x, y, z) && InGrid(size, x', y', z')
    requires GetVoxelIndex(size, x, y, z) == GetVoxelIndex(size, x', y', z')
    ensures x == x' && y == y' && z == z'
  {
    GetVoxelIndexDecode(size, x, y, z);
    GetVoxelIndexDecode(size, x', y', z');
  }

  /**
   * The loops of GenerateHeightMap have written `sample(k)` into the slot of
   * every grid sample k they visited, i.e. every k LexBefore (x, y, z).
   */
  ghost predicate SampledBefore(v: seq<real>, size: nat, sample: IntVec -> real, x: int, y: int, z: int) {
    && |v| == GridLength(size)
    && forall k: IntVec :: InGrid(size, k.x, k.y, k.z) && LexBefore(k, x, y, z) ==>
         v[GetVoxelIndex(size, k.x, k.y, k.z)] == sample(k)
  }

  /** Writing sample (x, y, z) into its slot keeps every earlier sample, since slots differ. */
  lemma SampledStep(v: seq<real>, size: nat, sample: IntVec -> real, x: int, y: int, z: int)
    requires SampledBefore(v, size, sample, x, y, z) && InGrid(size, x, y, z)
    ensures SampledBefore(v[GetVoxelIndex(size, x, y, z) := sample(IntVec(x, y, z))], size, sample, x, y, z + 1)
  {
    var i := GetVoxelIndex(size, x, y, z);
    var v' := v[i := sample(IntVec(x, y, z))];
    forall k: IntVec | InGrid(size, k.x, k.y, k.z) && LexBefore(k, x, y, z + 1)
      ensures v'[GetVoxelIndex(size, k.x, k.y, k.z)] == sample(k)
    {
      if k != IntVec(x, y, z) && GetVoxelIndex(size, k.x, k.y, k.z) == i {
        GetVoxelIndexInjective(size, k.x, k.y, k.z, x, y, z);
      }
    }
  }

  lemma SampledRow(v: seq<real>, size: nat, sample: IntVec -> real, x: int, y: int)
    requires SampledBefore(v, size, sample, x, y, size + 1)
    ensures SampledBefore(v, size, sample, x, y + 1, 0)
  {
  }

  lemma SampledSlice(v: seq<real>, size: nat, sample: IntVec -> real, x: int)
    requires SampledBefore(v, size, sample, x, size + 1, 0)
    ensures SampledBefore(v, size, sample, x + 1, 0, 0)
  {
  }

  lemma SampledAll(v: seq<real>, size: nat, sample: IntVec -> real)
    requires SampledBefore(v, size, sample, size + 1, 0, 0)
    ensures forall x, y, z :: InGrid(size, x, y, z) ==> v[GetVoxelIndex(size, x, y, z)] == sample(IntVec(x, y, z))
  {
    forall x, y, z | InGrid(size, x, y, z)
      ensures v[GetVoxelIndex(size, x, y, z)] == sample(IntVec(x, y, z))
    {
      assert LexBefore(IntVec(x, y, z), size + 1, 0, 0);
    }
  }

  /**
   * GenerateHeightMap's result: the grid has its full length and sample
   * (x, y, z) holds the noise at (x, y, z) offset by the chunk's origin.
   */
  ghost predicate HeightMapped(v: seq<real>, size: nat, noise: (real, real, real, real) -> real, frequency: real, origin: Vec) {
    && |v| == GridLength(size)
    && forall x, y, z :: InGrid(size, x, y, z) ==>
         v[GetVoxelIndex(size, x, y, z)] == noise(frequency, x as real + origin.x, y as real + origin.y, z as real + origin.z)
  }

  /**
   * Effective density: the base sample plus the edit delta stored for the
   * voxel, or the base sample alone when the map has no entry for it.
   */
  function EffectiveDensity(base: real, modifications: map<IntVec, real>, key: IntVec): real {
    if key in modifications then base + modifications[key] else base
  }

  /** The density field of a chunk, as a value: Voxels[..] and modifications. */
  datatype DensityField = DensityField(size: nat, voxels: seq<real>, modifications: map<IntVec, real>) {
    ghost predicate Valid() {
      |voxels| == GridLength(size)
    }

    /** GetVoxelDensityWithModif on a field value. */
    function DensityAt(x: int, y: int, z: int): real
      requires Valid() && InGrid(size, x, y, z)
    {
      EffectiveDensity(voxels[GetVoxelIndex(size, x, y, z)], modifications, IntVec(x, y, z))
    }
  }

  /** The `1e-6f` threshold below which an edge counts as flat. */
  const FlatEpsilon: real := 0.000001

  function Abs(r: real): real {
    if r < 0.0 then -r else r
  }

  /** FMath::Clamp(t, 0, 1). */
  function Clamp01(t: real): real {
    if t < 0.0 then 0.0 else if t > 1.0 then 1.0 else t
  }

  /**
   * GetInterpolationOffset: where along the edge from a corner of density v1 to
   * a corner of density v2 the surface `level` is crossed, as a fraction of
   * the edge. Always in [0, 1]; exactly 0.5 on a flat edge; otherwise, when
   * the level lies between the two densities, the linear interpolant takes the
   * value `level` at that fraction, and when it lies beyond one end the
   * fraction is clamped to that end.
   */
  function GetInterpolationOffset(level: real, v1: real, v2: real): (t: real)
    ensures 0.0 <= t <= 1.0
    ensures Abs(v2 - v1) < FlatEpsilon ==> t == 0.5
    ensures Abs(v2 - v1) >= FlatEpsilon && (v1 <= level <= v2 || v2 <= level <= v1) ==>
      v1 + t * (v2 - v1) == level
    ensures Abs(v2 - v1) >= FlatEpsilon && (level <= v1 < v2 || v2 < v1 <= level) ==> t == 0.0
    ensures Abs(v2 - v1) >= FlatEpsilon && (v1 < v2 <= level || level <= v2 < v1) ==> t == 1.0
  {
    var delta := v2 - v1;
    if Abs(delta) < FlatEpsilon then
      0.5
    else
      RawOffsetInside(level, v1, v2);
      RawOffsetBelow(level, v1, v2);
      RawOffsetAbove(level, v1, v2);
      Clamp01((level - v1) / delta)
  }

  /** Between the two densities the unclamped fraction is in [0, 1] and hits the level. */
  lemma RawOffsetInside(level: real, v1: real, v2: real)
    requires v2 != v1
    ensures var t := (level - v1) / (v2 - v1);
      (v1 <= level <= v2 || v2 <= level <= v1) ==> 0.0 <= t <= 1.0 && v1 + t * (v2 - v1) == level
  {
    var t := (level - v1) / (v2 - v1);
    assert t * (v2 - v1) == level - v1;
    if v1 <= level <= v2 {
      UnitFraction(level - v1, v2 - v1);
    } else if v2 <= level <= v1 {
      UnitFraction(v1 - level, v1 - v2);
      assert t == (v1 - level) / (v1 - v2);
    }
  }

  /** Beyond the first corner the unclamped fraction is not positive. */
  lemma RawOffsetBelow(level: real, v1: real, v2: real)
    requires v2 != v1
    ensures (level <= v1 < v2 || v2 < v1 <= level) ==> (level - v1) / (v2 - v1) <= 0.0
  {
    if level <= v1 < v2 {
      NonPositiveFraction(level - v1, v2 - v1);
    } else if v2 < v1 <= level {
      NonPositiveFraction(v1 - level, v1 - v2);
      assert (level - v1) / (v2 - v1) == (v1 - level) / (v1 - v2);
    }
  }

  /** Beyond the second corner the unclamped fraction is at least one. */
  lemma RawOffsetAbove(level: real, v1: real, v2: real)
    requires v2 != v1
    ensures (v1 < v2 <= level || level <= v2 < v1) ==> (level - v1) / (v2 - v1) >= 1.0
  {
    if v1 < v2 <= level {
      AtLeastOne(level - v1, v2 - v1);
    } else if level <= v2 < v1 {
      AtLeastOne(v1 - level, v1 - v2);
      assert (level - v1) / (v2 - v1) == (v1 - level) / (v1 - v2);
    }
  }

  lemma NonPositiveFraction(a: real, b: real)
    requires b > 0.0 && a <= 0.0
    ensures a / b <= 0.0
  {
  }

  lemma AtLeastOne(a: real, b: real)
    requires b > 0.0 && a >= b
    ensures a / b >= 1.0
  {
  }

  lemma UnitFraction(a: real, b: real)
    requires b > 0.0 && 0.0 <= a <= b
    ensures 0.0 <= a / b <= 1.0
  {
  }
}
