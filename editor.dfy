/**
 * The terrain brush of ModifyVoxel as specification functions: the voxel box
 * the brush visits, the falloff of its strength with distance, and the map of
 * density deltas after one application.
 */
module Editor {
  import opened Geometry
  import opened VoxelGrid

  /** FMath::FloorToInt. */
  function FloorToInt(r: real): (n: int)
    ensures n as real <= r < n as real + 1.0
  {
    r.Floor
  }

  /** FMath::CeilToInt. */
  function CeilToInt(r: real): (n: int)
    ensures r <= n as real < r + 1.0
  {
    -((-r).Floor)
  }

  /** `(worldPos - GetActorLocation()) / 100`: a world position in the chunk's voxel units. */
  function ToLocal(worldPos: Vec, actorLocation: Vec): (p: Vec)
    ensures actorLocation.Plus(p.Scale(UnitsPerVoxel as real)) == worldPos
  {
    worldPos.Minus(actorLocation).Scale(1.0 / UnitsPerVoxel as real)
  }

  /** `0.0f` for a voxel with no delta yet: the FindOrAdd default. */
  function Lookup(mods: map<IntVec, real>, k: IntVec): real {
    if k in mods then mods[k] else 0.0
  }

  /**
   * One application of the brush: its centre in local voxel units, its
   * radius, the editing speed and the frame time.
   */
  datatype Brush = Brush(center: Vec, radius: real, speed: real, dt: real) {
    /** The voxel box the loops of ModifyVoxel visit: floor(c - r) .. ceil(c + r) per axis. */
    predicate InBox(k: IntVec) {
      && FloorToInt(center.x - radius) <= k.x <= CeilToInt(center.x + radius)
      && FloorToInt(center.y - radius) <= k.y <= CeilToInt(center.y + radius)
      && FloorToInt(center.z - radius) <= k.z <= CeilToInt(center.z + radius)
    }

    /** The box as a finite set of voxel keys. */
    function Box(): (s: set<IntVec>)
      ensures forall k :: k in s <==> InBox(k)
    {
      var x0, x1 := FloorToInt(center.x - radius), CeilToInt(center.x + radius);
      var y0, y1 := FloorToInt(center.y - radius), CeilToInt(center.y + radius);
      var z0, z1 := FloorToInt(center.z - radius), CeilToInt(center.z + radius);
      set x, y, z | x0 <= x <= x1 && y0 <= y <= y1 && z0 <= z <= z1 :: IntVec(x, y, z)
    }

    /** `voxelCenter(x + 0.5, y + 0.5, z + 0.5)`. */
    function VoxelCenter(k: IntVec): Vec {
      Vec(k.x as real + 0.5, k.y as real + 0.5, k.z as real + 0.5)
    }

    /** The brush changes voxel k: k is in the box and its centre is closer than the radius. */
    predicate Touches(dist: Metric, k: IntVec) {
      InBox(k) && dist(VoxelCenter(k), center) < radius
    }

    /** `1 - dist / brushRadius`: full strength at the centre, fading to nothing at the rim. */
    function Falloff(dist: Metric, k: IntVec): (f: real)
      requires Touches(dist, k)
      ensures 0.0 < f <= 1.0
    {
      FalloffRange(dist(VoxelCenter(k), center), radius);
      1.0 - dist(VoxelCenter(k), center) / radius
    }

    /** `falloff * editingSpeed * DeltaTimeSeconds`. */
    function Delta(dist: Metric, k: IntVec): real
      requires Touches(dist, k)
    {
      Falloff(dist, k) * speed * dt
    }
  }

  lemma FalloffRange(d: real, r: real)
    requires 0.0 <= d < r
    ensures 0.0 < 1.0 - d / r <= 1.0
  {
    assert d / r < 1.0;
  }

  /** A voxel whose centre is nearer the brush centre is changed at least as strongly. */
  lemma FalloffMonotone(b: Brush, dist: Metric, k1: IntVec, k2: IntVec)
    requires b.Touches(dist, k1) && b.Touches(dist, k2)
    requires dist(b.VoxelCenter(k1), b.center) <= dist(b.VoxelCenter(k2), b.center)
    ensures b.Falloff(dist, k1) >= b.Falloff(dist, k2)
  {
    DivMonotoneReal(dist(b.VoxelCenter(k1), b.center), dist(b.VoxelCenter(k2), b.center), b.radius);
  }

  lemma DivMonotoneReal(a: real, c: real, r: real)
    requires r > 0.0 && a <= c
    ensures a / r <= c / r
  {
  }

  /**
   * modifications after one brush application: every voxel the brush touches
   * gets its delta added to its entry (created at 0); no other entry changes
   * and none is removed.
   */
  function Brushed(mods: map<IntVec, real>, b: Brush, dist: Metric): (r: map<IntVec, real>)
    ensures forall k :: k in r <==> k in mods || b.Touches(dist, k)
    ensures forall k :: k in r && !b.Touches(dist, k) ==> r[k] == mods[k]
    ensures forall k :: b.Touches(dist, k) ==> r[k] == Lookup(mods, k) + b.Delta(dist, k)
  {
    map k | k in mods.Keys + b.Box() && (k in mods || b.Touches(dist, k)) ::
      if b.Touches(dist, k) then Lookup(mods, k) + b.Delta(dist, k) else mods[k]
  }

  /**
   * The accumulation property: after the brush, the density the polygonizer
   * sees at a voxel is what it saw before plus the brush's delta there.
   */
  lemma BrushedDensity(mods: map<IntVec, real>, b: Brush, dist: Metric, base: real, k: IntVec)
    ensures EffectiveDensity(base, Brushed(mods, b, dist), k) ==
      EffectiveDensity(base, mods, k) + (if b.Touches(dist, k) then b.Delta(dist, k) else 0.0)
  {
  }

  /** The entry for k after the brush, with absent entries read as 0. */
  lemma BrushedAt(mods: map<IntVec, real>, b: Brush, dist: Metric, k: IntVec)
    ensures Lookup(Brushed(mods, b, dist), k) == Lookup(mods, k) + (if b.Touches(dist, k) then b.Delta(dist, k) else 0.0)
  {
  }

  /** Two brush strokes give the same deltas in either order. */
  lemma BrushedCommute(mods: map<IntVec, real>, b1: Brush, b2: Brush, dist: Metric)
    ensures Brushed(Brushed(mods, b1, dist), b2, dist) == Brushed(Brushed(mods, b2, dist), b1, dist)
  {
    var m1, m2 := Brushed(mods, b1, dist), Brushed(mods, b2, dist);
    var l, r := Brushed(m1, b2, dist), Brushed(m2, b1, dist);
    forall k
      ensures (k in l <==> k in r) && (k in l ==> l[k] == r[k])
    {
      BrushedAt(mods, b1, dist, k);
      BrushedAt(mods, b2, dist, k);
      BrushedAt(m1, b2, dist, k);
      BrushedAt(m2, b1, dist, k);
    }
    assert l.Keys == r.Keys;
  }

  /** A brush of non-positive radius touches nothing and leaves the map as it was. */
  lemma EmptyBrush(mods: map<IntVec, real>, b: Brush, dist: Metric)
    requires b.radius <= 0.0
    ensures Brushed(mods, b, dist) == mods
  {
    var r := Brushed(mods, b, dist);
    assert forall k :: !b.Touches(dist, k);
    assert r.Keys == mods.Keys;
  }

  /**
   * With a non-negative speed every touched voxel's delta grows (terrain is
   * added), with a non-positive speed it shrinks, by at most the full-strength
   * amount speed * dt.
   */
  lemma BrushedDirection(mods: map<IntVec, real>, b: Brush, dist: Metric, k: IntVec)
    requires b.Touches(dist, k) && b.dt >= 0.0
    ensures b.speed >= 0.0 ==> Lookup(mods, k) <= Brushed(mods, b, dist)[k] <= Lookup(mods, k) + b.speed * b.dt
    ensures b.speed <= 0.0 ==> Lookup(mods, k) + b.speed * b.dt <= Brushed(mods, b, dist)[k] <= Lookup(mods, k)
  {
    DeltaBounds(b, dist, k);
  }

  /** The delta at a touched voxel lies between 0 and the full-strength speed * dt. */
  lemma DeltaBounds(b: Brush, dist: Metric, k: IntVec)
    requires b.Touches(dist, k) && b.dt >= 0.0
    ensures b.speed >= 0.0 ==> 0.0 <= b.Delta(dist, k) <= b.speed * b.dt
    ensures b.speed <= 0.0 ==> b.speed * b.dt <= b.Delta(dist, k) <= 0.0
  {
    ScaledDelta(b.Falloff(dist, k), b.speed, b.dt);
  }

  lemma ScaledDelta(f: real, speed: real, dt: real)
    requires 0.0 < f <= 1.0 && dt >= 0.0
    ensures speed >= 0.0 ==> 0.0 <= f * speed * dt <= speed * dt
    ensures speed <= 0.0 ==> speed * dt <= f * speed * dt <= 0.0
  {
    var sd := speed * dt;
    assert f * speed * dt == f * sd;
    SignOfProduct(speed, dt);
    ScaleBetween(f, sd);
  }

  lemma SignOfProduct(a: real, d: real)
    requires d >= 0.0
    ensures a >= 0.0 ==> a * d >= 0.0
    ensures a <= 0.0 ==> a * d <= 0.0
  {
  }

  lemma ScaleBetween(f: real, a: real)
    requires 0.0 < f <= 1.0
    ensures a >= 0.0 ==> 0.0 <= f * a <= a
    ensures a <= 0.0 ==> a <= f * a <= 0.0
  {
  }

  /**
   * The loops of ModifyVoxel have visited every voxel LexBefore (x, y, z): m
   * is m0 with the brush applied to exactly the touched voxels visited so far.
   */
  ghost predicate BrushedBefore(m: map<IntVec, real>, m0: map<IntVec, real>, b: Brush, dist: Metric, x: int, y: int, z: int) {
    && (forall k :: k in m <==> k in m0 || (LexBefore(k, x, y, z) && b.Touches(dist, k)))
    && (forall k :: k in m ==>
          m[k] == if LexBefore(k, x, y, z) && b.Touches(dist, k) then Lookup(m0, k) + b.Delta(dist, k) else m0[k])
  }

  lemma BrushedBeforeStart(m0: map<IntVec, real>, b: Brush, dist: Metric)
    ensures BrushedBefore(m0, m0, b, dist,
      FloorToInt(b.center.x - b.radius), FloorToInt(b.center.y - b.radius), FloorToInt(b.center.z - b.radius))
  {
  }

  /** Visiting voxel (x, y, z): FindOrAdd(k, 0) += delta when the brush touches it. */
  lemma BrushedBeforeStep(m: map<IntVec, real>, m0: map<IntVec, real>, b: Brush, dist: Metric, x: int, y: int, z: int)
    requires BrushedBefore(m, m0, b, dist, x, y, z)
    ensures var k := IntVec(x, y, z);
      BrushedBefore(if b.Touches(dist, k) then m[k := Lookup(m, k) + b.Delta(dist, k)] else m, m0, b, dist, x, y, z + 1)
  {
    var k := IntVec(x, y, z);
    assert Lookup(m, k) == Lookup(m0, k);
  }

  /** The Z loop is done: the next row starts at the bottom of the box. */
  lemma BrushedBeforeRow(m: map<IntVec, real>, m0: map<IntVec, real>, b: Brush, dist: Metric, x: int, y: int, z: int)
    requires BrushedBefore(m, m0, b, dist, x, y, z) && z > CeilToInt(b.center.z + b.radius)
    ensures BrushedBefore(m, m0, b, dist, x, y + 1, FloorToInt(b.center.z - b.radius))
  {
  }

  /** The Y loop is done: the next slice starts at the front of the box. */
  lemma BrushedBeforeSlice(m: map<IntVec, real>, m0: map<IntVec, real>, b: Brush, dist: Metric, x: int, y: int, z: int)
    requires BrushedBefore(m, m0, b, dist, x, y, z) && y > CeilToInt(b.center.y + b.radius)
    ensures BrushedBefore(m, m0, b, dist, x + 1, FloorToInt(b.center.y - b.radius), FloorToInt(b.center.z - b.radius))
  {
  }

  /** The X loop is done: the whole box has been brushed. */
  lemma BrushedBeforeDone(m: map<IntVec, real>, m0: map<IntVec, real>, b: Brush, dist: Metric, x: int, y: int, z: int)
    requires BrushedBefore(m, m0, b, dist, x, y, z) && x > CeilToInt(b.center.x + b.radius)
    ensures m == Brushed(m0, b, dist)
  {
    var r := Brushed(m0, b, dist);
    assert m.Keys == r.Keys;
  }
}
