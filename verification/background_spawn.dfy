/**
 * The spawners of the background engine: rockets, rocket sparks, the tap
 * ring, burst blooms and touch trails. Each one acquires a record and, only
 * when that succeeds, draws its random parameters; every spawner returns the
 * new engine and the advanced draw cursor.
 */
module BackgroundSpawn {
  import opened Wrappers
  import opened JsNumber
  import opened HostMath
  import opened BackgroundConfig
  import opened BackgroundPool

  /** Draws `spawnRocket` consumes after a successful acquire. */
  const RocketDraws: nat := 8
  /** Draws `spawnSpark` consumes after a successful acquire. */
  const SparkDraws: nat := 6
  /** Draws one bloom of `burstAt` consumes after a successful acquire. */
  const BloomDraws: nat := 7
  /** Draws `spawnTouchTrail` consumes after a successful acquire. */
  const TrailDraws: nat := 6

  /** The record `spawnRocket` writes, from draws `k` .. `k+7`. */
  function RocketRecord(e: Engine, h: Host, k: nat): (p: Particle)
    requires h.Valid()
    ensures p.active && p.kind == Rocket && p.alpha == 1.0
    ensures p.x == p.prevX && p.y == p.prevY && p.lifeMs == p.maxLifeMs
    ensures 1100.0 <= p.lifeMs < 1650.0 && p.vy < 0.0
    ensures e.height + 10.0 <= p.y < e.height + 40.0
    ensures e.width >= 0.0 ==> e.width * 0.12 <= p.x <= e.width * 0.88
    ensures p.targetY.Some? && (e.height >= 0.0 ==> e.height * 0.16 <= p.targetY.value <= e.height * 0.44)
    ensures p.color in RocketColors
    ensures p.ringRadius.None? && p.ringRadiusSpeed.None? && p.ringLineWidth.None?
  {
    var startX := Rand(e.width * 0.12, e.width * 0.88, h.rnd(k));
    var startY := e.height + Rand(10.0, 40.0, h.rnd(k + 1));
    var targetY := Rand(e.height * 0.16, e.height * 0.44, h.rnd(k + 2));
    var life := Rand(1100.0, 1650.0, h.rnd(k + 6));
    RandBounds(10.0, 40.0, h.rnd(k + 1));
    RandBounds(9.4, 11.6, h.rnd(k + 4));
    RandBounds(1100.0, 1650.0, h.rnd(k + 6));
    assert e.width >= 0.0 ==> e.width * 0.12 <= startX <= e.width * 0.88 by {
      if e.width >= 0.0 { RandBounds(e.width * 0.12, e.width * 0.88, h.rnd(k)); }
    }
    assert e.height >= 0.0 ==> e.height * 0.16 <= targetY <= e.height * 0.44 by {
      if e.height >= 0.0 { RandBounds(e.height * 0.16, e.height * 0.44, h.rnd(k + 2)); }
    }
    Particle(true, Rocket, startX, startY, startX, startY,
             Rand(-0.42, 0.42, h.rnd(k + 3)), -Rand(9.4, 11.6, h.rnd(k + 4)),
             Rand(1.4, 2.2, h.rnd(k + 5)), 1.0, life, life,
             Pick(RocketColors, h.rnd(k + 7)), Some(targetY), None, None, None)
  }

  /** The record `spawnSpark` writes at (x, y), from draws `k` .. `k+5`. */
  function SparkRecord(x: real, y: real, h: Host, k: nat): (p: Particle)
    requires h.Valid()
    ensures p.active && p.kind == Spark && p.x == x && p.y == y && p.prevX == x && p.prevY == y
    ensures 0.65 <= p.alpha < 0.95 && 220.0 <= p.lifeMs < 420.0 && p.lifeMs == p.maxLifeMs
    ensures p.vy > 0.0 && p.color in SparkColors
    ensures p.targetY.None? && p.ringRadius.None?
  {
    var life := Rand(220.0, 420.0, h.rnd(k + 4));
    RandBounds(0.8, 2.6, h.rnd(k + 1));
    RandBounds(0.65, 0.95, h.rnd(k + 3));
    RandBounds(220.0, 420.0, h.rnd(k + 4));
    Particle(true, Spark, x, y, x, y,
             Rand(-1.2, 1.2, h.rnd(k)), Rand(0.8, 2.6, h.rnd(k + 1)),
             Rand(0.6, 1.2, h.rnd(k + 2)), Rand(0.65, 0.95, h.rnd(k + 3)), life, life,
             Pick(SparkColors, h.rnd(k + 5)), None, None, None, None)
  }

  /** The record `spawnRing` writes: a fixed shock-wave ring of 360 ms. */
  function RingRecord(x: real, y: real, color: string): (p: Particle)
    ensures p.active && p.kind == Ring && p.x == x && p.y == y && p.alpha == 1.0
    ensures p.lifeMs == 360.0 && p.maxLifeMs == 360.0 && p.color == color
    ensures p.ringRadius == Some(6.0) && p.ringRadiusSpeed == Some(2.8) && p.ringLineWidth == Some(1.4)
  {
    Particle(true, Ring, x, y, x, y, 0.0, 0.0, 1.0, 1.0, 360.0, 360.0, color,
             None, Some(6.0), Some(2.8), Some(1.4))
  }

  /**
   * The record one bloom of `burstAt` writes, from draws `k` .. `k+6`: the
   * speed is a soft or normal base speed scaled by a factor in [0.85, 1.15).
   */
  function BloomRecord(x: real, y: real, soft: bool, palette: seq<string>, h: Host, k: nat): (p: Particle)
    requires h.Valid() && |palette| > 0
    ensures p.active && p.kind == Bloom && p.x == x && p.y == y && p.prevX == x && p.prevY == y
    ensures 0.75 <= p.alpha <= 1.0 && 560.0 <= p.lifeMs < 980.0 && p.lifeMs == p.maxLifeMs
    ensures p.color in palette
    ensures p.targetY.None? && p.ringRadius.None?
  {
    var angle := Rand(0.0, Pi * 2.0, h.rnd(k));
    var speedBase := if soft then Rand(2.0, 4.6, h.rnd(k + 1)) else Rand(2.6, 5.8, h.rnd(k + 1));
    var speed := speedBase * (0.85 + h.rnd(k + 2) * 0.3);
    var life := Rand(560.0, 980.0, h.rnd(k + 5));
    RandBounds(0.75, 1.0, h.rnd(k + 4));
    RandBounds(560.0, 980.0, h.rnd(k + 5));
    Particle(true, Bloom, x, y, x, y, h.cos(angle) * speed, h.sin(angle) * speed,
             Rand(1.15, 2.35, h.rnd(k + 3)), Rand(0.75, 1.0, h.rnd(k + 4)), life, life,
             Pick(palette, h.rnd(k + 6)), None, None, None, None)
  }

  /** The record `spawnTouchTrail` writes at (x, y), from draws `k` .. `k+5`. */
  function TrailRecord(x: real, y: real, h: Host, k: nat): (p: Particle)
    requires h.Valid()
    ensures p.active && p.kind == Trail && p.x == x && p.y == y && p.prevX == x && p.prevY == y
    ensures 0.35 <= p.alpha < 0.65 && 180.0 <= p.lifeMs < 360.0 && p.lifeMs == p.maxLifeMs
    ensures p.color == PickWeighted(TouchColors, h.rnd(k + 5))
    ensures p.targetY.None? && p.ringRadius.None?
  {
    var angle := Rand(0.0, Pi * 2.0, h.rnd(k));
    var speed := Rand(0.25, 1.05, h.rnd(k + 1));
    var life := Rand(180.0, 360.0, h.rnd(k + 4));
    RandBounds(0.35, 0.65, h.rnd(k + 3));
    RandBounds(180.0, 360.0, h.rnd(k + 4));
    Particle(true, Trail, x, y, x, y, h.cos(angle) * speed, h.sin(angle) * speed,
             Rand(0.6, 1.25, h.rnd(k + 2)), Rand(0.35, 0.65, h.rnd(k + 3)), life, life,
             PickWeighted(TouchColors, h.rnd(k + 5)), None, None, None, None)
  }

  /**
   * Acquire and fill with `p`; the draws that built `p` are consumed only when
   * the acquire succeeded, as the source returns before its first draw.
   */
  function SpawnCounted(e: Engine, p: Particle, k: nat, draws: nat): (r: (Engine, nat))
    requires Wf(e) && p.active && 0.0 <= p.alpha <= 1.0
    ensures Room(e) == 0 ==> r == (e, k)
    ensures Room(e) > 0 ==> && Extends(e, r.0) && r.1 == k + draws
                            && |r.0.particles| == |e.particles| + 1
                            && r.0.particles == e.particles + [r.0.particles[|e.particles|]]
                            && r.0.store[r.0.particles[|e.particles|]] == p
                            && Room(r.0) == Room(e) - 1
  {
    var (e1, ok) := SpawnWith(e, p);
    if ok then
      assert e1.particles == e.particles + [e1.particles[|e.particles|]] by {
        assert e1.particles[..|e.particles|] == e.particles;
      }
      (e1, k + draws)
    else (e, k)
  }

  function SpawnRocket(e: Engine, h: Host, k: nat): (r: (Engine, nat))
    requires Wf(e) && h.Valid()
    ensures Room(e) == 0 ==> r == (e, k)
    ensures Room(e) > 0 ==> && Extends(e, r.0) && r.1 == k + RocketDraws
                            && |r.0.particles| == |e.particles| + 1
                            && r.0.store[r.0.particles[|e.particles|]] == RocketRecord(e, h, k)
  {
    SpawnCounted(e, RocketRecord(e, h, k), k, RocketDraws)
  }

  function SpawnSpark(e: Engine, x: real, y: real, h: Host, k: nat): (r: (Engine, nat))
    requires Wf(e) && h.Valid()
    ensures Room(e) == 0 ==> r == (e, k)
    ensures Room(e) > 0 ==> && Extends(e, r.0) && r.1 == k + SparkDraws
                            && |r.0.particles| == |e.particles| + 1
                            && r.0.store[r.0.particles[|e.particles|]] == SparkRecord(x, y, h, k)
  {
    SpawnCounted(e, SparkRecord(x, y, h, k), k, SparkDraws)
  }

  function SpawnRing(e: Engine, x: real, y: real, color: string): (r: Engine)
    requires Wf(e)
    ensures Room(e) == 0 ==> r == e
    ensures Room(e) > 0 ==> && Extends(e, r) && |r.particles| == |e.particles| + 1
                            && r.store[r.particles[|e.particles|]] == RingRecord(x, y, color)
  {
    SpawnCounted(e, RingRecord(x, y, color), 0, 0).0
  }

  function SpawnTouchTrail(e: Engine, x: real, y: real, h: Host, k: nat): (r: (Engine, nat))
    requires Wf(e) && h.Valid()
    ensures Room(e) == 0 ==> r == (e, k)
    ensures Room(e) > 0 ==> && Extends(e, r.0) && r.1 == k + TrailDraws
                            && |r.0.particles| == |e.particles| + 1
                            && r.0.store[r.0.particles[|e.particles|]] == TrailRecord(x, y, h, k)
  {
    SpawnCounted(e, TrailRecord(x, y, h, k), k, TrailDraws)
  }

  function Min(a: nat, b: nat): nat {
    if a <= b then a else b
  }

  /** A record one bloom of a burst at (x, y) with `palette` could have written. */
  predicate IsBloomFrom(p: Particle, x: real, y: real, palette: seq<string>) {
    p.kind == Bloom && p.x == x && p.y == y && p.color in palette
  }

  /** Every particle `r` appended after those of `e` is a bloom from this burst. */
  predicate AllNewBlooms(from: nat, r: Engine, x: real, y: real, palette: seq<string>)
    requires Wf(r)
  {
    forall j :: from <= j < |r.particles| ==> IsBloomFrom(r.store[r.particles[j]], x, y, palette)
  }

  /**
   * The bloom loop of `burstAt` with `n` iterations left: it stops at the
   * first failed acquire, so exactly min(n, Room) blooms are appended, each
   * at (x, y) and coloured from `palette`, and 7 draws go to each.
   */
  function Blooms(e: Engine, x: real, y: real, soft: bool, palette: seq<string>, n: nat, h: Host, k: nat)
    : (r: (Engine, nat))
    requires Wf(e) && h.Valid() && |palette| > 0
    ensures Extends(e, r.0)
    ensures |r.0.particles| == |e.particles| + Min(n, Room(e))
    ensures Room(r.0) == Room(e) - Min(n, Room(e))
    ensures r.1 == k + BloomDraws * Min(n, Room(e))
    ensures AllNewBlooms(|e.particles|, r.0, x, y, palette)
    decreases n
  {
    if n == 0 || Room(e) == 0 then (e, k)
    else
      var (e1, k1) := SpawnCounted(e, BloomRecord(x, y, soft, palette, h, k), k, BloomDraws);
      var (e2, k2) := Blooms(e1, x, y, soft, palette, n - 1, h, k1);
      BloomsStep(e, e1, e2, x, y, palette);
      (e2, k2)
  }

  lemma BloomsStep(e: Engine, e1: Engine, e2: Engine, x: real, y: real, palette: seq<string>)
    requires Extends(e, e1) && Extends(e1, e2) && |e1.particles| == |e.particles| + 1
    requires IsBloomFrom(e1.store[e1.particles[|e.particles|]], x, y, palette)
    requires AllNewBlooms(|e1.particles|, e2, x, y, palette)
    ensures Extends(e, e2) && AllNewBlooms(|e.particles|, e2, x, y, palette)
  {
    ExtendsTrans(e, e1, e2);
    assert e2.particles[|e.particles|] == e1.particles[|e.particles|];
  }

  /** The bloom count `burstAt` asks for: 65% of the base draw, rounded, for a soft burst. */
  function BurstCount(base: real, soft: bool): int {
    Round(if soft then base * 0.65 else base)
  }

  /** How many blooms `burstAt` asks for, from its base-count draw `u`. */
  function BurstRequest(q: Quality, soft: bool, u: real): nat {
    var count := BurstCount(Rand(Tier(q).burstMin, Tier(q).burstMax, u), soft);
    if count < 0 then 0 else count
  }

  /**
   * `burstAt(x, y, strength)` from draw `k`: one palette draw, a ring first
   * when soft and there is room, then one base-count draw and the bloom loop.
   * Every bloom of the burst is coloured from the one palette drawn first.
   */
  function BurstAt(e: Engine, x: real, y: real, soft: bool, h: Host, k: nat): (r: (Engine, nat))
    requires Wf(e) && h.Valid()
    ensures Extends(e, r.0)
    ensures var ring := if soft && Room(e) > 0 then 1 else 0;
            var blooms := Min(BurstRequest(e.quality, soft, h.rnd(k + 1)), Room(e) - ring);
            && |r.0.particles| == |e.particles| + ring + blooms
            && r.1 == k + 2 + BloomDraws * blooms
            && (ring == 1 ==> r.0.store[r.0.particles[|e.particles|]] == RingRecord(x, y, RingColor))
            && AllNewBlooms(|e.particles| + ring, r.0, x, y, Pick(BurstPalettes, h.rnd(k)))
    ensures Pick(BurstPalettes, h.rnd(k)) in BurstPalettes
  {
    var palette := Pick(BurstPalettes, h.rnd(k));
    assert |palette| == 3;
    var e1 := if soft then SpawnRing(e, x, y, RingColor) else e;
    var r := Blooms(e1, x, y, soft, palette, BurstRequest(e.quality, soft, h.rnd(k + 1)), h, k + 2);
    assert Extends(e, r.0) by {
      if soft && Room(e) > 0 { ExtendsTrans(e, e1, r.0); }
    }
    assert soft && Room(e) > 0 ==> r.0.particles[|e.particles|] == e1.particles[|e.particles|];
    r
  }
}
