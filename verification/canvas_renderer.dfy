/**
 * The renderer of the older canvas variant (`FireworksCanvas/renderer.ts`):
 * a pool of 200 particles built up front, spawn requests that reuse the
 * first dead active particle before touching the pool, explosions, touch
 * trails, the automatic launch timer and the frame loop.
 *
 * A particle object sits in exactly one of the two arrays at a time, so the
 * arrays are modelled as sequences of particle values.
 */
module CanvasRenderer {
  import opened Wrappers
  import opened HostMath
  import opened CanvasParticle

  /** Size of the pool the constructor fills. */
  const PoolSize: nat := 200

  const RocketColor: string := "#FFD700"
  const SparkColors: seq<string> :=
    ["#FF4800", "#FF8C00", "#FFD700", "#FFFFFF", "#FF2400", "#00F0FF", "#9D00FF", "#FF0099", "#39FF14"]
  const TrailColors: seq<string> := ["#00F0FF", "#0099FF", "#FFFFFF"]

  datatype Renderer = Renderer(
    width: real,
    height: real,
    particles: seq<CParticle>,
    pool: seq<CParticle>,
    lastLaunchTime: real,
    launchInterval: real)

  /** The constructor's pool: `n` sparks reset at the origin, 4 draws each. */
  function MakePool(n: nat, h: Host, k: nat): (r: (seq<CParticle>, nat))
    requires h.Valid()
    ensures |r.0| == n && r.1 == k + 4 * n
    decreases n
  {
    if n == 0 then ([], k)
    else
      var (p, k1) := Reset(Plain(0.0, 0.0, "#fff", Spark), h, k);
      var (rest, k2) := MakePool(n - 1, h, k1);
      ([p] + rest, k2)
  }

  /** `new FireworksRenderer(...)`: no active particle, 200 pooled, first launch after 800 ms. */
  function NewRenderer(width: real, height: real, h: Host, k: nat): (r: (Renderer, nat))
    requires h.Valid()
    ensures r.0.particles == [] && |r.0.pool| == PoolSize && r.0.launchInterval == 800.0
    ensures r.1 == k + 4 * PoolSize
  {
    var (pool, k1) := MakePool(PoolSize, h, k);
    (Renderer(width, height, [], pool, 0.0, 800.0), k1)
  }

  /** `particles.findIndex(p => p.isDead())`. */
  function FirstDead(ps: seq<CParticle>): (r: Option<nat>)
    ensures r.Some? ==> r.value < |ps| && IsDead(ps[r.value])
                        && forall j :: 0 <= j < r.value ==> !IsDead(ps[j])
    ensures r.None? ==> forall j :: 0 <= j < |ps| ==> !IsDead(ps[j])
  {
    if ps == [] then None
    else if IsDead(ps[0]) then Some(0)
    else match FirstDead(ps[1..])
      case None => None
      case Some(i) => Some(i + 1)
  }

  /** Both arrays together always hold the whole pool. */
  predicate Conserved(r: Renderer) {
    |r.particles| + |r.pool| == PoolSize
  }

  /**
   * `spawnParticle(config)`: reset the first dead active particle in place;
   * with none, pop the pool, reset and append; with an empty pool, drop the
   * request without drawing.
   */
  function SpawnParticle(r: Renderer, c: Config, h: Host, k: nat): (s: (Renderer, nat))
    requires h.Valid()
    ensures |s.0.particles| + |s.0.pool| == |r.particles| + |r.pool|
    ensures s.0 == r.(particles := s.0.particles, pool := s.0.pool)
    ensures FirstDead(r.particles).Some? ==>
              var d := FirstDead(r.particles).value;
              s.0.particles == r.particles[d := Reset(c, h, k).0] && s.0.pool == r.pool
              && s.1 == k + ResetDraws(c.ptype)
    ensures FirstDead(r.particles).None? && r.pool != [] ==>
              && s.0.particles == r.particles + [Reset(c, h, k).0]
              && s.0.pool == r.pool[..|r.pool| - 1] && s.1 == k + ResetDraws(c.ptype)
    ensures FirstDead(r.particles).None? && r.pool == [] ==> s == (r, k)
  {
    match FirstDead(r.particles)
    case Some(d) =>
      var (p, k1) := Reset(c, h, k);
      (r.(particles := r.particles[d := p]), k1)
    case None =>
      if |r.pool| > 0 then
        var (p, k1) := Reset(c, h, k);
        (r.(particles := r.particles + [p], pool := r.pool[..|r.pool| - 1]), k1)
      else (r, k)
  }

  /** The active list never shrinks: a spawn reuses a slot, appends, or does nothing. */
  lemma SpawnNeverShrinks(r: Renderer, c: Config, h: Host, k: nat)
    requires h.Valid()
    ensures |SpawnParticle(r, c, h, k).0.particles| >= |r.particles|
    ensures |SpawnParticle(r, c, h, k).0.particles| == |r.particles| <==>
              FirstDead(r.particles).Some? || r.pool == []
  {
  }

  /**
   * The requests issued so far in a run of spawns, with the renderer and
   * cursor after them.
   */
  datatype Spawned = Spawned(r: Renderer, k: nat, requests: seq<Config>)

  /** `60 + Math.floor(Math.random() * 30)`. */
  function ExplodeCount(u: real): (n: nat)
    requires 0.0 <= u < 1.0
    ensures 60 <= n <= 89
  {
    60 + PickIndex(u, 30)
  }

  /** The loop of `explode` with `n` requests left: one colour draw, then a spark request at (x, y). */
  function ExplodeLoop(r: Renderer, x: real, y: real, n: nat, h: Host, k: nat): (s: Spawned)
    requires h.Valid()
    ensures |s.requests| == n
    ensures forall c :: c in s.requests ==> c.ptype == Spark && c.x == x && c.y == y && c.color in SparkColors
    ensures |s.r.particles| + |s.r.pool| == |r.particles| + |r.pool| && |s.r.particles| >= |r.particles|
    ensures s.r == r.(particles := s.r.particles, pool := s.r.pool)
    decreases n
  {
    if n == 0 then Spawned(r, k, [])
    else
      var c := Plain(x, y, Pick(SparkColors, h.rnd(k)), Spark);
      var (r1, k1) := SpawnParticle(r, c, h, k + 1);
      SpawnNeverShrinks(r, c, h, k + 1);
      var rest := ExplodeLoop(r1, x, y, n - 1, h, k1);
      Spawned(rest.r, rest.k, [c] + rest.requests)
  }

  /** `explode(x, y)`: between 60 and 89 spark requests at (x, y). */
  function Explode(r: Renderer, x: real, y: real, h: Host, k: nat): (s: Spawned)
    requires h.Valid()
    ensures 60 <= |s.requests| <= 89
    ensures forall c :: c in s.requests ==> c.ptype == Spark && c.x == x && c.y == y && c.color in SparkColors
    ensures |s.r.particles| + |s.r.pool| == |r.particles| + |r.pool| && |s.r.particles| >= |r.particles|
    ensures s.r == r.(particles := s.r.particles, pool := s.r.pool)
  {
    ExplodeLoop(r, x, y, ExplodeCount(h.rnd(k)), h, k + 1)
  }

  /**
   * `addTouchTrail(x, y)`: exactly two trail requests, each coloured from
   * the trail colours and jittered by less than 5 px on each axis.
   */
  function AddTouchTrail(r: Renderer, x: real, y: real, h: Host, k: nat): (s: Spawned)
    requires h.Valid()
    ensures |s.requests| == 2
    ensures forall c :: c in s.requests ==>
              && c.ptype == Trail && c.color in TrailColors
              && x - 5.0 <= c.x < x + 5.0 && y - 5.0 <= c.y < y + 5.0
    ensures |s.r.particles| + |s.r.pool| == |r.particles| + |r.pool| && |s.r.particles| >= |r.particles|
    ensures s.r == r.(particles := s.r.particles, pool := s.r.pool)
  {
    var c1 := TrailRequest(x, y, h, k);
    var (r1, k1) := SpawnParticle(r, c1, h, k + 3);
    var c2 := TrailRequest(x, y, h, k1);
    var (r2, k2) := SpawnParticle(r1, c2, h, k1 + 3);
    SpawnNeverShrinks(r, c1, h, k + 3);
    SpawnNeverShrinks(r1, c2, h, k1 + 3);
    Spawned(r2, k2, [c1, c2])
  }

  /** One trail request from draws `k` (colour), `k+1` and `k+2` (jitter). */
  function TrailRequest(x: real, y: real, h: Host, k: nat): (c: Config)
    requires h.Valid()
    ensures c.ptype == Trail && c.color in TrailColors
    ensures x - 5.0 <= c.x < x + 5.0 && y - 5.0 <= c.y < y + 5.0
    ensures c.vx.None? && c.alpha.None? && c.decay.None?
  {
    Plain(x + (h.rnd(k + 1) - 0.5) * 10.0, y + (h.rnd(k + 2) - 0.5) * 10.0, Pick(TrailColors, h.rnd(k)), Trail)
  }

  /** A gold rocket starting on the bottom edge, inside the middle 80% of the width. */
  predicate IsLaunchedRocket(p: CParticle, width: real, height: real) {
    && p.ptype == Rocket && p.y == height && p.color == RocketColor
    && (width >= 0.0 ==> width * 0.1 <= p.x <= width * 0.9)
  }

  /**
   * `launchRocket()`: one rocket request from the bottom edge, in the middle
   * 80% of the width. The rocket takes the first dead slot in place, or is
   * appended from the pool, or is dropped when neither exists; nothing else
   * changes and both arrays together keep their size.
   */
  function LaunchRocket(r: Renderer, h: Host, k: nat): (s: (Renderer, nat))
    requires h.Valid()
    ensures |s.0.particles| + |s.0.pool| == |r.particles| + |r.pool|
    ensures |s.0.particles| >= |r.particles|
    ensures s.0 == r.(particles := s.0.particles, pool := s.0.pool)
    ensures FirstDead(r.particles).Some? ==>
              var d := FirstDead(r.particles).value;
              && |s.0.particles| == |r.particles| && s.0.pool == r.pool
              && IsLaunchedRocket(s.0.particles[d], r.width, r.height)
              && (forall j :: 0 <= j < |r.particles| && j != d ==> s.0.particles[j] == r.particles[j])
    ensures FirstDead(r.particles).None? && r.pool != [] ==>
              && s.0.particles[..|r.particles|] == r.particles && |s.0.particles| == |r.particles| + 1
              && IsLaunchedRocket(s.0.particles[|r.particles|], r.width, r.height)
              && s.0.pool == r.pool[..|r.pool| - 1]
    ensures FirstDead(r.particles).None? && r.pool == [] ==> s == (r, k + 1)
    ensures FirstDead(r.particles).Some? || r.pool != [] ==> s.1 == k + 1 + ResetDraws(Rocket)
  {
    SpawnNeverShrinks(r, Plain(RocketStartX(r.width, h.rnd(k)), r.height, RocketColor, Rocket), h, k + 1);
    SpawnParticle(r, Plain(RocketStartX(r.width, h.rnd(k)), r.height, RocketColor, Rocket), h, k + 1)
  }

  function RocketStartX(width: real, u: real): (x: real)
    requires 0.0 <= u < 1.0
    ensures width >= 0.0 ==> width * 0.1 <= x <= width * 0.9
  {
    assert width >= 0.0 ==> width * 0.1 <= u * (width * 0.8) + width * 0.1 <= width * 0.9 by {
      if width >= 0.0 {
        RandBounds(width * 0.1, width * 0.9, u);
        assert u * (width * 0.8) + width * 0.1 == Rand(width * 0.1, width * 0.9, u);
      }
    }
    u * (width * 0.8) + width * 0.1
  }

  /**
   * The automatic launch at frame time `ts`: only once more than the current
   * interval has passed since the last launch; then the launch time is
   * recorded and the next interval drawn from [500, 1500).
   */
  function AutoLaunch(r: Renderer, ts: real, h: Host, k: nat): (s: (Renderer, nat))
    requires h.Valid()
    ensures ts - r.lastLaunchTime <= r.launchInterval ==> s == (r, k)
    ensures ts - r.lastLaunchTime > r.launchInterval ==>
              && s.0.lastLaunchTime == ts && 500.0 <= s.0.launchInterval < 1500.0
              && |s.0.particles| + |s.0.pool| == |r.particles| + |r.pool|
              && |s.0.particles| >= |r.particles|
  {
    if ts - r.lastLaunchTime > r.launchInterval then
      var (r1, k1) := LaunchRocket(r, h, k);
      SpawnNeverShrinks(r, Plain(RocketStartX(r.width, h.rnd(k)), r.height, RocketColor, Rocket), h, k + 1);
      (r1.(lastLaunchTime := ts, launchInterval := 500.0 + h.rnd(k1) * 1000.0), k1 + 1)
    else (r, k)
  }

  /** The rocket check after an update: a live rocket that stalls or passes 25% of the height explodes. */
  predicate ShouldExplode(wasRocket: bool, p: CParticle, height: real) {
    wasRocket && !IsDead(p) && (p.vy >= 0.0 || p.y < height * 0.25)
  }

  /**
   * One iteration of the particle loop at `i`: update (drawing changes no
   * state); a rocket that should explode is zeroed, so it is dead, and an
   * explosion is requested at its updated position.
   */
  function VisitParticle(r: Renderer, i: nat, h: Host, k: nat): (s: (Renderer, nat))
    requires h.Valid() && i < |r.particles|
    ensures |s.0.particles| + |s.0.pool| == |r.particles| + |r.pool| && |s.0.particles| >= |r.particles|
    ensures s.0 == r.(particles := s.0.particles, pool := s.0.pool)
    ensures var p := Update(r.particles[i]);
            && (!ShouldExplode(r.particles[i].ptype == Rocket, p, r.height) ==>
                  s == (r.(particles := r.particles[i := p]), k))
            && (ShouldExplode(r.particles[i].ptype == Rocket, p, r.height) ==>
                  var r1 := r.(particles := r.particles[i := p.(alpha := 0.0)]);
                  IsDead(r1.particles[i]) && s == (Explode(r1, p.x, p.y, h, k).r, Explode(r1, p.x, p.y, h, k).k))
  {
    var old_p := r.particles[i];
    var p := Update(old_p);
    if ShouldExplode(old_p.ptype == Rocket, p, r.height) then
      var r1 := r.(particles := r.particles[i := p.(alpha := 0.0)]);
      var ex := Explode(r1, p.x, p.y, h, k);
      (ex.r, ex.k)
    else (r.(particles := r.particles[i := p]), k)
  }

  /**
   * The particle loop from index `i`, re-reading the length every time, so
   * particles appended by explosions are updated in the same frame. It ends
   * because the active list can only grow up to the fixed pool total.
   */
  function ParticleLoop(r: Renderer, i: nat, h: Host, k: nat): (s: (Renderer, nat))
    requires h.Valid() && i <= |r.particles|
    ensures |s.0.particles| + |s.0.pool| == |r.particles| + |r.pool| && |s.0.particles| >= |r.particles|
    ensures s.0 == r.(particles := s.0.particles, pool := s.0.pool)
    decreases |r.particles| + |r.pool| - i
  {
    if i >= |r.particles| then (r, k)
    else
      var (r1, k1) := VisitParticle(r, i, h, k);
      ParticleLoop(r1, i + 1, h, k1)
  }

  /** One frame of the loop body while running: auto launch, then the particle loop. */
  function Tick(r: Renderer, ts: real, h: Host, k: nat): (s: (Renderer, nat))
    requires h.Valid()
    ensures |s.0.particles| + |s.0.pool| == |r.particles| + |r.pool| && |s.0.particles| >= |r.particles|
    ensures s.0.width == r.width && s.0.height == r.height
    ensures ts - r.lastLaunchTime > r.launchInterval ==> s.0.lastLaunchTime == ts
  {
    var (r1, k1) := AutoLaunch(r, ts, h, k);
    ParticleLoop(r1, 0, h, k1)
  }

  function Ticks(r: Renderer, times: seq<real>, h: Host, k: nat): (s: (Renderer, nat))
    requires h.Valid()
    decreases |times|
  {
    if times == [] then (r, k)
    else
      var (r1, k1) := Tick(r, times[0], h, k);
      Ticks(r1, times[1..], h, k1)
  }

  /**
   * From construction on, any number of frames keeps all 200 particles
   * between the two arrays and never shortens the active list.
   */
  lemma {:induction false} TicksConserve(r: Renderer, times: seq<real>, h: Host, k: nat)
    requires h.Valid() && Conserved(r)
    ensures Conserved(Ticks(r, times, h, k).0)
    ensures |Ticks(r, times, h, k).0.particles| >= |r.particles|
    decreases |times|
  {
    if times != [] {
      var (r1, k1) := Tick(r, times[0], h, k);
      TicksConserve(r1, times[1..], h, k1);
    }
  }

  lemma FreshRendererConserves(width: real, height: real, times: seq<real>, h: Host, k: nat)
    requires h.Valid()
    ensures var (r0, k0) := NewRenderer(width, height, h, k);
            Conserved(Ticks(r0, times, h, k0).0)
  {
    var (r0, k0) := NewRenderer(width, height, h, k);
    TicksConserve(r0, times, h, k0);
  }
}
