/**
 * One animation frame of the background engine (`updateAndRender`): the
 * first-frame launch timer, the frame-time governor, the automatic rocket,
 * and the backwards sweep over the active list that ages, moves, bursts and
 * recycles particles. Drawing is left out; only the bookkeeping is modelled.
 */
module BackgroundStep {
  import opened Wrappers
  import opened JsNumber
  import opened HostMath
  import opened BackgroundConfig
  import opened BackgroundPool
  import opened BackgroundSpawn

  /** The frame time: 16 ms on the first frame, otherwise the gap clamped to [8, 40]. */
  function FrameDt(lastTs: real, now: real): (dt: real)
    ensures 8.0 <= dt <= 40.0
    ensures lastTs == 0.0 ==> dt == 16.0
    ensures lastTs != 0.0 && 8.0 <= now - lastTs <= 40.0 ==> dt == now - lastTs
    ensures lastTs != 0.0 && now - lastTs < 8.0 ==> dt == 8.0
    ensures lastTs != 0.0 && now - lastTs > 40.0 ==> dt == 40.0
  {
    if lastTs != 0.0 then Clamp(now - lastTs, 8.0, 40.0) else 16.0
  }

  /** The smoothed frame rate: the first sample seeds the average. */
  function SmoothFps(avg: real, dt: real): real
    requires dt > 0.0
  {
    if avg != 0.0 then avg * 0.9 + (1000.0 / dt) * 0.1 else 1000.0 / dt
  }

  /**
   * The governor block: record the frame time, smooth the frame rate, grow
   * the low-rate streak by `dt` while the average is under 42 (otherwise
   * shrink it, never below 0), and once the streak passes 1800 ms drop one
   * tier and restart the streak. Particles are never touched.
   */
  function Governor(e: Engine, now: real): (r: (Engine, real))
    ensures var (g, dt) := r;
            && 8.0 <= dt <= 40.0 && g.lastTs == now
            && g == e.(lastTs := g.lastTs, fpsAvg := g.fpsAvg, lowFpsStreak := g.lowFpsStreak, quality := g.quality)
            && (e.lowFpsStreak >= 0.0 ==> g.lowFpsStreak >= 0.0)
            && (g.quality == e.quality || (g.quality == Downgrade(e.quality) && g.lowFpsStreak == 0.0))
            && g.quality.Rank() <= e.quality.Rank()
            && (g.fpsAvg < 42.0 && g.lowFpsStreak != 0.0 ==> g.lowFpsStreak == e.lowFpsStreak + dt)
            && (g.fpsAvg >= 42.0 && e.lowFpsStreak >= 0.0 ==> g.lowFpsStreak <= e.lowFpsStreak)
            && (e.lowFpsStreak + dt > 1800.0 && g.fpsAvg < 42.0 ==> g.quality == Downgrade(e.quality))
    ensures var dt := FrameDt(e.lastTs, now);
            var avg := SmoothFps(e.fpsAvg, dt);
            var s := if avg < 42.0 then e.lowFpsStreak + dt else Max(0.0, e.lowFpsStreak - dt);
            && r.1 == dt && r.0.fpsAvg == avg
            && (s > 1800.0 ==> r.0.quality == Downgrade(e.quality) && r.0.lowFpsStreak == 0.0)
            && (s <= 1800.0 ==> r.0.quality == e.quality && r.0.lowFpsStreak == s)
  {
    var dt := FrameDt(e.lastTs, now);
    var avg := SmoothFps(e.fpsAvg, dt);
    var streak := if avg < 42.0 then e.lowFpsStreak + dt else Max(0.0, e.lowFpsStreak - dt);
    if streak > 1800.0 then
      (e.(lastTs := now, fpsAvg := avg, lowFpsStreak := 0.0, quality := Downgrade(e.quality)), dt)
    else
      (e.(lastTs := now, fpsAvg := avg, lowFpsStreak := streak), dt)
  }

  /** `n` governor frames exactly 40 ms apart. */
  function SlowFrames(e: Engine, n: nat): Engine
    decreases n
  {
    if n == 0 then e else SlowFrames(Governor(e, e.lastTs + 40.0).0, n - 1)
  }

  /**
   * Under a sustained 25 fps the streak grows by 40 ms a frame and the tier
   * has dropped within 46 frames: either it has already dropped, or the
   * streak has grown by exactly 40 ms per frame and stayed at most 1800.
   */
  lemma {:induction false} SlowFramesGrow(e: Engine, n: nat)
    requires e.lastTs > 0.0 && 0.0 < e.fpsAvg < 42.0 && 0.0 <= e.lowFpsStreak <= 1800.0
    ensures var g := SlowFrames(e, n);
            || g.quality.Rank() < e.quality.Rank()
            || (g.quality == e.quality && g.lowFpsStreak == e.lowFpsStreak + 40.0 * n as real
                && g.lowFpsStreak <= 1800.0)
            || e.quality == Low
    decreases n
  {
    if n > 0 {
      var (g1, dt) := Governor(e, e.lastTs + 40.0);
      assert dt == 40.0;
      assert g1.fpsAvg == e.fpsAvg * 0.9 + 2.5;
      assert SlowFrames(e, n) == SlowFrames(g1, n - 1);
      if g1.quality != e.quality {
        SlowFramesNeverRise(g1, n - 1);
      } else if e.quality != Low {
        assert g1.lowFpsStreak == e.lowFpsStreak + 40.0 && g1.lowFpsStreak <= 1800.0;
        SlowFramesGrow(g1, n - 1);
      }
    }
  }

  lemma {:induction false} SlowFramesNeverRise(e: Engine, n: nat)
    ensures SlowFrames(e, n).quality.Rank() <= e.quality.Rank()
    decreases n
  {
    if n > 0 {
      SlowFramesNeverRise(Governor(e, e.lastTs + 40.0).0, n - 1);
    }
  }

  /** Forty-six slow frames (1840 ms of low frame rate) always cost a tier unless already at low. */
  lemma SustainedSlowDowngrades(e: Engine)
    requires e.lastTs > 0.0 && 0.0 < e.fpsAvg < 42.0 && e.lowFpsStreak >= 0.0 && e.quality != Low
    ensures SlowFrames(e, 46).quality.Rank() < e.quality.Rank()
  {
    if e.lowFpsStreak <= 1800.0 {
      SlowFramesGrow(e, 46);
    } else {
      var g1 := Governor(e, e.lastTs + 40.0).0;
      assert SlowFrames(e, 46) == SlowFrames(g1, 45);
      SlowFramesNeverRise(g1, 45);
    }
  }

  /** A downgrade evicts nothing, so the active list can exceed the new, lower cap. */
  lemma DowngradeKeepsParticles(e: Engine, now: real)
    requires Wf(e) && e.quality == Medium && |e.particles| > Tier(Low).maxParticles
    requires e.lastTs > 0.0 && now == e.lastTs + 40.0 && 0.0 < e.fpsAvg < 42.0 && e.lowFpsStreak > 1760.0
    ensures var g := Governor(e, now).0;
            g.quality == Low && g.particles == e.particles && |g.particles| > Tier(g.quality).maxParticles
            && Room(g) == 0
  {
    assert FrameDt(e.lastTs, now) == 40.0;
  }

  /** Chance per frame that a rising rocket sheds a spark, by the current tier. */
  function SparkProb(q: Quality): real {
    match q
    case High => 0.45
    case Medium => 0.35
    case Low => 0.25
  }

  /** How a particle leaves the frame's sweep. */
  datatype Fate =
    | Live       // stays active
    | Expire     // life ran out
    | Apex       // a rocket reached its target height
    | LowBurst   // a rocket about to expire high enough to burst
    | OutOfView  // moved outside the margin around the view

  /** Whether leaving the sweep this way triggers a normal burst at the particle. */
  predicate Bursts(fate: Fate, kind: Kind) {
    fate == Apex || fate == LowBurst || (fate == Expire && kind == Rocket)
  }

  /**
   * `clamp(life / maxLife, 0, 1)` for a positive remaining life, including
   * the JavaScript results of dividing by a zero or negative maximum.
   */
  function LifeFraction(life: real, maxLife: real): (t: real)
    requires life > 0.0
    ensures 0.0 <= t <= 1.0
    ensures 0.0 < life <= maxLife ==> t == life / maxLife
    ensures maxLife == 0.0 ==> t == 1.0
  {
    if maxLife > 0.0 then Clamp(life / maxLife, 0.0, 1.0)
    else if maxLife == 0.0 then 1.0
    else 0.0
  }

  /** The view with a margin: 80 px sideways, `top` px above and 140 px below. */
  predicate Outside(p: Particle, width: real, height: real, top: real) {
    p.x < -80.0 || p.x > width + 80.0 || p.y < top || p.y > height + 140.0
  }

  /** `(ringRadius || 0) + (ringRadiusSpeed || 0) * step`. */
  function GrownRadius(p: Particle, step: real): real {
    p.ringRadius.GetOr(0.0) + p.ringRadiusSpeed.GetOr(0.0) * step
  }

  /**
   * The ring grows by its speed per step (a missing radius or speed counts
   * as 0); a set, non-zero line width thins by 0.02 per step, never below 0.8.
   */
  function GrowRing(p: Particle, step: real): (r: Particle)
    ensures r == p.(ringRadius := r.ringRadius, ringLineWidth := r.ringLineWidth)
    ensures r.ringRadius == Some(GrownRadius(p, step))
    ensures p.ringRadius.None? && p.ringRadiusSpeed.None? ==> r.ringRadius == Some(0.0)
    ensures p.ringLineWidth.Some? && p.ringLineWidth.value != 0.0 ==>
              r.ringLineWidth == Some(Max(0.8, p.ringLineWidth.value - 0.02 * step))
    ensures p.ringLineWidth.Some? && p.ringLineWidth.value != 0.0 ==>
              r.ringLineWidth.Some? && r.ringLineWidth.value >= 0.8
    ensures p.ringLineWidth.Some? && p.ringLineWidth.value >= 0.8 && step >= 0.0 ==>
              r.ringLineWidth.Some? && r.ringLineWidth.value <= p.ringLineWidth.value
    ensures p.ringLineWidth.None? || p.ringLineWidth == Some(0.0) ==> r.ringLineWidth == p.ringLineWidth
  {
    var radius := GrownRadius(p, step);
    var lw := if p.ringLineWidth.Some? && p.ringLineWidth.value != 0.0
              then Some(Max(0.8, p.ringLineWidth.value - 0.02 * step)) else p.ringLineWidth;
    p.(ringRadius := Some(radius), ringLineWidth := lw)
  }

  /**
   * A moved rocket's checks in order: apex, then the low-altitude safety net
   * (extend the life by 220 ms while still below 62% of the height, burst
   * otherwise), then thrust and drag, then the out-of-view margin.
   */
  function RocketFlight(p: Particle, step: real, gravity: real, width: real, height: real,
                        pow: (real, real) -> real): (r: (Particle, Fate))
    ensures r.1 != Expire
    ensures r.0.x == p.x && r.0.y == p.y && r.0.kind == p.kind && r.0.alpha == p.alpha
    ensures r.1 == Apex <==> p.targetY.Some? && p.y <= p.targetY.value
    ensures r.1 == LowBurst <==> !(p.targetY.Some? && p.y <= p.targetY.value) && p.lifeMs < 60.0 && p.y <= height * 0.62
    ensures r.1 in {Apex, LowBurst} ==> r.0 == p
    ensures r.1 in {Live, OutOfView} && p.lifeMs < 60.0 ==>
              r.0.lifeMs == 220.0 && r.0.maxLifeMs == p.maxLifeMs + 220.0
    ensures r.1 in {Live, OutOfView} && p.lifeMs >= 60.0 ==>
              r.0.lifeMs == p.lifeMs && r.0.maxLifeMs == p.maxLifeMs
    ensures r.1 == OutOfView <==> r.1 !in {Apex, LowBurst} && Outside(p, width, height, -160.0)
  {
    if p.targetY.Some? && p.y <= p.targetY.value then (p, Apex)
    else if p.lifeMs < 60.0 && p.y <= height * 0.62 then (p, LowBurst)
    else
      var p1 := if p.lifeMs < 60.0 then p.(lifeMs := 220.0, maxLifeMs := p.maxLifeMs + 220.0) else p;
      var drag := pow(0.992, step);
      var p2 := p1.(vx := p1.vx * drag, vy := (p1.vy + gravity * 0.18 * step) * drag);
      if Outside(p2, width, height, -160.0) then (p2, OutOfView) else (p2, Live)
  }

  /** Gravity and friction for blooms, sparks and trails, then the out-of-view margin. */
  function Drift(p: Particle, step: real, gravity: real, friction: real, width: real, height: real,
                 pow: (real, real) -> real): (r: (Particle, Fate))
    ensures r.1 in {Live, OutOfView}
    ensures r.0 == p.(vx := r.0.vx, vy := r.0.vy)
    ensures r.1 == OutOfView <==> Outside(p, width, height, -120.0)
  {
    var f := pow(friction, step);
    var p1 := p.(vx := p.vx * f, vy := (p.vy + gravity * step) * f);
    if Outside(p1, width, height, -120.0) then (p1, OutOfView) else (p1, Live)
  }

  /**
   * How a rocket with `life` left that has moved to height `y` leaves the
   * frame: at its target once it has reached the target height; low when it
   * has not, is about to expire and is already above the 62% line.
   */
  predicate RocketFate(p: Particle, fate: Fate, life: real, y: real, height: real) {
    var apex := p.targetY.Some? && y <= p.targetY.value;
    && (fate == Apex <==> apex)
    && (fate == LowBurst <==> !apex && life < 60.0 && y <= height * 0.62)
  }

  /**
   * The part of one iteration after the ageing: rings grow in place, every
   * other kind moves by its velocity and then takes its kind's checks. Only a
   * rocket's safety net touches the life again.
   */
  function Travel(p: Particle, step: real, gravity: real, friction: real,
                  width: real, height: real, pow: (real, real) -> real): (r: (Particle, Fate))
    ensures r.1 != Expire
    ensures r.0.kind == p.kind && r.0.active == p.active && r.0.color == p.color
    ensures r.0.alpha == p.alpha && r.0.prevX == p.prevX && r.0.prevY == p.prevY
    ensures !(p.kind == Rocket && r.1 in {Live, OutOfView} && p.lifeMs < 60.0) ==>
              r.0.lifeMs == p.lifeMs && r.0.maxLifeMs == p.maxLifeMs
    ensures p.kind == Rocket && r.1 in {Live, OutOfView} && p.lifeMs < 60.0 ==>
              r.0.lifeMs == 220.0 && r.0.maxLifeMs == p.maxLifeMs + 220.0
    ensures p.kind == Ring ==> r.1 == Live && r.0.x == p.x && r.0.y == p.y
                               && r.0.ringRadius == Some(GrownRadius(p, step))
    ensures p.kind != Ring ==> r.0.x == p.x + p.vx * step && r.0.y == p.y + p.vy * step
    ensures p.kind != Rocket ==> r.1 in {Live, OutOfView}
    ensures p.kind == Rocket ==> r.0.targetY == p.targetY
    ensures p.kind == Rocket ==> RocketFate(p, r.1, p.lifeMs, p.y + p.vy * step, height)
  {
    if p.kind == Ring then
      (GrowRing(p, step), Live)
    else
      var p2 := p.(x := p.x + p.vx * step, y := p.y + p.vy * step);
      if p.kind == Rocket then RocketFlight(p2, step, gravity, width, height, pow)
      else Drift(p2, step, gravity, friction, width, height, pow)
  }

  /**
   * What one iteration of the sweep does to a particle record and how the
   * particle leaves: life drops by `dt`; a particle out of life expires with
   * its position unchanged; otherwise alpha follows the remaining life, the
   * previous position is remembered, rings grow in place and everything
   * else moves by its velocity before the kind's checks. A rocket the safety
   * net keeps flying gets 220 ms more life; every other survivor keeps the
   * reduced life.
   */
  function Evolve(p: Particle, dt: real, step: real, gravity: real, friction: real,
                  width: real, height: real, pow: (real, real) -> real): (r: (Particle, Fate))
    ensures r.0.kind == p.kind && r.0.active == p.active && r.0.color == p.color
    ensures r.1 == Expire <==> p.lifeMs - dt <= 0.0
    ensures r.1 == Expire ==> r.0 == p.(lifeMs := p.lifeMs - dt)
    ensures r.1 != Expire ==> 0.0 <= r.0.alpha <= 1.0 && r.0.prevX == p.x && r.0.prevY == p.y
    ensures r.1 != Expire && p.kind != Ring ==> r.0.x == p.x + p.vx * step && r.0.y == p.y + p.vy * step
    ensures p.kind == Ring ==> r.1 in {Live, Expire} && r.0.x == p.x && r.0.y == p.y
    ensures p.kind != Rocket ==> r.1 in {Live, Expire, OutOfView}
    ensures p.kind == Rocket && r.1 != Expire ==> r.0.targetY == p.targetY
    ensures var life := p.lifeMs - dt;
            && (r.1 != Expire ==> r.0.alpha == Clamp(pow(LifeFraction(life, p.maxLifeMs), 1.2), 0.0, 1.0))
            && (r.1 != Expire && !(p.kind == Rocket && r.1 in {Live, OutOfView} && life < 60.0) ==>
                  r.0.lifeMs == life && r.0.maxLifeMs == p.maxLifeMs)
            && (p.kind == Rocket && r.1 in {Live, OutOfView} && life < 60.0 ==>
                  r.0.lifeMs == 220.0 && r.0.maxLifeMs == p.maxLifeMs + 220.0)
    ensures p.kind == Ring && r.1 == Live ==>
              r.0.ringRadius == Some(GrownRadius(p, step))
    ensures p.kind == Rocket && r.1 != Expire ==> RocketFate(p, r.1, p.lifeMs - dt, p.y + p.vy * step, height)
  {
    var life := p.lifeMs - dt;
    if life <= 0.0 then (p.(lifeMs := life), Expire)
    else Survive(p, life, step, gravity, friction, width, height, pow)
  }

  /** A particle with `life` left: it fades with its life, remembers its position, then travels. */
  function Survive(p: Particle, life: real, step: real, gravity: real, friction: real,
                   width: real, height: real, pow: (real, real) -> real): (r: (Particle, Fate))
    requires life > 0.0
    ensures r.1 != Expire
    ensures r.0.kind == p.kind && r.0.active == p.active && r.0.color == p.color
    ensures r.0.alpha == Clamp(pow(LifeFraction(life, p.maxLifeMs), 1.2), 0.0, 1.0)
    ensures r.0.prevX == p.x && r.0.prevY == p.y
    ensures !(p.kind == Rocket && r.1 in {Live, OutOfView} && life < 60.0) ==>
              r.0.lifeMs == life && r.0.maxLifeMs == p.maxLifeMs
    ensures p.kind == Rocket && r.1 in {Live, OutOfView} && life < 60.0 ==>
              r.0.lifeMs == 220.0 && r.0.maxLifeMs == p.maxLifeMs + 220.0
    ensures p.kind == Ring ==> r.1 == Live && r.0.x == p.x && r.0.y == p.y
                               && r.0.ringRadius == Some(GrownRadius(p, step))
    ensures p.kind != Ring ==> r.0.x == p.x + p.vx * step && r.0.y == p.y + p.vy * step
    ensures p.kind != Rocket ==> r.1 in {Live, OutOfView}
    ensures p.kind == Rocket ==> r.0.targetY == p.targetY
    ensures p.kind == Rocket ==> RocketFate(p, r.1, life, p.y + p.vy * step, height)
  {
    var a := Clamp(pow(LifeFraction(life, p.maxLifeMs), 1.2), 0.0, 1.0);
    var p1 := p.(lifeMs := life, alpha := a, prevX := p.x, prevY := p.y);
    assert GrownRadius(p1, step) == GrownRadius(p, step);
    Travel(p1, step, gravity, friction, width, height, pow)
  }

  /** The frame constants the sweep reads: `dt`, the step and the tier captured before the governor. */
  datatype FrameCtx = FrameCtx(dt: real, step: real, cfg: TierConfig)

  /** A rocket still in flight draws once and may shed a spark at its new position. */
  function MaybeSpark(e: Engine, p: Particle, h: Host, k: nat): (r: (Engine, nat))
    requires Wf(e) && h.Valid()
    ensures Extends(e, r.0) && |r.0.particles| <= |e.particles| + 1
    ensures h.rnd(k) >= SparkProb(e.quality) ==> r == (e, k + 1)
    ensures h.rnd(k) < SparkProb(e.quality) ==> r == SpawnSpark(e, p.x, p.y, h, k + 1)
  {
    if h.rnd(k) < SparkProb(e.quality) then SpawnSpark(e, p.x, p.y, h, k + 1) else (e, k + 1)
  }

  /**
   * The effects of one iteration other than the recycle: the evolved record
   * is stored, a flying rocket may shed a spark, and the fate may burst.
   * Only particles appended behind the active list are added.
   */
  function Act(e: Engine, id: nat, q: Particle, fate: Fate, h: Host, k: nat): (r: (Engine, nat))
    requires Wf(e) && h.Valid() && id < |e.store| && q.active == e.store[id].active
    requires 0.0 <= q.alpha <= 1.0
    ensures Extends(Put(e, id, q), r.0)
    ensures !Bursts(fate, q.kind) && q.kind != Rocket ==> r == (Put(e, id, q), k)
    ensures q.kind == Rocket && fate != Expire && !Bursts(fate, q.kind) ==> r == MaybeSpark(Put(e, id, q), q, h, k)
    ensures q.kind == Rocket && fate != Expire && Bursts(fate, q.kind) ==>
              var (e2, k2) := MaybeSpark(Put(e, id, q), q, h, k);
              r == BurstAt(e2, q.x, q.y, false, h, k2)
    ensures Bursts(fate, q.kind) && !(q.kind == Rocket && fate != Expire) ==>
              r == BurstAt(Put(e, id, q), q.x, q.y, false, h, k)
    ensures q.kind == Rocket && fate != Expire && h.rnd(k) < SparkProb(e.quality) && Room(e) > 0 ==>
              |r.0.particles| > |e.particles| && r.0.store[r.0.particles[|e.particles|]] == SparkRecord(q.x, q.y, h, k + 1)
  {
    var e1 := Put(e, id, q);
    var (e2, k2) := if q.kind == Rocket && fate != Expire then MaybeSpark(e1, q, h, k) else (e1, k);
    var (e3, k3) := if Bursts(fate, q.kind) then BurstAt(e2, q.x, q.y, false, h, k2) else (e2, k2);
    assert Extends(e1, e3) by {
      if q.kind == Rocket && fate != Expire && Bursts(fate, q.kind) { ExtendsTrans(e1, e2, e3); }
    }
    (e3, k3)
  }

  /** A normal burst always asks for at least the tier's minimum of blooms, which is at least 14. */
  lemma BurstRequestPositive(q: Quality, u: real)
    requires 0.0 <= u < 1.0
    ensures BurstRequest(q, false, u) >= 14
  {
    RandBounds(Tier(q).burstMin, Tier(q).burstMax, u);
  }

  /**
   * A particle whose fate bursts leaves at least one bloom at its position
   * behind the active list, as long as two records are free (one may go to
   * the rocket's spark).
   */
  lemma BurstLeavesBloom(e: Engine, id: nat, q: Particle, fate: Fate, h: Host, k: nat)
    requires Wf(e) && h.Valid() && id < |e.store| && q.active == e.store[id].active
    requires 0.0 <= q.alpha <= 1.0
    requires Bursts(fate, q.kind) && Room(e) >= 2
    ensures var r := Act(e, id, q, fate, h, k).0;
            exists j :: |e.particles| <= j < |r.particles|
                        && r.store[r.particles[j]].kind == Bloom
                        && r.store[r.particles[j]].x == q.x && r.store[r.particles[j]].y == q.y
  {
    var e1 := Put(e, id, q);
    var (e2, k2) := if q.kind == Rocket && fate != Expire then MaybeSpark(e1, q, h, k) else (e1, k);
    assert Room(e1) == Room(e);
    assert |e2.particles| <= |e1.particles| + 1 && |e2.pool| + 1 >= |e1.pool| && e2.quality == e1.quality;
    assert Room(e2) >= 1;
    BurstRequestPositive(e2.quality, h.rnd(k2 + 1));
    var r := BurstAt(e2, q.x, q.y, false, h, k2);
    assert Act(e, id, q, fate, h, k) == r;
    var j := |e2.particles|;
    assert j < |r.0.particles|;
    assert IsBloomFrom(r.0.store[r.0.particles[j]], q.x, q.y, Pick(BurstPalettes, h.rnd(k2)));
  }

  /**
   * One iteration of the sweep at index `i`: the effects of `Act`, then every
   * particle that does not stay live is recycled. Indices below `i`, which
   * the sweep has yet to visit, keep their particles and records. A live
   * spark consumes one more draw for its glint.
   */
  function Visit(e: Engine, i: nat, c: FrameCtx, h: Host, k: nat): (r: (Engine, nat))
    requires Wf(e) && h.Valid() && i < |e.particles|
    ensures Wf(r.0) && SameSettings(e, r.0) && |r.0.store| == |e.store|
    ensures i <= |r.0.particles| && r.0.particles[..i] == e.particles[..i]
    ensures forall j :: 0 <= j < i ==> r.0.store[e.particles[j]] == e.store[e.particles[j]]
    ensures var (q, fate) := Evolve(e.store[e.particles[i]], c.dt, c.step, c.cfg.gravity, c.cfg.friction,
                                    e.width, e.height, h.pow);
            && (fate == Live ==> i < |r.0.particles| && r.0.particles[i] == e.particles[i] && r.0.store[e.particles[i]] == q)
            && (fate != Live ==> !r.0.store[e.particles[i]].active)
            && (fate != Live && !Bursts(fate, q.kind) && q.kind != Rocket ==>
                  r.0.particles == SwapRemove(e.particles, i) && r.1 == k)
  {
    var id := e.particles[i];
    var (q, fate) := Evolve(e.store[id], c.dt, c.step, c.cfg.gravity, c.cfg.friction, e.width, e.height, h.pow);
    var e1 := Put(e, id, q);
    var (e3, k3) := Act(e, id, q, fate, h, k);
    VisitKeeps(e, e1, e3, i);
    if fate == Live then
      (e3, if q.kind == Spark then k3 + 1 else k3)
    else
      var e4 := Recycle(e3, i);
      assert e4.particles[..i] == e3.particles[..i];
      (e4, k3)
  }

  /** What `Visit` relies on: the particle at `i` and everything before it survive `Act`. */
  lemma VisitKeeps(e: Engine, e1: Engine, e3: Engine, i: nat)
    requires Wf(e) && i < |e.particles| && e1.particles == e.particles && |e1.store| == |e.store|
    requires e1.store == e.store[e.particles[i] := e1.store[e.particles[i]]]
    requires Extends(e1, e3)
    ensures e3.particles[i] == e.particles[i] && e3.particles[..i] == e.particles[..i]
    ensures forall j :: 0 <= j < i ==> e3.store[e.particles[j]] == e.store[e.particles[j]]
  {
    assert e3.particles[..|e1.particles|] == e1.particles;
    assert e3.particles[..i] == e3.particles[..|e1.particles|][..i];
    forall j | 0 <= j < i
      ensures e3.store[e.particles[j]] == e.store[e.particles[j]]
    {
      assert e.particles[j] != e.particles[i];
    }
  }

  /** The sweep from index `n - 1` down to 0. */
  function Sweep(e: Engine, n: nat, c: FrameCtx, h: Host, k: nat): (r: (Engine, nat))
    requires Wf(e) && h.Valid() && n <= |e.particles|
    ensures Wf(r.0) && SameSettings(e, r.0) && |r.0.store| == |e.store|
    decreases n
  {
    if n == 0 then (e, k)
    else
      var (e1, k1) := Visit(e, n - 1, c, h, k);
      Sweep(e1, n - 1, c, h, k1)
  }

  /** `scheduleNextAutoLaunch`: one draw between the current tier's interval bounds. */
  function Schedule(e: Engine, now: real, h: Host, k: nat): (r: Engine)
    requires h.Valid()
    ensures r == e.(nextAutoLaunchAt := r.nextAutoLaunchAt)
    ensures now + Tier(e.quality).autoIntervalMin <= r.nextAutoLaunchAt <= now + Tier(e.quality).autoIntervalMax
  {
    var cfg := Tier(e.quality);
    RandBounds(cfg.autoIntervalMin, cfg.autoIntervalMax, h.rnd(k));
    e.(nextAutoLaunchAt := now + Rand(cfg.autoIntervalMin, cfg.autoIntervalMax, h.rnd(k)))
  }

  /**
   * `updateAndRender(now)` without drawing. The sweep uses the tier captured
   * at the start of the frame for gravity and friction, while the rocket, its
   * sparks and the next launch time use the tier after the governor.
   */
  function Frame(e: Engine, now: real, h: Host, k: nat): (r: (Engine, nat))
    requires Wf(e) && h.Valid()
    ensures Wf(r.0) && |r.0.store| == |e.store|
    ensures r.0.width == e.width && r.0.height == e.height && r.0.lastTs == now
    ensures r.0.quality == e.quality || r.0.quality == Downgrade(e.quality)
    ensures r.0.quality.Rank() <= e.quality.Rank()
    ensures e.lowFpsStreak >= 0.0 ==> r.0.lowFpsStreak >= 0.0
    ensures r.0.nextAutoLaunchAt != e.nextAutoLaunchAt ==>
              e.nextAutoLaunchAt == 0.0 || now >= e.nextAutoLaunchAt
    ensures e.nextAutoLaunchAt != 0.0 && now >= e.nextAutoLaunchAt ==>
              now + Tier(r.0.quality).autoIntervalMin <= r.0.nextAutoLaunchAt <= now + Tier(r.0.quality).autoIntervalMax
  {
    var cfg := Tier(e.quality);
    var (e0, k0) := if e.nextAutoLaunchAt == 0.0
                    then (e.(nextAutoLaunchAt := now + Rand(420.0, 980.0, h.rnd(k))), k + 1)
                    else (e, k);
    var (e1, dt) := Governor(e0, now);
    var (e2, k2) := if now >= e1.nextAutoLaunchAt
                    then var (er, kr) := SpawnRocket(e1, h, k0); (Schedule(er, now, h, kr), kr + 1)
                    else (e1, k0);
    Sweep(e2, |e2.particles|, FrameCtx(dt, dt / 16.67, cfg), h, k2)
  }

  /** Frames at the given timestamps, in order, threading the draw cursor. */
  function Run(e: Engine, times: seq<real>, h: Host, k: nat): (r: (Engine, nat))
    requires Wf(e) && h.Valid()
    ensures Wf(r.0)
    decreases |times|
  {
    if times == [] then (e, k)
    else
      var (e1, k1) := Frame(e, times[0], h, k);
      Run(e1, times[1..], h, k1)
  }

  /**
   * Over any run of frames from a freshly built engine no record is lost or
   * duplicated: the active and free lists together always hold exactly the
   * initial tier's cap, whatever the tier has been lowered to since.
   */
  lemma {:induction false} RunConserves(e: Engine, times: seq<real>, h: Host, k: nat)
    requires Wf(e) && h.Valid()
    ensures var r := Run(e, times, h, k).0;
            |r.particles| + |r.pool| == |e.store| && r.quality.Rank() <= e.quality.Rank()
    decreases |times|
  {
    if times != [] {
      var (e1, k1) := Frame(e, times[0], h, k);
      RunConserves(e1, times[1..], h, k1);
    }
  }

  lemma FreshRunConserves(width: real, height: real, q: Quality, times: seq<real>, h: Host, k: nat)
    requires h.Valid()
    ensures var r := Run(NewEngine(width, height, q), times, h, k).0;
            |r.particles| + |r.pool| == Tier(q).maxParticles
  {
    RunConserves(NewEngine(width, height, q), times, h, k);
  }
}
