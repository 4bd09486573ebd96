/**
 * The particle of the older canvas variant (`FireworksCanvas/particle.ts`):
 * per-type defaults with optional overrides, a linear fade, and the
 * "dead once alpha reaches 0" rule.
 */
module CanvasParticle {
  import opened Wrappers
  import opened HostMath

  /**
   * The particle type; `Other` stands for any type string the switch does
   * not name, which takes the default branch.
   */
  datatype PType = Rocket | Spark | Trail | Other(name: string)

  datatype CParticle = CParticle(
    x: real,
    y: real,
    vx: real,
    vy: real,
    alpha: real,
    color: string,
    size: real,
    ptype: PType,
    life: real,
    decay: real,
    gravity: real,
    friction: real)

  /** A spawn request: position, colour and type, with optional overrides. */
  datatype Config = Config(
    x: real,
    y: real,
    color: string,
    ptype: PType,
    vx: Option<real>,
    vy: Option<real>,
    size: Option<real>,
    alpha: Option<real>,
    decay: Option<real>)

  /** A request without overrides, the only kind the renderer issues. */
  function Plain(x: real, y: real, color: string, t: PType): Config {
    Config(x, y, color, t, None, None, None, None, None)
  }

  /** How many `Math.random()` draws the type's defaults consume. */
  function ResetDraws(t: PType): nat {
    match t
    case Rocket => 2
    case Spark => 4
    case Trail => 3
    case Other(_) => 0
  }

  /** The type defaults of `reset`, from draws `k` onwards. */
  function Defaults(c: Config, h: Host, k: nat): (p: CParticle)
    requires h.Valid()
    ensures p.x == c.x && p.y == c.y && p.color == c.color && p.ptype == c.ptype
    ensures p.decay > 0.0 && 0.0 < p.alpha <= 1.0
    ensures c.ptype == Rocket ==> -8.0 < p.vy <= -4.5 && p.gravity == 0.045 && p.decay == 0.005
    ensures c.ptype == Spark ==> 0.01 <= p.decay < 0.025 && p.alpha == 1.0
    ensures c.ptype == Trail ==> p.gravity == 0.0 && p.decay == 0.05 && p.alpha == 0.8
    ensures c.ptype.Other? ==> p.friction == 1.0 && p.decay == 0.1 && p.gravity == 0.0
  {
    match c.ptype
    case Rocket =>
      RandBounds(4.5, 8.0, h.rnd(k + 1));
      CParticle(c.x, c.y, h.rnd(k) - 0.5, -(h.rnd(k + 1) * 3.5 + 4.5), 1.0, c.color, 2.0, Rocket,
                100.0, 0.005, 0.045, 0.99)
    case Spark =>
      var angle := h.rnd(k) * Pi * 2.0;
      var speed := h.rnd(k + 1) * 6.0 + 3.0;
      RandBounds(0.01, 0.025, h.rnd(k + 3));
      CParticle(c.x, c.y, h.cos(angle) * speed, h.sin(angle) * speed, 1.0, c.color,
                h.rnd(k + 2) * 2.5 + 1.0, Spark, 100.0, h.rnd(k + 3) * 0.015 + 0.01, 0.038, 0.965)
    case Trail =>
      CParticle(c.x, c.y, h.rnd(k) - 0.5, h.rnd(k + 1) - 0.5, 0.8, c.color, h.rnd(k + 2) * 1.5 + 0.5,
                Trail, 100.0, 0.05, 0.0, 0.96)
    case Other(_) =>
      CParticle(c.x, c.y, 0.0, 0.0, 1.0, c.color, 1.0, c.ptype, 0.0, 0.1, 0.0, 1.0)
  }

  /**
   * `reset(config)`: every field is rewritten, so the old state of the
   * particle plays no part; position, colour and type come from the request,
   * and a defined override replaces the type's default.
   */
  function Reset(c: Config, h: Host, k: nat): (r: (CParticle, nat))
    requires h.Valid()
    ensures r.1 == k + ResetDraws(c.ptype)
    ensures r.0.x == c.x && r.0.y == c.y && r.0.color == c.color && r.0.ptype == c.ptype
    ensures r.0.vx == c.vx.GetOr(Defaults(c, h, k).vx) && r.0.vy == c.vy.GetOr(Defaults(c, h, k).vy)
    ensures r.0.size == c.size.GetOr(Defaults(c, h, k).size)
    ensures r.0.alpha == c.alpha.GetOr(Defaults(c, h, k).alpha)
    ensures r.0.decay == c.decay.GetOr(Defaults(c, h, k).decay)
    ensures r.0.gravity == Defaults(c, h, k).gravity && r.0.friction == Defaults(c, h, k).friction
    ensures c.alpha.None? && c.decay.None? ==> r.0.decay > 0.0 && 0.0 < r.0.alpha <= 1.0
  {
    var d := Defaults(c, h, k);
    var p := d.(vx := if c.vx.Some? then c.vx.value else d.vx,
                vy := if c.vy.Some? then c.vy.value else d.vy,
                size := if c.size.Some? then c.size.value else d.size,
                alpha := if c.alpha.Some? then c.alpha.value else d.alpha,
                decay := if c.decay.Some? then c.decay.value else d.decay);
    (p, k + ResetDraws(c.ptype))
  }

  /** `update()`: friction first, then gravity, then move, then fade by `decay`. */
  function Update(p: CParticle): (r: CParticle)
    ensures r.vx == p.vx * p.friction && r.vy == p.vy * p.friction + p.gravity
    ensures r.x == p.x + r.vx && r.y == p.y + r.vy
    ensures r.alpha == p.alpha - p.decay
    ensures r == p.(x := r.x, y := r.y, vx := r.vx, vy := r.vy, alpha := r.alpha)
  {
    var vx := p.vx * p.friction;
    var vy := p.vy * p.friction + p.gravity;
    p.(vx := vx, vy := vy, x := p.x + vx, y := p.y + vy, alpha := p.alpha - p.decay)
  }

  /** `isDead()`. */
  predicate IsDead(p: CParticle) {
    p.alpha <= 0.0
  }

  /** What `draw` puts on the canvas: one filled disc, or nothing. */
  datatype Disc = Disc(x: real, y: real, radius: real, alpha: real, color: string)

  /** `draw(ctx)`: a dead particle draws nothing; a live one one disc at its alpha. */
  function Draw(p: CParticle): (r: Option<Disc>)
    ensures r.None? <==> IsDead(p)
    ensures r.Some? ==> r.value.alpha > 0.0 && r.value == Disc(p.x, p.y, p.size, p.alpha, p.color)
  {
    if p.alpha <= 0.0 then None else Some(Disc(p.x, p.y, p.size, p.alpha, p.color))
  }

  function UpdateN(p: CParticle, n: nat): CParticle
    decreases n
  {
    if n == 0 then p else UpdateN(Update(p), n - 1)
  }

  /** After `n` updates the alpha has dropped by exactly `n` times the decay. */
  lemma {:induction false} UpdateNFade(p: CParticle, n: nat)
    ensures UpdateN(p, n).alpha == p.alpha - n as real * p.decay
    ensures UpdateN(p, n).decay == p.decay
    decreases n
  {
    if n > 0 {
      UpdateNFade(Update(p), n - 1);
    }
  }

  /**
   * With a positive decay the alpha strictly falls at every update, and the
   * particle is dead after `n` updates once `n * decay` reaches its alpha.
   */
  lemma FadesToDeath(p: CParticle, n: nat)
    requires p.decay > 0.0 && n as real * p.decay >= p.alpha
    ensures Update(p).alpha < p.alpha
    ensures IsDead(UpdateN(p, n))
  {
    UpdateNFade(p, n);
  }

  /** A number of updates that certainly exhausts a positive alpha at a positive decay. */
  function DeathBound(p: CParticle): nat
    requires p.decay > 0.0 && p.alpha > 0.0
  {
    (p.alpha / p.decay).Floor + 1
  }

  /** Every type's default fade is positive, so a particle reset without overrides always fades out. */
  lemma ResetFades(c: Config, h: Host, k: nat)
    requires h.Valid() && c.alpha.None? && c.decay.None?
    ensures var p := Reset(c, h, k).0;
            p.decay > 0.0 && Update(p).alpha < p.alpha
            && IsDead(UpdateN(p, DeathBound(p)))
  {
    var p := Reset(c, h, k).0;
    var n := DeathBound(p);
    assert n as real * p.decay >= p.alpha by {
      assert n as real >= p.alpha / p.decay;
      assert n as real * p.decay >= (p.alpha / p.decay) * p.decay;
    }
    FadesToDeath(p, n);
  }
}
