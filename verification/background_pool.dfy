/**
 * The particle records and the fixed-size pool of the background engine.
 *
 * JavaScript holds particle objects by reference in two arrays, `particles`
 * (active) and `pool` (free). The model keeps the records in an arena,
 * `store`, indexed by a stable record id, and the two arrays as lists of ids.
 */
module BackgroundPool {
  import opened Wrappers
  import opened BackgroundConfig

  datatype Kind = Rocket | Spark | Bloom | Trail | Ring

  datatype Particle = Particle(
    active: bool,
    kind: Kind,
    x: real,
    y: real,
    prevX: real,
    prevY: real,
    vx: real,
    vy: real,
    size: real,
    alpha: real,
    lifeMs: real,
    maxLifeMs: real,
    color: string,
    targetY: Option<real>,
    ringRadius: Option<real>,
    ringRadiusSpeed: Option<real>,
    ringLineWidth: Option<real>)

  /** The record `createPool` allocates. */
  const FreshParticle: Particle :=
    Particle(false, Bloom, 0.0, 0.0, 0.0, 0.0, 0.0, 0.0, 1.0, 0.0, 0.0, 0.0, "#ffffff",
             None, None, None, None)

  /** Engine state of one mounted canvas. */
  datatype Engine = Engine(
    width: real,
    height: real,
    store: seq<Particle>,
    particles: seq<nat>,
    pool: seq<nat>,
    quality: Quality,
    lastTs: real,
    fpsAvg: real,
    lowFpsStreak: real,
    nextAutoLaunchAt: real,
    lastTrailAt: real,
    lastTouchX: Option<real>,
    lastTouchY: Option<real>)

  predicate Distinct(s: seq<nat>) {
    forall i, j :: 0 <= i < j < |s| ==> s[i] != s[j]
  }

  /**
   * The bookkeeping invariant: every id names a record, no id is listed twice,
   * the active list holds exactly active records and the pool inactive ones,
   * both lists together account for every record, and every alpha is in [0, 1].
   */
  predicate Wf(e: Engine) {
    && |e.particles| + |e.pool| == |e.store|
    && Distinct(e.particles) && Distinct(e.pool)
    && (forall j :: 0 <= j < |e.particles| ==> e.particles[j] < |e.store| && e.store[e.particles[j]].active)
    && (forall j :: 0 <= j < |e.pool| ==> e.pool[j] < |e.store| && !e.store[e.pool[j]].active)
    && (forall i :: 0 <= i < |e.store| ==> 0.0 <= e.store[i].alpha <= 1.0)
  }

  /** Only the particle bookkeeping (records and the two lists) may differ. */
  predicate SameSettings(a: Engine, b: Engine) {
    b.(store := a.store, particles := a.particles, pool := a.pool) == a
  }

  /** Ids 0 .. n-1 in ascending order. */
  function Ids(n: nat): (s: seq<nat>)
    ensures |s| == n && forall i :: 0 <= i < n ==> s[i] == i
  {
    if n == 0 then [] else Ids(n - 1) + [n - 1]
  }

  /** `createPool(size)`: `size` fresh inactive records, all free. */
  function CreatePool(size: nat): seq<Particle> {
    seq(size, _ => FreshParticle)
  }

  /**
   * The engine `init` builds: the pool is sized by the cap of the initial
   * tier, no particle is active and the timing fields are at their start values.
   */
  function NewEngine(width: real, height: real, quality: Quality): (e: Engine)
    ensures Wf(e)
    ensures |e.store| == Tier(quality).maxParticles && e.particles == [] && e.quality == quality
  {
    var n := Tier(quality).maxParticles;
    Engine(width, height, CreatePool(n), [], Ids(n), quality,
           0.0, 60.0, 0.0, 0.0, 0.0, None, None)
  }

  /** How many more particles `acquireParticle` would hand out right now. */
  function Room(e: Engine): nat {
    var cap := Tier(e.quality).maxParticles;
    if |e.particles| >= cap then 0
    else if cap - |e.particles| < |e.pool| then cap - |e.particles|
    else |e.pool|
  }

  /**
   * `acquireParticle`: fails, changing nothing, when the active list is at the
   * current tier's cap or the pool is empty; otherwise moves the last pooled
   * record to the end of the active list, marks it active and clears its
   * rocket and ring fields.
   */
  function Acquire(e: Engine): (r: (Engine, Option<nat>))
    requires Wf(e)
    ensures Wf(r.0) && SameSettings(e, r.0) && |r.0.store| == |e.store|
    ensures r.1.None? <==> (|e.particles| >= Tier(e.quality).maxParticles || e.pool == [])
    ensures r.1.None? <==> Room(e) == 0
    ensures r.1.None? ==> r.0 == e
    ensures r.1.Some? ==>
      var id := r.1.value;
      && |e.pool| > 0 && id == e.pool[|e.pool| - 1]
      && r.0.pool == e.pool[..|e.pool| - 1]
      && r.0.particles == e.particles + [id]
      && |r.0.particles| <= Tier(e.quality).maxParticles
      && Room(r.0) == Room(e) - 1
      && id < |e.store| && !e.store[id].active
      && r.0.store == e.store[id := e.store[id].(active := true, targetY := None,
                          ringRadius := None, ringRadiusSpeed := None, ringLineWidth := None)]
  {
    if |e.particles| >= Tier(e.quality).maxParticles then (e, None)
    else if |e.pool| == 0 then (e, None)
    else
      var id := e.pool[|e.pool| - 1];
      var p := e.store[id].(active := true, targetY := None, ringRadius := None,
                            ringRadiusSpeed := None, ringLineWidth := None);
      var e' := e.(store := e.store[id := p], particles := e.particles + [id],
                   pool := e.pool[..|e.pool| - 1]);
      assert forall j :: 0 <= j < |e.particles| ==> e.particles[j] != id;
      (e', Some(id))
  }

  /** The active list after `recycleParticle(index)`: the last id moves into `index`. */
  function SwapRemove(s: seq<nat>, index: nat): (r: seq<nat>)
    requires index < |s|
    ensures |r| == |s| - 1
    ensures r[..index] == s[..index]
    ensures index < |r| ==> r[index] == s[|s| - 1]
    ensures forall j :: index < j < |r| ==> r[j] == s[j]
  {
    var last := |s| - 1;
    if index != last then s[index := s[last]][..last] else s[..last]
  }

  lemma SwapRemoveContents(s: seq<nat>, index: nat)
    requires index < |s| && Distinct(s)
    ensures Distinct(SwapRemove(s, index))
    ensures forall j :: 0 <= j < |SwapRemove(s, index)| ==>
              SwapRemove(s, index)[j] in s && SwapRemove(s, index)[j] != s[index]
    ensures forall j :: 0 <= j < |s| && j != index ==> s[j] in SwapRemove(s, index)
  {
    var r := SwapRemove(s, index);
    forall j | 0 <= j < |s| && j != index
      ensures s[j] in r
    {
      if j == |s| - 1 {
        assert r[index] == s[j];
      } else {
        assert r[j] == s[j];
      }
    }
  }

  /**
   * `recycleParticle(index)`: the record at `index` becomes inactive and goes
   * to the end of the pool, the last active id takes its slot, and the lists
   * shrink and grow by exactly one.
   */
  function Recycle(e: Engine, index: nat): (r: Engine)
    requires Wf(e) && index < |e.particles|
    ensures Wf(r) && SameSettings(e, r) && |r.store| == |e.store|
    ensures r.particles == SwapRemove(e.particles, index)
    ensures r.pool == e.pool + [e.particles[index]]
    ensures !r.store[e.particles[index]].active
    ensures forall i :: 0 <= i < |e.store| && i != e.particles[index] ==> r.store[i] == e.store[i]
  {
    var id := e.particles[index];
    var r := e.(store := e.store[id := e.store[id].(active := false)],
                particles := SwapRemove(e.particles, index),
                pool := e.pool + [id]);
    SwapRemoveContents(e.particles, index);
    assert forall j :: 0 <= j < |e.pool| ==> e.pool[j] != id;
    forall j | 0 <= j < |r.particles|
      ensures r.particles[j] < |r.store| && r.store[r.particles[j]].active
    {
      var k :| 0 <= k < |e.particles| && e.particles[k] == r.particles[j];
    }
    r
  }

  /**
   * Overwrite the record `id` with `p` (what a spawner does to the object it
   * acquired); `p` keeps the record's active flag.
   */
  function Put(e: Engine, id: nat, p: Particle): (r: Engine)
    requires Wf(e) && id < |e.store| && p.active == e.store[id].active
    requires 0.0 <= p.alpha <= 1.0
    ensures Wf(r) && SameSettings(e, r)
    ensures r.particles == e.particles && r.pool == e.pool && r.store == e.store[id := p]
  {
    e.(store := e.store[id := p])
  }

  /**
   * `r` grew from `e` by appending to the active list: the engine settings,
   * the records of the particles already active and their order are kept.
   */
  predicate Extends(e: Engine, r: Engine) {
    && Wf(e) && Wf(r) && SameSettings(e, r) && |r.store| == |e.store|
    && |e.particles| <= |r.particles| && r.particles[..|e.particles|] == e.particles
    && forall j :: 0 <= j < |e.particles| ==> r.store[e.particles[j]] == e.store[e.particles[j]]
  }

  lemma ExtendsTrans(a: Engine, b: Engine, c: Engine)
    requires Extends(a, b) && Extends(b, c)
    ensures Extends(a, c)
  {
    forall j | 0 <= j < |a.particles|
      ensures c.store[a.particles[j]] == a.store[a.particles[j]]
    {
      assert b.particles[j] == a.particles[j];
    }
    assert c.particles[..|a.particles|] == c.particles[..|b.particles|][..|a.particles|];
  }

  /**
   * Acquire a record and fill it with `p`, the common shape of every spawner:
   * on success the record is appended to the active list holding exactly `p`,
   * otherwise nothing changes.
   */
  function SpawnWith(e: Engine, p: Particle): (r: (Engine, bool))
    requires Wf(e) && p.active && 0.0 <= p.alpha <= 1.0
    ensures r.1 <==> Room(e) > 0
    ensures !r.1 ==> r.0 == e
    ensures r.1 ==> && Extends(e, r.0)
                    && |r.0.particles| == |e.particles| + 1
                    && r.0.store[r.0.particles[|e.particles|]] == p
                    && Room(r.0) == Room(e) - 1
                    && |r.0.pool| == |e.pool| - 1
  {
    var (e1, id) := Acquire(e);
    if id.None? then (e, false)
    else
      var r := Put(e1, id.value, p);
      assert forall j :: 0 <= j < |e.particles| ==> e.particles[j] != id.value by {
        assert e1.particles[|e.particles|] == id.value;
      }
      (r, true)
  }

  /** Acquiring and immediately recycling returns the pool to its previous size. */
  lemma AcquireRecycle(e: Engine)
    requires Wf(e) && Room(e) > 0
    ensures var (e1, id) := Acquire(e);
            id.Some? && |Recycle(e1, |e1.particles| - 1).pool| == |e.pool|
            && Recycle(e1, |e1.particles| - 1).particles == e.particles
  {
  }
}
