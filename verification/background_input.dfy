/**
 * Pointer input of the background engine: turning a tap or touch event into
 * a point, and the tap, touch-start, touch-move and touch-end handlers.
 * The wall clock (`Date.now()`) is a parameter.
 */
module BackgroundInput {
  import opened Wrappers
  import opened JsNumber
  import opened HostMath
  import opened BackgroundConfig
  import opened BackgroundPool
  import opened BackgroundSpawn

  /**
   * A coordinate field of an event as `Number.isFinite` sees it: `None` for a
   * missing field or any value that is not a number.
   */
  type Field = Option<Num>

  datatype Detail = Detail(x: Field, y: Field)

  datatype Touch = Touch(x: Field, y: Field, clientX: Field, clientY: Field, pageX: Field, pageY: Field)

  /** A tap or touch event; a missing `touches` list is the empty list. */
  datatype Event = Event(detail: Option<Detail>, touches: seq<Touch>, changedTouches: seq<Touch>)

  datatype Point = Point(x: real, y: real)

  predicate FiniteField(f: Field) {
    f.Some? && f.value.Finite?
  }

  /** The first finite field among the fallbacks, in order. */
  function FirstFinite(a: Field, b: Field, c: Field): (r: Option<real>)
    ensures r.Some? <==> FiniteField(a) || FiniteField(b) || FiniteField(c)
    ensures FiniteField(a) ==> r == Some(a.value.v)
    ensures !FiniteField(a) && FiniteField(b) ==> r == Some(b.value.v)
    ensures !FiniteField(a) && !FiniteField(b) && FiniteField(c) ==> r == Some(c.value.v)
  {
    if FiniteField(a) then Some(a.value.v)
    else if FiniteField(b) then Some(b.value.v)
    else if FiniteField(c) then Some(c.value.v)
    else None
  }

  /** `touches[0] || changedTouches[0]`. */
  function FirstTouch(ev: Event): Option<Touch> {
    if |ev.touches| > 0 then Some(ev.touches[0])
    else if |ev.changedTouches| > 0 then Some(ev.changedTouches[0])
    else None
  }

  predicate DetailPoint(ev: Event) {
    ev.detail.Some? && FiniteField(ev.detail.value.x) && FiniteField(ev.detail.value.y)
  }

  /**
   * `getPointFromEvent`: finite detail coordinates win; otherwise the first
   * touch, else the first changed touch, with each axis falling back from
   * x to clientX to pageX (y to clientY to pageY); no point unless both axes
   * resolve.
   */
  function GetPointFromEvent(ev: Event): (r: Option<Point>)
    ensures DetailPoint(ev) ==> r == Some(Point(ev.detail.value.x.value.v, ev.detail.value.y.value.v))
    ensures !DetailPoint(ev) && FirstTouch(ev).None? ==> r.None?
    ensures !DetailPoint(ev) && FirstTouch(ev).Some? ==>
              var t := FirstTouch(ev).value;
              var x := FirstFinite(t.x, t.clientX, t.pageX);
              var y := FirstFinite(t.y, t.clientY, t.pageY);
              (r.Some? <==> x.Some? && y.Some?) && (r.Some? ==> r.value == Point(x.value, y.value))
  {
    if DetailPoint(ev) then Some(Point(ev.detail.value.x.value.v, ev.detail.value.y.value.v))
    else match FirstTouch(ev)
      case None => None
      case Some(t) =>
        var x := FirstFinite(t.x, t.clientX, t.pageX);
        var y := FirstFinite(t.y, t.clientY, t.pageY);
        if x.Some? && y.Some? then Some(Point(x.value, y.value)) else None
  }

  /** A point comes only from a finite detail pair or from a touch. */
  lemma PointNeedsSource(ev: Event)
    requires GetPointFromEvent(ev).Some?
    ensures DetailPoint(ev) || |ev.touches| > 0 || |ev.changedTouches| > 0
  {
  }

  /** Trail points per move: one per 14 px of travel, at least 1 and at most 3. */
  function StepCount(dist: real): (n: nat)
    ensures 1 <= n <= 3
    ensures dist < 28.0 ==> n == 1
    ensures dist >= 42.0 ==> n == 3
    ensures 28.0 <= dist < 42.0 ==> n == 2
  {
    var f := (dist / 14.0).Floor;
    if f < 1 then 1 else if f > 3 then 3 else f
  }

  /**
   * How far along the move trail point `i` of `n` lies: the whole way for a
   * single step, otherwise `(i + 1) / n`.
   */
  function Fraction(i: nat, n: nat): (t: real)
    requires i < n
    ensures t == (i + 1) as real / n as real
    ensures i == n - 1 ==> t == 1.0
  {
    if n == 1 then
      assert i == 0;
      1.0
    else
      assert i == n - 1 ==> (i + 1) as real == n as real;
      (i + 1) as real / n as real
  }

  /** The interpolated points from the last touch to the new one, the last of them on the new point. */
  function TrailPoints(lastX: real, lastY: real, dx: real, dy: real, n: nat): (r: seq<Point>)
    requires n >= 1
    ensures |r| == n
    ensures r[n - 1] == Point(lastX + dx, lastY + dy)
    ensures forall i :: 0 <= i < n ==> r[i] == Point(lastX + dx * Fraction(i, n), lastY + dy * Fraction(i, n))
  {
    seq(n, i requires 0 <= i < n => Point(lastX + dx * Fraction(i, n), lastY + dy * Fraction(i, n)))
  }

  predicate IsTrailAt(p: Particle, pt: Point) {
    p.kind == Trail && p.x == pt.x && p.y == pt.y
  }

  /** The `m` particles of `r` from index `from` on are trails at the first `m` points. */
  predicate TrailsAt(r: Engine, from: nat, pts: seq<Point>, m: nat)
    requires Wf(r)
  {
    && from + m <= |r.particles| && m <= |pts|
    && forall j :: from <= j < from + m ==> IsTrailAt(r.store[r.particles[j]], pts[j - from])
  }

  /**
   * One `spawnTouchTrail` per point, in order. A failed acquire only skips
   * that point, so min(|pts|, Room) trails are appended, point by point.
   */
  function SpawnTrails(e: Engine, pts: seq<Point>, h: Host, k: nat): (r: (Engine, nat))
    requires Wf(e) && h.Valid()
    ensures Extends(e, r.0)
    ensures |r.0.particles| == |e.particles| + Min(|pts|, Room(e))
    ensures TrailsAt(r.0, |e.particles|, pts, Min(|pts|, Room(e)))
    decreases |pts|
  {
    if pts == [] || Room(e) == 0 then (e, k)
    else
      var (e1, k1) := SpawnTouchTrail(e, pts[0].x, pts[0].y, h, k);
      var (e2, k2) := SpawnTrails(e1, pts[1..], h, k1);
      SpawnTrailsStep(e, e1, e2, pts);
      (e2, k2)
  }

  lemma SpawnTrailsStep(e: Engine, e1: Engine, e2: Engine, pts: seq<Point>)
    requires pts != [] && Room(e) > 0
    requires Extends(e, e1) && |e1.particles| == |e.particles| + 1 && Room(e1) == Room(e) - 1
    requires IsTrailAt(e1.store[e1.particles[|e.particles|]], pts[0])
    requires Extends(e1, e2) && |e2.particles| == |e1.particles| + Min(|pts| - 1, Room(e1))
    requires TrailsAt(e2, |e1.particles|, pts[1..], Min(|pts| - 1, Room(e1)))
    ensures Extends(e, e2)
    ensures |e2.particles| == |e.particles| + Min(|pts|, Room(e))
    ensures TrailsAt(e2, |e.particles|, pts, Min(|pts|, Room(e)))
  {
    ExtendsTrans(e, e1, e2);
    assert e2.particles[|e.particles|] == e1.particles[|e.particles|];
    var from := |e.particles|;
    var m := Min(|pts|, Room(e));
    forall j | from < j < from + m
      ensures IsTrailAt(e2.store[e2.particles[j]], pts[j - from])
    {
      assert pts[j - from] == pts[1..][j - |e1.particles|];
    }
  }

  /**
   * The trails of one move: `n` interpolated points from the last touch to
   * `p`; when there is room for all of them the last trail sits exactly on `p`.
   */
  function LayTrails(e: Engine, lastX: real, lastY: real, p: Point, n: nat, h: Host, k: nat): (r: (Engine, nat))
    requires Wf(e) && h.Valid() && n >= 1
    ensures Extends(e, r.0) && |r.0.particles| == |e.particles| + Min(n, Room(e))
    ensures Room(e) >= n ==> IsTrailAt(r.0.store[r.0.particles[|e.particles| + n - 1]], p)
  {
    var pts := TrailPoints(lastX, lastY, p.x - lastX, p.y - lastY, n);
    assert pts[n - 1] == p;
    SpawnTrails(e, pts, h, k)
  }

  /** `handleTap`: a soft burst at the event's point, if it has one. */
  function Tap(e: Engine, ev: Event, h: Host, k: nat): (r: (Engine, nat))
    requires Wf(e) && h.Valid()
    ensures GetPointFromEvent(ev).None? ==> r == (e, k)
    ensures GetPointFromEvent(ev).Some? ==>
              var p := GetPointFromEvent(ev).value;
              r == BurstAt(e, p.x, p.y, true, h, k)
  {
    match GetPointFromEvent(ev)
    case None => (e, k)
    case Some(p) => BurstAt(e, p.x, p.y, true, h, k)
  }

  /** `handleTouchStart`: remember the point and time, and leave one trail there. */
  function TouchStart(e: Engine, ev: Event, now: real, h: Host, k: nat): (r: (Engine, nat))
    requires Wf(e) && h.Valid()
    ensures GetPointFromEvent(ev).None? ==> r == (e, k)
    ensures GetPointFromEvent(ev).Some? ==>
              var p := GetPointFromEvent(ev).value;
              && r.0.lastTouchX == Some(p.x) && r.0.lastTouchY == Some(p.y) && r.0.lastTrailAt == now
              && Wf(r.0) && |r.0.particles| == |e.particles| + Min(1, Room(e))
    ensures GetPointFromEvent(ev).Some? ==>
              var p := GetPointFromEvent(ev).value;
              var e1 := e.(lastTouchX := Some(p.x), lastTouchY := Some(p.y), lastTrailAt := now);
              && (Room(e) == 0 ==> r == (e1, k))
              && (Room(e) > 0 ==> && Extends(e1, r.0) && r.1 == k + TrailDraws
                                  && r.0.store[r.0.particles[|e.particles|]] == TrailRecord(p.x, p.y, h, k)
                                  && IsTrailAt(r.0.store[r.0.particles[|e.particles|]], p))
  {
    match GetPointFromEvent(ev)
    case None => (e, k)
    case Some(p) =>
      var e1 := e.(lastTouchX := Some(p.x), lastTouchY := Some(p.y), lastTrailAt := now);
      assert Room(e1) == Room(e);
      SpawnTouchTrail(e1, p.x, p.y, h, k)
  }

  /** `handleTouchEnd`: forget the last touch point. */
  function TouchEnd(e: Engine): (r: Engine)
    ensures r.lastTouchX.None? && r.lastTouchY.None?
    ensures r == e.(lastTouchX := None, lastTouchY := None)
  {
    e.(lastTouchX := None, lastTouchY := None)
  }

  /** Whether a move at `now` is throttled by the current tier's trail interval. */
  predicate Throttled(e: Engine, now: real) {
    now - e.lastTrailAt < Tier(e.quality).trailEmitIntervalMs
  }

  /** The distance of a move as the source measures it, through the host's square root. */
  function MoveSteps(lastX: real, lastY: real, p: Point, h: Host): (n: nat)
    ensures 1 <= n <= 3
  {
    StepCount(h.sqrt((p.x - lastX) * (p.x - lastX) + (p.y - lastY) * (p.y - lastY)))
  }

  /** An unthrottled move to `p`: record the point and time, then lay the trails. */
  function MoveTo(e: Engine, p: Point, now: real, h: Host, k: nat): (r: (Engine, nat))
    requires Wf(e) && h.Valid()
    ensures var n := MoveSteps(e.lastTouchX.GetOr(p.x), e.lastTouchY.GetOr(p.y), p, h);
            && r.0.lastTouchX == Some(p.x) && r.0.lastTouchY == Some(p.y) && r.0.lastTrailAt == now
            && Wf(r.0) && |r.0.particles| == |e.particles| + Min(n, Room(e))
            && (Room(e) >= n ==> IsTrailAt(r.0.store[r.0.particles[|e.particles| + n - 1]], p))
  {
    var lastX := e.lastTouchX.GetOr(p.x);
    var lastY := e.lastTouchY.GetOr(p.y);
    var e1 := e.(lastTouchX := Some(p.x), lastTouchY := Some(p.y), lastTrailAt := now);
    assert Room(e1) == Room(e) && Wf(e1);
    LayTrails(e1, lastX, lastY, p, MoveSteps(lastX, lastY, p, h), h, k)
  }

  /**
   * `handleTouchMove`: ignored without a point or inside the throttle
   * interval; otherwise it records the point and time and lays one to three
   * trails from the last touch (or the point itself) to the new point.
   */
  function TouchMove(e: Engine, ev: Event, now: real, h: Host, k: nat): (r: (Engine, nat))
    requires Wf(e) && h.Valid()
    ensures GetPointFromEvent(ev).None? || Throttled(e, now) ==> r == (e, k)
    ensures GetPointFromEvent(ev).Some? && !Throttled(e, now) ==>
              r == MoveTo(e, GetPointFromEvent(ev).value, now, h, k)
  {
    match GetPointFromEvent(ev)
    case None => (e, k)
    case Some(p) => if Throttled(e, now) then (e, k) else MoveTo(e, p, now, h, k)
  }
}
