/**
 * Quality tiers, colour tables and the start-up probe of the background
 * fireworks engine (`FireworksBackground`).
 */
module BackgroundConfig {
  import opened Wrappers
  import opened JsNumber
  import opened HostMath

  datatype Quality = Low | Medium | High {
    /** Position of the tier in the order low < medium < high. */
    function Rank(): nat {
      match this
      case Low => 0
      case Medium => 1
      case High => 2
    }
  }

  /** The fixed per-tier configuration record. */
  datatype TierConfig = TierConfig(
    autoIntervalMin: real,
    autoIntervalMax: real,
    burstMin: real,
    burstMax: real,
    trailEmitIntervalMs: real,
    maxParticles: nat,
    fadeAlpha: real,
    gravity: real,
    friction: real)

  function Tier(q: Quality): (c: TierConfig)
    ensures c.autoIntervalMin <= c.autoIntervalMax && c.burstMin <= c.burstMax
    ensures 0 < c.maxParticles <= 420
  {
    match q
    case Low => TierConfig(1900.0, 2600.0, 14.0, 22.0, 33.0, 220, 0.18, 0.085, 0.965)
    case Medium => TierConfig(1600.0, 2400.0, 18.0, 32.0, 22.0, 320, 0.14, 0.075, 0.972)
    case High => TierConfig(1600.0, 2400.0, 20.0, 34.0, 16.0, 420, 0.12, 0.07, 0.976)
  }

  /** A higher tier never allows fewer particles: the caps are ordered like the tiers. */
  lemma CapMonotone(a: Quality, b: Quality)
    requires a.Rank() <= b.Rank()
    ensures Tier(a).maxParticles <= Tier(b).maxParticles
  {
  }

  /** The one-step downgrade: high to medium, medium to low, low stays. */
  function Downgrade(q: Quality): (r: Quality)
    ensures r.Rank() == if q == Low then 0 else q.Rank() - 1
  {
    match q
    case High => Medium
    case Medium => Low
    case Low => Low
  }

  /** Colours for bursts; one palette is chosen per burst. */
  const BurstPalettes: seq<seq<string>> := [
    ["#ff2d2d", "#ffd700", "#ffffff"],
    ["#ff4800", "#ffd700", "#fff1c1"],
    ["#ff2d2d", "#ff8c00", "#ffd700"],
    ["#ffd700", "#ffffff", "#ff8c00"]
  ]

  const RocketColors: seq<string> := ["#ffffff", "#fff1c1", "#ffd700"]
  const SparkColors: seq<string> := ["#ffd700", "#fff1c1", "#ffffff"]
  const RingColor: string := "#fff1c1"

  /** A colour with its selection weight. */
  datatype Weighted = Weighted(value: string, weight: real)

  const TouchColors: seq<Weighted> := [
    Weighted("#ffffff", 55.0),
    Weighted("#fff1c1", 22.0),
    Weighted("#ffd700", 18.0),
    Weighted("#ff2d2d", 5.0)
  ]

  /** What the system-information probe produced. */
  datatype SystemProbe = ProbeThrew | Probe(benchmarkLevel: Option<Num>)

  /** `Number(sys?.benchmarkLevel || 0)`: a missing or falsy level reads as 0. */
  function BenchmarkLevel(p: SystemProbe): Num
    requires p.Probe?
  {
    match p.benchmarkLevel
    case None => Finite(0.0)
    case Some(n) => if n.Truthy() then n else Finite(0.0)
  }

  /** The probe succeeded and reported a finite level. */
  predicate FiniteLevel(p: SystemProbe) {
    p.Probe? && p.benchmarkLevel.Some? && p.benchmarkLevel.value.Finite?
  }

  function ReportedLevelOf(p: SystemProbe): real
    requires p.Probe? && p.benchmarkLevel.Some? && p.benchmarkLevel.value.Finite?
  {
    p.benchmarkLevel.value.v
  }

  /**
   * The initial tier: a finite positive benchmark level of at least 60 is
   * high, at most 20 is low, any other positive level is medium, and a missing,
   * zero, non-finite or failed probe is medium.
   */
  function DetectInitialQuality(p: SystemProbe): (q: Quality)
    ensures q == High <==> (FiniteLevel(p) && ReportedLevelOf(p) >= 60.0)
    ensures q == Low <==> (FiniteLevel(p) && 0.0 < ReportedLevelOf(p) <= 20.0)
  {
    if p.ProbeThrew? then Medium
    else
      var level := BenchmarkLevel(p);
      if level.IsFinite() && level.v > 0.0 then
        if level.v >= 60.0 then High
        else if level.v <= 20.0 then Low
        else Medium
      else Medium
  }

  /** Sum of the first `n` weights. */
  function PrefixWeight(items: seq<Weighted>, n: nat): real
    requires n <= |items|
  {
    if n == 0 then 0.0 else PrefixWeight(items, n - 1) + items[n - 1].weight
  }

  /** The subtract-and-test loop of `pickWeighted` from the first item on. */
  function WeightedScan(items: seq<Weighted>, r: real): Option<string> {
    if items == [] then None
    else if r - items[0].weight <= 0.0 then Some(items[0].value)
    else WeightedScan(items[1..], r - items[0].weight)
  }

  /** `pickWeighted(items)` for the draw `u`. */
  function PickWeighted(items: seq<Weighted>, u: real): string {
    var total := PrefixWeight(items, |items|);
    match WeightedScan(items, u * total)
    case Some(v) => v
    case None =>
      if |items| > 0 && items[|items| - 1].value != "" then items[|items| - 1].value else "#ffffff"
  }

  lemma {:induction false} PrefixWeightShift(items: seq<Weighted>, n: nat)
    requires 0 < n <= |items|
    ensures PrefixWeight(items, n) == items[0].weight + PrefixWeight(items[1..], n - 1)
  {
    if n > 1 {
      PrefixWeightShift(items, n - 1);
    }
  }

  /**
   * The scan returns the item at the least index `j` whose running weight
   * reaches `r`, and nothing when no running weight does.
   */
  lemma {:induction false} WeightedScanSelects(items: seq<Weighted>, r: real, j: nat)
    requires j < |items|
    requires r <= PrefixWeight(items, j + 1)
    requires forall i :: 1 <= i <= j ==> r > PrefixWeight(items, i)
    ensures WeightedScan(items, r) == Some(items[j].value)
  {
    PrefixWeightShift(items, j + 1);
    if j > 0 {
      PrefixWeightShift(items, 1);
      assert r > PrefixWeight(items, 1);
      forall i | 1 <= i <= j - 1
        ensures r - items[0].weight > PrefixWeight(items[1..], i)
      {
        PrefixWeightShift(items, i + 1);
        assert r > PrefixWeight(items, i + 1);
      }
      WeightedScanSelects(items[1..], r - items[0].weight, j - 1);
    }
  }

  /**
   * For the touch colours a draw `u` picks white below 55%, cream up to 77%,
   * gold up to 95% and red above: the cumulative weights split [0, 100).
   */
  lemma TouchColorBands(u: real)
    requires 0.0 <= u < 1.0
    ensures u * 100.0 <= 55.0 ==> PickWeighted(TouchColors, u) == "#ffffff"
    ensures 55.0 < u * 100.0 <= 77.0 ==> PickWeighted(TouchColors, u) == "#fff1c1"
    ensures 77.0 < u * 100.0 <= 95.0 ==> PickWeighted(TouchColors, u) == "#ffd700"
    ensures 95.0 < u * 100.0 ==> PickWeighted(TouchColors, u) == "#ff2d2d"
  {
    var items := TouchColors;
    assert PrefixWeight(items, 1) == 55.0;
    assert PrefixWeight(items, 2) == 77.0;
    assert PrefixWeight(items, 3) == 95.0;
    assert PrefixWeight(items, 4) == 100.0;
    var r := u * 100.0;
    if r <= 55.0 {
      WeightedScanSelects(items, r, 0);
    } else if r <= 77.0 {
      WeightedScanSelects(items, r, 1);
    } else if r <= 95.0 {
      WeightedScanSelects(items, r, 2);
    } else {
      WeightedScanSelects(items, r, 3);
    }
  }
}
