/** CPU-time shares counted in instants: what an observation adds, without the arithmetic that computes it. */
module CpuInstants {
  import opened Basics
  import opened Intervals
  import opened CpuTime
  import opened CpuBalance

  // ---- lengths are numbers of instants ------------------------------------------------------------------------

  function Stretch(low: int, high: int): (r: set<int>)
    ensures forall t :: t in r <==> low <= t < high
    ensures low <= high ==> |r| == high - low
    decreases high - low
  {
    if low >= high then {} else Stretch(low, high - 1) + {high - 1}
  }

  ghost function CoveredIn(rs: seq<TimeRange>, low: int, high: int): set<int> {
    set t | low <= t < high && Covered(rs, t)
  }

  /** The overlap of separated pieces with a stretch is the number of its instants they cover. */
  lemma {:induction false} OverlapCounts(rs: seq<TimeRange>, low: int, high: int)
    requires Separated(rs) && low <= high
    ensures PiecesOverlap(rs, low, high) == |CoveredIn(rs, low, high)|
  {
    if rs == [] {
      assert CoveredIn(rs, low, high) == {};
    } else {
      var front, p := rs[..|rs| - 1], rs[|rs| - 1];
      OverlapCounts(front, low, high);
      LastPiece(rs, low, high);
    }
  }

  lemma LastPiece(rs: seq<TimeRange>, low: int, high: int)
    requires Separated(rs) && rs != [] && low <= high
    ensures var front, p := rs[..|rs| - 1], rs[|rs| - 1];
      |CoveredIn(rs, low, high)| == |CoveredIn(front, low, high)| + Overlap(p, low, high)
  {
    hide Covered, Separated;
    var front, p := rs[..|rs| - 1], rs[|rs| - 1];
    var own := Stretch(Max(p.start, low), Max(Max(p.start, low), Min(p.end, high)));
    assert rs == front + [p];
    forall t ensures Covered(rs, t) <==> Covered(front, t) || p.Covers(t) { CoveredSnoc(front, p, t); }
    forall t ensures !(Covered(front, t) && p.Covers(t)) { EarlierEnd(rs, t); }
    assert CoveredIn(rs, low, high) == CoveredIn(front, low, high) + own;
    assert CoveredIn(front, low, high) !! own;
  }

  lemma EarlierEnd(rs: seq<TimeRange>, t: int)
    requires Separated(rs) && rs != []
    ensures !(Covered(rs[..|rs| - 1], t) && rs[|rs| - 1].Covers(t))
  {
    var front := rs[..|rs| - 1];
    if Covered(front, t) {
      var i := Coverer(front, t);
      assert rs[i].end < rs[|rs| - 1].start;
    }
  }

  // ---- what an interval adds ----------------------------------------------------------------------------------

  /** The wall-time interval of the observation starts at `s`: as recorded for a counter delta, one weight
      before its end for a legacy one. */
  predicate StartsAt(o: Observation, s: nat) {
    || (o.source == CounterDelta && o.intervalStart == Some(s))
    || (o.source == LegacyUnknown && s == if o.weight <= o.timestamp then o.timestamp - o.weight else 0)
  }

  /** The instants of the interval from `s` that lie in the range, in the selected regions and in a stretch. */
  ghost function Instants(range: TimeRange, regions: Regions, o: Observation, s: nat, low: int, high: int): set<int> {
    set t | range.start <= t < range.end && s <= t < o.timestamp && low <= t < high && InRegions(regions, o, t)
  }

  lemma StartIs(o: Observation, s: nat)
    requires StartsAt(o, s)
    ensures WallStart(o) == Some(s) && o.source != SampledOccupancy
  {
  }

  lemma InstantsAre(range: TimeRange, regions: Regions, o: Observation, s: nat, low: int, high: int)
    requires RegionsOk(regions) && StartsAt(o, s) && low <= high
    ensures PiecesOverlap(Pieces(range, regions, o), low, high) == |Instants(range, regions, o, s, low, high)|
  {
    hide Covered, Separated, InRegions, Pieces, PiecesOverlap, RegionsOk, CpuTime.Within;
    StartIs(o, s);
    var rs := Pieces(range, regions, o);
    PiecesExact(range, regions, o);
    OverlapCounts(rs, low, high);
    assert CoveredIn(rs, low, high) == Instants(range, regions, o, s, low, high);
  }

  lemma ShareTimes(weight: nat, part: int, whole: int)
    requires whole > 0
    ensures Share(weight, part, whole) * whole as real == weight as real * part as real
  {
    QuotientTimes(weight as real * part as real, whole as real);
  }

  lemma QuotientTimes(x: real, d: real)
    requires d != 0.0
    ensures x / d * d == x
  {
  }

  /** Cutting a stretch off at the end of the range loses no instant of the range. */
  lemma InstantsClipped(v: View, o: Observation, s: nat, low: int, high: int)
    ensures Instants(v.range, v.regions, o, s, Min(low, v.range.end), Min(high, v.range.end))
         == Instants(v.range, v.regions, o, s, low, high)
  {
    hide InRegions;
  }

  /** An interval adds to a bucket its weight for each instant of it there, spread over the whole interval. */
  lemma BucketExact(v: View, o: Observation, s: nat, b: nat)
    requires v.Ok() && b < v.buckets && StartsAt(o, s) && s < o.timestamp
    ensures var low, high := v.range.start + b * v.bucket, v.range.start + (b + 1) * v.bucket;
      BucketShare(v, o, b) * (o.timestamp - s) as real
      == o.weight as real * |Instants(v.range, v.regions, o, s, low, high)| as real
  {
    hide Share, Pieces, PiecesOverlap, RegionsOk, Instants;
    var low, high := v.range.start + b * v.bucket, v.range.start + (b + 1) * v.bucket;
    StartIs(o, s);
    BucketsAscend(v, b);
    BoundsExact(v, b);
    InstantsAre(v.range, v.regions, o, s, v.BucketStart(b), v.BucketStart(b + 1));
    InstantsClipped(v, o, s, low, high);
    ShareTimes(o.weight, BucketTime(v, o, b), o.timestamp - s);
  }

  /** Over all buckets an interval adds its weight times the number of its instants in the range and the
      selected regions, over the length of the interval. */
  lemma IntervalConserves(v: View, o: Observation, s: nat)
    requires v.Ok() && StartsAt(o, s) && s < o.timestamp
    ensures ShareUpTo(v, o, v.buckets) * (o.timestamp - s) as real
         == o.weight as real * |Instants(v.range, v.regions, o, s, v.range.start, v.range.end)| as real
  {
    hide Share, Pieces, PiecesOverlap, InRegions, RegionsOk, ShareUpTo;
    StartIs(o, s);
    BucketsAscend(v, 0);
    IntervalUpTo(v, o, v.buckets);
    InstantsAre(v.range, v.regions, o, s, v.range.start, v.range.end);
    ShareTimes(o.weight, PiecesOverlap(Pieces(v.range, v.regions, o), v.range.start, v.range.end), o.timestamp - s);
  }

  /** An interval wholly in the range, with no regions selected, adds exactly its weight. */
  lemma WholeInterval(v: View, o: Observation, s: nat)
    requires v.Ok() && v.regions.None? && StartsAt(o, s)
    requires v.range.start <= s < o.timestamp <= v.range.end
    ensures ShareUpTo(v, o, v.buckets) == o.weight as real
  {
    hide ShareUpTo, RegionsOk, Stretch, Instants, View.Ok;
    IntervalConserves(v, o, s);
    AllInstants(v.range, o, s);
    Cancel(ShareUpTo(v, o, v.buckets), o.weight as real, (o.timestamp - s) as real);
  }

  lemma AllInstants(range: TimeRange, o: Observation, s: nat)
    requires range.start <= s < o.timestamp <= range.end
    ensures |Instants(range, None, o, s, range.start, range.end)| == o.timestamp - s
  {
    hide Stretch;
    assert Instants(range, None, o, s, range.start, range.end) == Stretch(s, o.timestamp);
  }

  lemma Cancel(x: real, y: real, d: real)
    requires d != 0.0 && x * d == y * d
    ensures x == y
  {
  }

  /** A legacy observation adds one nanosecond for each of its instants that counts. */
  lemma LegacyCountsInstants(v: View, o: Observation)
    requires v.Ok() && o.source == LegacyUnknown && 0 < o.weight <= o.timestamp
    ensures ShareUpTo(v, o, v.buckets)
         == |Instants(v.range, v.regions, o, o.timestamp - o.weight, v.range.start, v.range.end)| as real
  {
    hide ShareUpTo, RegionsOk, Instants;
    var s: nat := o.timestamp - o.weight;
    IntervalConserves(v, o, s);
    Cancel(ShareUpTo(v, o, v.buckets), |Instants(v.range, v.regions, o, s, v.range.start, v.range.end)| as real, o.weight as real);
  }

  /** A point adds its weight to the one bucket its instant lies in. */
  lemma PointExact(v: View, o: Observation, b: nat)
    requires v.Ok() && b < v.buckets && o.source == SampledOccupancy
    ensures BucketShare(v, o, b)
         == if v.range.Covers(o.timestamp) && v.range.start + b * v.bucket <= o.timestamp < v.range.start + (b + 1) * v.bucket
            then o.weight as real else 0.0
  {
    BoundsExact(v, b);
    BucketsAscend(v, b);
    assert (b + 1) * v.bucket == b * v.bucket + v.bucket;
  }

  /** An observation is eligible exactly if it has weight and an instant in the range: its own for a point, one
      of its interval otherwise. */
  lemma EligibleExactly(range: TimeRange, o: Observation)
    requires range.start < range.end
    ensures Eligible(range, o) <==>
      o.weight > 0 && (if o.source == SampledOccupancy then range.Covers(o.timestamp) else HasInstant(range, o))
  {
    if o.source != SampledOccupancy {
      if Eligible(range, o) {
        var s := WallStart(o).value;
        assert StartsAt(o, s);
        assert InInterval(range, o, s, Max(s, range.start));
      }
      if HasInstant(range, o) {
        var s: nat, t: int :| InInterval(range, o, s, t);
        StartIs(o, s);
      }
    }
  }

  predicate InInterval(range: TimeRange, o: Observation, s: nat, t: int) {
    StartsAt(o, s) && s <= t < o.timestamp && range.Covers(t)
  }

  ghost predicate HasInstant(range: TimeRange, o: Observation) { exists s: nat, t: int :: InInterval(range, o, s, t) }

  // ---- the same for the thread balance ------------------------------------------------------------------------

  /** The balance gives an interval the same time. */
  lemma BalanceExact(range: TimeRange, regions: Regions, o: Observation, s: nat)
    requires RegionsOk(regions) && range.start <= range.end && StartsAt(o, s) && s < o.timestamp
    ensures BalanceWeight(range, regions, o) * (o.timestamp - s) as real
         == o.weight as real * |Instants(range, regions, o, s, range.start, range.end)| as real
  {
    hide Share, PiecesOverlap, InRegions, RegionsOk, ObservationRanges, TotalLength;
    StartIs(o, s);
    InstantsAre(range, regions, o, s, range.start, range.end);
    PiecesExact(range, regions, o);
    OverlapWhole(Pieces(range, regions, o), range);
    ShareTimes(o.weight, TotalLength(Pieces(range, regions, o)), o.timestamp - s);
  }

  /** An observation without an interval counts there in full. */
  lemma BalancePoint(range: TimeRange, regions: Regions, o: Observation)
    requires o.source == SampledOccupancy || (o.source == CounterDelta && o.intervalStart.None?)
    ensures BalanceWeight(range, regions, o) == o.weight as real
    ensures BalanceTakes(range, o) <==> range.Covers(o.timestamp)
  {
  }

  // ---- lanes --------------------------------------------------------------------------------------------------

  /** The time of the eligible observations on a CPU. */
  function TimeOnCpu(range: TimeRange, regions: Regions, obs: seq<Observation>, cpu: Option<nat>): real {
    if obs == [] then 0.0
    else
      var o := obs[|obs| - 1];
      TimeOnCpu(range, regions, obs[..|obs| - 1], cpu) + (if o.cpu == cpu then Contribution(range, regions, o) else 0.0)
  }

  lemma {:induction false} CpuGroup(range: TimeRange, regions: Regions, obs: seq<Observation>, cpu: Option<nat>)
    ensures GroupSum(HeatTags(range, regions, true, obs), Cpu(cpu)) == TimeOnCpu(range, regions, obs, cpu)
    decreases |obs|
  {
    hide Contribution, GroupSum;
    if obs == [] {
      EmptyGroup(Cpu(cpu));
    } else {
      var front, o := obs[..|obs| - 1], obs[|obs| - 1];
      CpuGroup(range, regions, front, cpu);
      GroupSnoc(HeatTags(range, regions, true, front), (LaneOf(true, o), Contribution(range, regions, o)), Cpu(cpu));
    }
  }

  /** With CPU lanes, a lane adds up to the time of the observations on that CPU. */
  lemma LaneMatchesCpu(obs: seq<Observation>, h: Heatmap, cpu: Option<nat>)
    requires h.view.Ok() && h.byCpu && LanesOk(h.view, true, obs, h.lanes) && Cpu(cpu) in h.lanes
    ensures SumReals(h.lanes[Cpu(cpu)]) == TimeOnCpu(h.view.range, h.view.regions, obs, cpu)
  {
    hide View.Ok, LanesOk, HeatTags, TimeOnCpu, GroupSum;
    LaneConserves(h.view, true, obs, h.lanes, Cpu(cpu));
    CpuGroup(h.view.range, h.view.regions, obs, cpu);
  }
}
