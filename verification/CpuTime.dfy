/** CPU-time attribution: what one observation adds to each time bucket. */
module CpuTime {
  import opened Basics
  import opened Modular
  import opened Intervals
  import RegionSpans
  import RegionData

  datatype Source = CounterDelta | SampledOccupancy | LegacyUnknown

  datatype Observation = Observation(
    timestamp: u64, process: nat, thread: nat, cpu: Option<nat>, intervalStart: Option<u64>,
    weight: u64, source: Source)

  /** Start of the wall-time interval that ends at the timestamp; a sampled occupancy is a point. */
  function WallStart(o: Observation): Option<u64> {
    match o.source
    case CounterDelta => o.intervalStart
    case LegacyUnknown => var s: u64 := Max(0, o.timestamp - o.weight); Some(s)
    case SampledOccupancy => None
  }

  type Regions = Option<map<RegionSpans.Key, seq<TimeRange>>>

  /** The analysed range, the optional region selection, and the buckets that cut the range. */
  datatype View = View(range: TimeRange, regions: Regions, bucket: nat, buckets: nat) {
    ghost predicate Ok() {
      && range.start < range.end <= U64_MAX
      && 0 < bucket <= U64_MAX
      && (buckets - 1) * bucket < range.Length() <= buckets * bucket
      && RegionsOk(regions)
    }

    function InRange(t: int): bool { range.Covers(t) }

    /** First instant of a bucket, and its end cut off at the end of the range. */
    function BucketStart(b: int): int { Min(range.start + b * bucket, range.end) }
  }

  ghost predicate RegionsOk(regions: Regions) {
    regions.Some? ==> forall key :: Separated(RegionData.RangesOf(regions.value, key))
  }

  /** The parts of a stretch that the region selection keeps. */
  function ObservationRanges(regions: Regions, o: Observation, stretch: TimeRange): seq<TimeRange> {
    if stretch.start >= stretch.end then []
    else match regions
      case Some(m) => Intersections(RegionData.RangesOf(m, (o.process, o.thread)), stretch)
      case None => [stretch]
  }

  /** The parts of the observation's interval that lie in the range and in the selected regions. */
  function Pieces(range: TimeRange, regions: Regions, o: Observation): seq<TimeRange> {
    match WallStart(o)
    case None => []
    case Some(s) => ObservationRanges(regions, o, TimeRange(Max(s, range.start), Min(o.timestamp, range.end)))
  }

  function CoveredTime(range: TimeRange, regions: Regions, o: Observation): int {
    TotalLength(Pieces(range, regions, o))
  }

  function TotalLength(rs: seq<TimeRange>): int {
    if rs == [] then 0 else TotalLength(rs[..|rs| - 1]) + rs[|rs| - 1].Length()
  }

  ghost predicate Within(rs: seq<TimeRange>, range: TimeRange) {
    forall i :: 0 <= i < |rs| ==> range.start <= rs[i].start <= rs[i].end <= range.end
  }

  /** The pieces are separated, lie in the range and cover exactly the instants of the interval that are in
      the range and, if regions are selected, in one of the thread's regions. */
  lemma PiecesExact(range: TimeRange, regions: Regions, o: Observation)
    requires RegionsOk(regions)
    ensures Separated(Pieces(range, regions, o)) && Within(Pieces(range, regions, o), range)
    ensures WallStart(o).Some? ==>
              forall t :: Covered(Pieces(range, regions, o), t) <==>
                (WallStart(o).value <= t < o.timestamp && range.Covers(t) && InRegions(regions, o, t))
  {
    if WallStart(o).Some? {
      var stretch := TimeRange(Max(WallStart(o).value, range.start), Min(o.timestamp, range.end));
      if stretch.start < stretch.end {
        match regions {
          case Some(m) => IntersectionsExact(RegionData.RangesOf(m, (o.process, o.thread)), stretch);
          case None =>
            assert [stretch] + [] == [stretch];
            forall t ensures Covered([stretch], t) <==> stretch.Covers(t) { CoveredCons(stretch, [], t); }
        }
      }
    }
  }

  ghost predicate InRegions(regions: Regions, o: Observation, t: int) {
    regions.Some? ==> Covered(RegionData.RangesOf(regions.value, (o.process, o.thread)), t)
  }

  // ---- shares -------------------------------------------------------------------------------------------------

  /** The part of a weight that falls to `part` out of `whole` nanoseconds. */
  function Share(weight: nat, part: int, whole: int): real
    requires whole > 0
  {
    weight as real * part as real / whole as real
  }

  lemma ShareAdd(weight: nat, a: int, b: int, whole: int)
    requires whole > 0
    ensures Share(weight, a, whole) + Share(weight, b, whole) == Share(weight, a + b, whole)
    ensures Share(weight, 0, whole) == 0.0
  {
    var w, d := weight as real, whole as real;
    assert w * a as real + w * b as real == w * (a + b) as real;
    DivAdd(w * a as real, w * b as real, d);
  }

  lemma DivAdd(x: real, y: real, d: real)
    requires d != 0.0
    ensures x / d + y / d == (x + y) / d
  {
  }

  /** Time a piece has in common with the stretch from `low` to `high`. */
  function Overlap(p: TimeRange, low: int, high: int): int {
    Max(0, Min(p.end, high) - Max(p.start, low))
  }

  function PiecesOverlap(rs: seq<TimeRange>, low: int, high: int): int {
    if rs == [] then 0 else PiecesOverlap(rs[..|rs| - 1], low, high) + Overlap(rs[|rs| - 1], low, high)
  }

  /** Time of the observation's pieces inside a bucket. */
  function BucketTime(v: View, o: Observation, b: int): int {
    PiecesOverlap(Pieces(v.range, v.regions, o), v.BucketStart(b), v.BucketStart(b + 1))
  }

  /** What one observation adds to bucket `b`: a point its whole weight to the bucket that contains it, an
      interval the part of its weight that its covered time in the bucket has of the interval. */
  function BucketShare(v: View, o: Observation, b: int): real {
    if o.source == SampledOccupancy then
      if v.BucketStart(b) <= o.timestamp < v.BucketStart(b + 1) then o.weight as real else 0.0
    else
      match WallStart(o)
      case Some(s) => if s < o.timestamp then Share(o.weight, BucketTime(v, o, b), o.timestamp - s) else 0.0
      case None => 0.0
  }

  /** What one observation adds in all. */
  function Contribution(range: TimeRange, regions: Regions, o: Observation): real {
    if o.source == SampledOccupancy then (if range.Covers(o.timestamp) then o.weight as real else 0.0)
    else
      match WallStart(o)
      case Some(s) => if s < o.timestamp then Share(o.weight, CoveredTime(range, regions, o), o.timestamp - s) else 0.0
      case None => 0.0
  }

  // ---- conservation -------------------------------------------------------------------------------------------

  function ShareUpTo(v: View, o: Observation, n: nat): real {
    if n == 0 then 0.0 else ShareUpTo(v, o, n - 1) + BucketShare(v, o, n - 1)
  }

  function Clamped(x: int, p: TimeRange): int { if x < p.start then p.start else if x > p.end then p.end else x }

  lemma OverlapIs(p: TimeRange, low: int, high: int)
    requires p.start <= p.end && low <= high
    ensures Overlap(p, low, high) == Clamped(high, p) - Clamped(low, p)
  {
  }

  /** Adjacent stretches share a piece's time between them. */
  lemma {:induction false} OverlapSplit(rs: seq<TimeRange>, range: TimeRange, low: int, mid: int, high: int)
    requires Within(rs, range) && low <= mid <= high
    ensures PiecesOverlap(rs, low, mid) + PiecesOverlap(rs, mid, high) == PiecesOverlap(rs, low, high)
  {
    if rs != [] {
      var p := rs[|rs| - 1];
      OverlapSplit(rs[..|rs| - 1], range, low, mid, high);
      OverlapIs(p, low, mid);
      OverlapIs(p, mid, high);
      OverlapIs(p, low, high);
    }
  }

  lemma {:induction false} OverlapWhole(rs: seq<TimeRange>, range: TimeRange)
    requires Within(rs, range)
    ensures PiecesOverlap(rs, range.start, range.end) == TotalLength(rs)
    ensures PiecesOverlap(rs, range.start, range.start) == 0
  {
    if rs != [] { OverlapWhole(rs[..|rs| - 1], range); }
  }

  lemma BucketsAscend(v: View, b: nat)
    requires v.Ok()
    ensures v.range.start <= v.BucketStart(b) <= v.BucketStart(b + 1) <= v.range.end
    ensures v.BucketStart(0) == v.range.start && v.BucketStart(v.buckets) == v.range.end
  {
    MulMonotone(0, b, v.bucket);
    assert (b + 1) * v.bucket == b * v.bucket + v.bucket;
  }

  /** The first `n` buckets together hold the observation's covered time before bucket `n`. */
  lemma {:induction false} IntervalUpTo(v: View, o: Observation, n: nat)
    requires v.Ok() && o.source != SampledOccupancy && WallStart(o).Some? && WallStart(o).value < o.timestamp
    ensures ShareUpTo(v, o, n)
         == Share(o.weight, PiecesOverlap(Pieces(v.range, v.regions, o), v.range.start, v.BucketStart(n)),
                  o.timestamp - WallStart(o).value)
  {
    hide Share, Pieces, PiecesOverlap, Separated, RegionsOk;
    var rs := Pieces(v.range, v.regions, o);
    var whole := o.timestamp - WallStart(o).value;
    PiecesExact(v.range, v.regions, o);
    if n == 0 {
      OverlapWhole(rs, v.range);
      ShareAdd(o.weight, 0, 0, whole);
      assert v.BucketStart(0) == v.range.start;
    } else {
      IntervalUpTo(v, o, n - 1);
      BucketsAscend(v, n - 1);
      OverlapSplit(rs, v.range, v.range.start, v.BucketStart(n - 1), v.BucketStart(n));
      ShareAdd(o.weight, PiecesOverlap(rs, v.range.start, v.BucketStart(n - 1)), BucketTime(v, o, n - 1), whole);
    }
  }

  lemma {:induction false} PointUpTo(v: View, o: Observation, n: nat)
    requires v.Ok() && o.source == SampledOccupancy
    ensures ShareUpTo(v, o, n)
         == if v.range.start <= o.timestamp < v.BucketStart(n) then o.weight as real else 0.0
  {
    if n == 0 {
      assert v.BucketStart(0) == v.range.start;
    } else {
      PointUpTo(v, o, n - 1);
      BucketsAscend(v, n - 1);
    }
  }

  /** Over all buckets an observation adds exactly its contribution: for an interval, weight times the
      time inside the range and the selected regions, over the length of the interval. */
  lemma BucketsConserve(v: View, o: Observation)
    requires v.Ok()
    ensures ShareUpTo(v, o, v.buckets) == Contribution(v.range, v.regions, o)
  {
    hide Share, PiecesOverlap, Pieces;
    BucketsAscend(v, 0);
    if o.source == SampledOccupancy {
      PointUpTo(v, o, v.buckets);
    } else if WallStart(o).Some? && WallStart(o).value < o.timestamp {
      PiecesExact(v.range, v.regions, o);
      IntervalUpTo(v, o, v.buckets);
      OverlapWhole(Pieces(v.range, v.regions, o), v.range);
    } else {
      NothingUpTo(v, o, v.buckets);
    }
  }

  lemma {:induction false} NothingUpTo(v: View, o: Observation, n: nat)
    requires o.source != SampledOccupancy
    requires WallStart(o).Some? ==> WallStart(o).value >= o.timestamp
    ensures ShareUpTo(v, o, n) == 0.0
  {
    if n > 0 { NothingUpTo(v, o, n - 1); }
  }

  // ---- the attribution loops ----------------------------------------------------------------------------------

  /** The bucket of an instant, without the clamp the code applies. */
  lemma BucketOf(v: View, t: nat)
    requires v.Ok() && v.InRange(t)
    ensures 0 <= (t - v.range.start) / v.bucket < v.buckets
    ensures v.BucketStart((t - v.range.start) / v.bucket) <= t < v.BucketStart((t - v.range.start) / v.bucket + 1)
    ensures forall b: nat :: v.BucketStart(b) <= t < v.BucketStart(b + 1) ==> b == (t - v.range.start) / v.bucket
  {
    var d := t - v.range.start;
    var q := d / v.bucket;
    DivBound(d, v.bucket);
    assert d == q * v.bucket + d % v.bucket;
    assert (q + 1) * v.bucket == q * v.bucket + v.bucket;
    if q >= v.buckets { MulMonotone(v.buckets, q, v.bucket); }
    forall b: nat | v.BucketStart(b) <= t < v.BucketStart(b + 1) ensures b == q { BucketIs(v, t, b); }
  }

  lemma BucketIs(v: View, t: nat, b: nat)
    requires v.bucket > 0 && v.BucketStart(b) <= t < v.BucketStart(b + 1)
    ensures b == (t - v.range.start) / v.bucket
  {
    assert (b + 1) * v.bucket == b * v.bucket + v.bucket;
    var d := t - v.range.start;
    DivModIs(d, v.bucket, b, d - b * v.bucket);
  }

  /** Saturating arithmetic finds a bucket's exact bounds. */
  lemma BoundsExact(v: View, b: nat)
    requires v.Ok() && b < v.buckets
    ensures Min(U64_MAX, v.range.start + Min(U64_MAX, b * v.bucket)) == v.BucketStart(b)
    ensures Min(Min(U64_MAX, v.BucketStart(b) + v.bucket), v.range.end) == v.BucketStart(b + 1)
    ensures v.BucketStart(b) == v.range.start + b * v.bucket >= 0
  {
    MulMonotone(0, b, v.bucket);
    MulMonotone(b, v.buckets - 1, v.bucket);
    assert (b + 1) * v.bucket == b * v.bucket + v.bucket;
  }

  /** A later bucket starts no earlier. */
  lemma BucketsOrdered(v: View, a: nat, b: nat)
    requires v.Ok() && a <= b
    ensures v.BucketStart(a) <= v.BucketStart(b)
  {
    MulMonotone(a, b, v.bucket);
  }

  /** A piece has no time in buckets before its first or after its last. */
  lemma NoOverlap(v: View, p: TimeRange, first: nat, last: nat, b: nat)
    requires v.Ok() && p.start < p.end
    requires v.BucketStart(first) <= p.start && p.end <= v.BucketStart(last + 1)
    requires b < first || b > last
    ensures Overlap(p, v.BucketStart(b), v.BucketStart(b + 1)) == 0
  {
    hide View.BucketStart;
    if b < first {
      BucketsOrdered(v, b + 1, first);
    } else {
      BucketsOrdered(v, last + 1, b);
    }
  }

  ghost predicate Added(v: View, values: seq<real>, next: seq<real>, o: Observation, p: TimeRange, whole: nat, b: nat)
    requires b < |values| == |next| && whole > 0
  {
    next[b] == values[b] + Share(o.weight, Overlap(p, v.BucketStart(b), v.BucketStart(b + 1)), whole)
  }

  /** Adds to one bucket the share of a piece, with the bucket's bounds computed in words. */
  method AddBucket(v: View, o: Observation, p: TimeRange, whole: u64, b: nat, value: real) returns (r: real)
    requires v.Ok() && b < v.buckets && whole > 0
    ensures r == value + Share(o.weight, Overlap(p, v.BucketStart(b), v.BucketStart(b + 1)), whole)
  {
    hide Share;
    BoundsExact(v, b);
    ShareAdd(o.weight, 0, 0, whole);
    var bucketStart := Min(U64_MAX, v.range.start + Min(U64_MAX, b * v.bucket));
    var bucketEnd := Min(Min(U64_MAX, bucketStart + v.bucket), v.range.end);
    var overlapStart, overlapEnd := Max(p.start, bucketStart), Min(p.end, bucketEnd);
    r := value;
    if overlapStart < overlapEnd {
      r := value + Share(o.weight, overlapEnd - overlapStart, whole);
    }
  }

  /** The buckets of a piece's first and last instants, where the clamp to the last bucket changes nothing. */
  method TouchedBuckets(v: View, p: TimeRange) returns (first: nat, last: nat)
    requires v.Ok() && v.range.start <= p.start < p.end <= v.range.end
    ensures last < v.buckets && v.BucketStart(first) <= p.start && p.end <= v.BucketStart(last + 1)
  {
    BucketOf(v, p.start);
    BucketOf(v, p.end - 1);
    hide View.BucketStart;
    first := Min((p.start - v.range.start) / v.bucket, v.buckets - 1);
    last := Min((p.end - 1 - v.range.start) / v.bucket, v.buckets - 1);
  }

  /** Spreads one piece over the buckets it touches. */
  method AttributePiece(v: View, o: Observation, p: TimeRange, whole: u64, values: seq<real>) returns (next: seq<real>)
    requires v.Ok() && |values| == v.buckets && whole > 0
    requires v.range.start <= p.start < p.end <= v.range.end
    ensures |next| == v.buckets
    ensures forall b: nat :: b < v.buckets ==> Added(v, values, next, o, p, whole, b)
  {
    hide View.BucketStart, View.Ok, Share, Overlap;
    var first, last := TouchedBuckets(v, p);
    ShareAdd(o.weight, 0, 0, whole);
    next := values;
    for b := 0 to last + 1
      invariant |next| == v.buckets
      invariant forall c: nat :: c < b ==> Added(v, values, next, o, p, whole, c)
      invariant forall c: nat :: b <= c < v.buckets ==> next[c] == values[c]
    {
      if b < first {
        NoOverlap(v, p, first, last, b);
        continue;
      }
      var value := AddBucket(v, o, p, whole, b, next[b]);
      ghost var before := next;
      next := next[b := value];
      forall c: nat | c <= b ensures Added(v, values, next, o, p, whole, c) {
        if c < b { assert Added(v, values, before, o, p, whole, c); }
      }
    }
    forall b: nat | b < v.buckets ensures Added(v, values, next, o, p, whole, b) {
      if b > last { NoOverlap(v, p, first, last, b); }
    }
  }

  ghost predicate Grown(v: View, values: seq<real>, next: seq<real>, o: Observation, rs: seq<TimeRange>, whole: nat, b: nat)
    requires b < |values| == |next| && whole > 0
  {
    next[b] == values[b] + Share(o.weight, PiecesOverlap(rs, v.BucketStart(b), v.BucketStart(b + 1)), whole)
  }

  lemma GrowOne(v: View, values: seq<real>, mid: seq<real>, next: seq<real>, o: Observation, rs: seq<TimeRange>, p: TimeRange, whole: nat, b: nat)
    requires b < |values| == |mid| == |next| && whole > 0
    requires Grown(v, values, mid, o, rs, whole, b) && Added(v, mid, next, o, p, whole, b)
    ensures Grown(v, values, next, o, rs + [p], whole, b)
  {
    hide View.BucketStart, Share;
    var all := rs + [p];
    assert all[..|all| - 1] == rs;
    ShareAdd(o.weight, PiecesOverlap(rs, v.BucketStart(b), v.BucketStart(b + 1)),
             Overlap(p, v.BucketStart(b), v.BucketStart(b + 1)), whole);
  }

  /** Which observations the heatmap takes. */
  predicate Eligible(range: TimeRange, o: Observation) {
    && o.weight != 0
    && match o.source
       case SampledOccupancy => range.start <= o.timestamp < range.end
       case _ =>
         match WallStart(o)
         case None => false
         case Some(s) => s < o.timestamp && s < range.end && o.timestamp > range.start
  }

  /** Adds one observation to the buckets of its lane. */
  method Attribute(v: View, o: Observation, values: seq<real>) returns (next: seq<real>)
    requires v.Ok() && |values| == v.buckets && Eligible(v.range, o)
    ensures |next| == v.buckets
    ensures forall b: nat :: b < v.buckets ==> next[b] == values[b] + BucketShare(v, o, b)
  {
    hide View.BucketStart, Share, PiecesOverlap, Separated, Intersections;
    if o.source == SampledOccupancy {
      BucketOf(v, o.timestamp);
      var bucket: nat := Min((o.timestamp - v.range.start) / v.bucket, v.buckets - 1);
      next := values[bucket := values[bucket] + o.weight as real];
      return;
    }
    var start := WallStart(o).value;
    var whole: u64 := Max(0, o.timestamp - start);
    if whole == 0 {
      return values;
    }
    var stretch := TimeRange(Max(start, v.range.start), Min(o.timestamp, v.range.end));
    var intervals := ObservationRanges(v.regions, o, stretch);
    PiecesExact(v.range, v.regions, o);
    assert intervals == Pieces(v.range, v.regions, o);
    next := AttributePieces(v, o, intervals, whole, values);
    forall b: nat | b < v.buckets ensures next[b] == values[b] + BucketShare(v, o, b) {
      assert Grown(v, values, next, o, intervals, whole, b);
    }
  }

  method AttributePieces(v: View, o: Observation, rs: seq<TimeRange>, whole: u64, values: seq<real>) returns (next: seq<real>)
    requires v.Ok() && |values| == v.buckets && whole > 0 && Within(rs, v.range)
    ensures |next| == v.buckets
    ensures forall b: nat :: b < v.buckets ==> Grown(v, values, next, o, rs, whole, b)
  {
    hide View.BucketStart, Share, Added;
    next := values;
    ShareAdd(o.weight, 0, 0, whole);
    for i := 0 to |rs|
      invariant |next| == v.buckets
      invariant forall b: nat :: b < v.buckets ==> Grown(v, values, next, o, rs[..i], whole, b)
    {
      var before := next;
      ghost var done := rs[..i + 1];
      assert done == rs[..i] + [rs[i]];
      if rs[i].start >= rs[i].end {
        EmptyAdds(v, before, o, rs[i], whole);
      } else {
        next := AttributePiece(v, o, rs[i], whole, before);
      }
      forall b: nat | b < v.buckets ensures Grown(v, values, next, o, done, whole, b) {
        GrowOne(v, values, before, next, o, rs[..i], rs[i], whole, b);
      }
    }
    assert rs[..|rs|] == rs;
  }

  lemma EmptyAdds(v: View, values: seq<real>, o: Observation, p: TimeRange, whole: nat)
    requires whole > 0 && p.start >= p.end
    ensures forall b: nat :: b < |values| ==> Added(v, values, values, o, p, whole, b)
  {
    ShareAdd(o.weight, 0, 0, whole);
  }
}
