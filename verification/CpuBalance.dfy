/** The utilisation heatmap and the thread balance, and their agreement on CPU time. */
module CpuBalance {
  import opened Basics
  import opened Intervals
  import opened CpuTime
  import Grid

  // ---- sums by key --------------------------------------------------------------------------------------------

  /** The values tagged with a key, added up. */
  function GroupSum<K(==)>(tags: seq<(K, real)>, key: K): real {
    if tags == [] then 0.0
    else
      var last := tags[|tags| - 1];
      GroupSum(tags[..|tags| - 1], key) + (if last.0 == key then last.1 else 0.0)
  }

  function Total<K>(tags: seq<(K, real)>): real {
    if tags == [] then 0.0 else Total(tags[..|tags| - 1]) + tags[|tags| - 1].1
  }

  function SumReals(s: seq<real>): real {
    if s == [] then 0.0 else SumReals(s[..|s| - 1]) + s[|s| - 1]
  }

  /** The group sums of a list of keys, added up. */
  function KeysSum<K(==)>(tags: seq<(K, real)>, keys: seq<K>): real {
    if keys == [] then 0.0 else KeysSum(tags, keys[..|keys| - 1]) + GroupSum(tags, keys[|keys| - 1])
  }

  ghost predicate NoRepeat<K(!new)>(keys: seq<K>) {
    forall i, j :: 0 <= i < j < |keys| ==> keys[i] != keys[j]
  }

  lemma GroupSnoc<K>(tags: seq<(K, real)>, tag: (K, real), key: K)
    ensures GroupSum(tags + [tag], key) == GroupSum(tags, key) + (if tag.0 == key then tag.1 else 0.0)
    ensures Total(tags + [tag]) == Total(tags) + tag.1
  {
    assert (tags + [tag])[..|tags|] == tags;
  }

  lemma {:induction false} KeysSnoc<K(!new)>(tags: seq<(K, real)>, tag: (K, real), keys: seq<K>)
    requires NoRepeat(keys)
    ensures KeysSum(tags + [tag], keys) == KeysSum(tags, keys) + (if tag.0 in keys then tag.1 else 0.0)
  {
    hide GroupSum;
    if keys != [] {
      var front, last := keys[..|keys| - 1], keys[|keys| - 1];
      KeysSnoc(tags, tag, front);
      GroupSnoc(tags, tag, last);
      assert keys == front + [last];
    }
  }

  lemma {:induction false} KeysOfNothing<K>(keys: seq<K>)
    ensures KeysSum([], keys) == 0.0
  {
    if keys != [] { KeysOfNothing(keys[..|keys| - 1]); }
  }

  /** Listing every key once adds up every value once. */
  lemma {:induction false} KeysTotal<K(!new)>(tags: seq<(K, real)>, keys: seq<K>)
    requires NoRepeat(keys) && forall i :: 0 <= i < |tags| ==> tags[i].0 in keys
    ensures KeysSum(tags, keys) == Total(tags)
    decreases |tags|
  {
    if tags == [] {
      KeysOfNothing(keys);
    } else {
      var front, last := tags[..|tags| - 1], tags[|tags| - 1];
      KeysTotal(front, keys);
      KeysSnoc(front, last, keys);
      assert tags == front + [last];
    }
  }

  // ---- the heatmap --------------------------------------------------------------------------------------------

  datatype Lane = Cpu(cpu: Option<nat>) | Thread(thread: nat)

  function LaneOf(byCpu: bool, o: Observation): Lane {
    if byCpu then Cpu(o.cpu) else Thread(o.thread)
  }

  datatype Heatmap = Heatmap(view: View, byCpu: bool, lanes: map<Lane, seq<real>>)

  function EligibleOf(range: TimeRange, obs: seq<Observation>): (r: seq<Observation>)
    ensures forall i :: 0 <= i < |r| ==> Eligible(range, r[i])
  {
    if obs == [] then []
    else
      var o := obs[|obs| - 1];
      EligibleOf(range, obs[..|obs| - 1]) + (if Eligible(range, o) then [o] else [])
  }

  /** What a list of observations adds to one bucket of one lane. */
  function LaneBucket(v: View, byCpu: bool, obs: seq<Observation>, key: Lane, b: int): real {
    if obs == [] then 0.0
    else
      var o := obs[|obs| - 1];
      LaneBucket(v, byCpu, obs[..|obs| - 1], key, b) + (if LaneOf(byCpu, o) == key then BucketShare(v, o, b) else 0.0)
  }

  ghost predicate LaneOk(v: View, byCpu: bool, obs: seq<Observation>, key: Lane, values: seq<real>) {
    && |values| == v.buckets
    && forall b: nat :: b < v.buckets ==> values[b] == LaneBucket(v, byCpu, obs, key, b)
  }

  /** Every lane holds what the observations of that lane add to each bucket, and none is without a lane. */
  ghost predicate LanesOk(v: View, byCpu: bool, obs: seq<Observation>, lanes: map<Lane, seq<real>>) {
    && (forall key <- lanes :: LaneOk(v, byCpu, obs, key, lanes[key]))
    && (forall i :: 0 <= i < |obs| ==> LaneOf(byCpu, obs[i]) in lanes)
  }

  lemma BucketSnoc(v: View, byCpu: bool, obs: seq<Observation>, o: Observation, key: Lane, b: int)
    ensures LaneBucket(v, byCpu, obs + [o], key, b)
         == LaneBucket(v, byCpu, obs, key, b) + (if LaneOf(byCpu, o) == key then BucketShare(v, o, b) else 0.0)
  {
    assert (obs + [o])[..|obs|] == obs;
  }

  function Zeros(n: nat): (z: seq<real>)
    ensures |z| == n && forall i :: 0 <= i < n ==> z[i] == 0.0
  {
    seq(n, _ => 0.0)
  }

  /** A lane that no observation has used is all zeros. */
  lemma {:induction false} UnusedLane(v: View, byCpu: bool, obs: seq<Observation>, key: Lane, b: int)
    requires forall i :: 0 <= i < |obs| ==> LaneOf(byCpu, obs[i]) != key
    ensures LaneBucket(v, byCpu, obs, key, b) == 0.0
  {
    if obs != [] { UnusedLane(v, byCpu, obs[..|obs| - 1], key, b); }
  }

  lemma FreshLane(v: View, byCpu: bool, obs: seq<Observation>, lanes: map<Lane, seq<real>>, key: Lane)
    requires LanesOk(v, byCpu, obs, lanes) && key !in lanes
    ensures LaneOk(v, byCpu, obs, key, Zeros(v.buckets))
  {
    forall b: nat | b < v.buckets ensures Zeros(v.buckets)[b] == LaneBucket(v, byCpu, obs, key, b) {
      UnusedLane(v, byCpu, obs, key, b);
    }
  }

  lemma AddToLane(v: View, byCpu: bool, obs: seq<Observation>, o: Observation, lanes: map<Lane, seq<real>>, values: seq<real>, next: seq<real>)
    requires LanesOk(v, byCpu, obs, lanes)
    requires LaneOk(v, byCpu, obs, LaneOf(byCpu, o), values) && |next| == v.buckets
    requires LaneOf(byCpu, o) in lanes ==> values == lanes[LaneOf(byCpu, o)]
    requires forall b: nat :: b < v.buckets ==> next[b] == values[b] + BucketShare(v, o, b)
    ensures LanesOk(v, byCpu, obs + [o], lanes[LaneOf(byCpu, o) := next])
  {
    hide LaneBucket, BucketShare;
    var all := lanes[LaneOf(byCpu, o) := next];
    forall key | key in all ensures LaneOk(v, byCpu, obs + [o], key, all[key]) {
      forall b: nat | b < v.buckets ensures |all[key]| == v.buckets && all[key][b] == LaneBucket(v, byCpu, obs + [o], key, b) {
        BucketSnoc(v, byCpu, obs, o, key, b);
        if key != LaneOf(byCpu, o) { assert LaneOk(v, byCpu, obs, key, lanes[key]); }
      }
    }
  }

  /** The buckets cover the duration, and the last one is needed. */
  lemma BucketsCut(duration: u64, bucket: u64)
    requires duration > 0 && bucket > 0
    ensures var q := Grid.DivCeil(duration, bucket); q >= 1 && (q - 1) * bucket < duration <= q * bucket
  {
    hide Grid.DivCeil;
    Grid.DivCeilExact(duration, bucket);
    var q := Grid.DivCeil(duration, bucket);
    assert q * bucket >= duration;
    assert !((q - 1) * bucket >= duration);
    assert !(0 * bucket >= duration);
  }

  /** Buckets wide enough for `cap` of them are at most `cap`. */
  lemma BucketsFew(duration: u64, bucket: u64, cap: u64)
    requires bucket > 0 && cap > 0 && bucket >= Grid.DivCeil(duration, cap)
    ensures Grid.DivCeil(duration, bucket) <= cap
  {
    hide Grid.DivCeil;
    Grid.DivCeilExact(duration, cap);
    Grid.DivCeilExact(duration, bucket);
    assert bucket * cap >= duration;
    assert cap * bucket == bucket * cap;
  }

  /** The least nice length of which the given number of buckets covers the duration; the largest word if the
      duration is too long for any. */
  ghost predicate ChosenWidth(bucket: int, duration: int, cap: int) {
    if duration <= Grid.LARGEST_POWER * cap then
      && Grid.Nice(bucket) && bucket * cap >= duration
      && forall v :: Grid.Nice(v) && v * cap >= duration ==> v >= bucket
    else bucket == U64_MAX
  }

  lemma WidthChosen(duration: u64, bucket: u64, cap: u64)
    requires duration > 0 && cap > 0
    requires bucket >= Grid.DivCeil(duration, cap)
    requires Grid.DivCeil(duration, cap) <= Grid.LARGEST_POWER ==>
               Grid.Nice(bucket) && forall v :: Grid.Nice(v) && v >= Max(Grid.DivCeil(duration, cap), 1) ==> v >= bucket
    requires Grid.DivCeil(duration, cap) > Grid.LARGEST_POWER ==> bucket == U64_MAX
    ensures ChosenWidth(bucket, duration, cap)
  {
    hide Grid.DivCeil, Grid.Nice;
    Grid.DivCeilExact(duration, cap);
    Grid.CeilCovers(duration, cap);
    assert Grid.LARGEST_POWER * cap >= duration <==> Grid.LARGEST_POWER >= Grid.DivCeil(duration, cap);
    assert bucket * cap >= duration;
    forall v ensures v * cap >= duration <==> v >= Grid.DivCeil(duration, cap) {
    }
  }

  /** Chooses the bucket length and cuts the range; none for a zero length. */
  method ChooseBuckets(range: TimeRange, regions: Regions, maxBuckets: u64, bucketDuration: Option<u64>)
    returns (v: Option<View>)
    requires range.start < range.end <= U64_MAX && RegionsOk(regions)
    ensures v.None? <==> bucketDuration == Some(0)
    ensures v.Some? ==> v.value.Ok() && v.value.range == range && v.value.regions == regions
    ensures v.Some? && bucketDuration.None? ==> v.value.buckets <= Max(maxBuckets, 1)
    ensures v.Some? && bucketDuration.None? ==> ChosenWidth(v.value.bucket, range.Length(), Max(maxBuckets, 1))
    ensures v.Some? && bucketDuration.Some? ==> v.value.bucket == bucketDuration.value
  {
    var duration: u64 := range.end - range.start;
    var bucket: u64;
    match bucketDuration {
      case Some(d) =>
        if d == 0 {
          return None;
        }
        bucket := d;
      case None =>
        var width := Grid.NiceBinWidth(Grid.DivCeil(duration, Max(maxBuckets, 1)));
        bucket := Max(width, 1);
        BucketsFew(duration, bucket, Max(maxBuckets, 1));
        WidthChosen(duration, bucket, Max(maxBuckets, 1));
    }
    BucketsCut(duration, bucket);
    var buckets: u64 := Max(Grid.DivCeil(duration, bucket), 1);
    v := Some(View(range, regions, bucket, buckets));
  }

  /** Builds the heatmap from the observations that pass the filter's other conditions. There is none exactly
      for an empty range, a zero bucket length or no eligible observation. */
  method BuildHeatmap(obs: seq<Observation>, range: TimeRange, regions: Regions, maxBuckets: u64,
                      bucketDuration: Option<u64>, logicalCpus: Option<nat>)
    returns (h: Option<Heatmap>)
    requires range.end <= U64_MAX && RegionsOk(regions)
    ensures h.None? <==> range.start >= range.end || bucketDuration == Some(0) || EligibleOf(range, obs) == []
    ensures h.Some? ==>
              && h.value.view.Ok() && h.value.view.range == range && h.value.view.regions == regions
              && (h.value.byCpu <==> forall o <- EligibleOf(range, obs) :: o.cpu.Some?)
              && LanesOk(h.value.view, h.value.byCpu, EligibleOf(range, obs), h.value.lanes)
              && KeysOk(h.value.byCpu, EligibleOf(range, obs), logicalCpus, h.value.lanes.Keys)
              && (bucketDuration.Some? ==> h.value.view.bucket == bucketDuration.value)
              && (bucketDuration.None? ==> ChosenWidth(h.value.view.bucket, range.Length(), Max(maxBuckets, 1)))
  {
    hide LanesOk, View.Ok, RegionsOk, Eligible, LaneOk, KeysOk, ChosenWidth, UsedKey;
    var duration := Max(0, range.end - range.start);
    if duration == 0 {
      return None;
    }
    var chosen := ChooseBuckets(range, regions, maxBuckets, bucketDuration);
    if chosen.None? {
      return None;
    }
    var v := chosen.value;
    var eligible := EligibleOf(range, obs);
    if eligible == [] {
      return None;
    }
    var byCpu := forall i :: 0 <= i < |eligible| ==> eligible[i].cpu.Some?;
    var lanes := InitialLanes(v, byCpu, logicalCpus);
    for i := 0 to |eligible|
      invariant LanesOk(v, byCpu, eligible[..i], lanes)
      invariant KeysOk(byCpu, eligible[..i], logicalCpus, lanes.Keys)
    {
      var o := eligible[i];
      assert eligible[..i + 1] == eligible[..i] + [o];
      KeysGrow(byCpu, eligible[..i], o, logicalCpus, lanes.Keys);
      lanes := AddObservation(v, byCpu, eligible[..i], o, lanes);
    }
    assert eligible[..|eligible|] == eligible;
    h := Some(Heatmap(v, byCpu, lanes));
  }

  /** A key some observation uses. */
  ghost predicate UsedKey(byCpu: bool, obs: seq<Observation>, key: Lane) {
    exists i :: 0 <= i < |obs| && key == if byCpu then Cpu(obs[i].cpu) else Thread(obs[i].thread)
  }

  /** There is a lane for each key in use and, with CPU lanes, for each logical CPU, busy or not; and no other. */
  ghost predicate KeysOk(byCpu: bool, obs: seq<Observation>, logicalCpus: Option<nat>, keys: set<Lane>) {
    forall key :: key in keys <==>
      (UsedKey(byCpu, obs, key)
       || (byCpu && logicalCpus.Some? && key.Cpu? && key.cpu.Some? && key.cpu.value < logicalCpus.value))
  }

  lemma KeysGrow(byCpu: bool, obs: seq<Observation>, o: Observation, logicalCpus: Option<nat>, keys: set<Lane>)
    requires KeysOk(byCpu, obs, logicalCpus, keys)
    ensures KeysOk(byCpu, obs + [o], logicalCpus, keys + {LaneOf(byCpu, o)})
  {
    var all := obs + [o];
    forall key ensures UsedKey(byCpu, all, key) <==> UsedKey(byCpu, obs, key) || key == LaneOf(byCpu, o) {
      if UsedKey(byCpu, obs, key) {
        var i :| 0 <= i < |obs| && key == if byCpu then Cpu(obs[i].cpu) else Thread(obs[i].thread);
        assert all[i] == obs[i];
      }
      assert all[|obs|] == o;
    }
  }

  /** Every logical CPU has a lane from the start. */
  method InitialLanes(v: View, byCpu: bool, logicalCpus: Option<nat>) returns (lanes: map<Lane, seq<real>>)
    ensures LanesOk(v, byCpu, [], lanes) && KeysOk(byCpu, [], logicalCpus, lanes.Keys)
  {
    lanes := map[];
    if byCpu && logicalCpus.Some? {
      for cpu := 0 to logicalCpus.value
        invariant LanesOk(v, byCpu, [], lanes)
        invariant forall key :: key in lanes <==> key.Cpu? && key.cpu.Some? && key.cpu.value < cpu
      {
        lanes := lanes[Cpu(Some(cpu)) := Zeros(v.buckets)];
      }
    }
  }

  method AddObservation(v: View, byCpu: bool, ghost done: seq<Observation>, o: Observation, lanes: map<Lane, seq<real>>)
    returns (next: map<Lane, seq<real>>)
    requires v.Ok() && Eligible(v.range, o) && LanesOk(v, byCpu, done, lanes)
    ensures LanesOk(v, byCpu, done + [o], next)
    ensures next.Keys == lanes.Keys + {LaneOf(byCpu, o)}
  {
    hide View.Ok, Eligible, LaneBucket, BucketShare;
    var key := LaneOf(byCpu, o);
    var values := if key in lanes then lanes[key] else Zeros(v.buckets);
    if key !in lanes { FreshLane(v, byCpu, done, lanes, key); }
    var attributed := Attribute(v, o, values);
    next := lanes[key := attributed];
    AddToLane(v, byCpu, done, o, lanes, values, attributed);
  }

  // ---- lane totals --------------------------------------------------------------------------------------------

  /** The eligible observations' contributions, tagged with their lanes. */
  function HeatTags(range: TimeRange, regions: Regions, byCpu: bool, obs: seq<Observation>): (r: seq<(Lane, real)>)
    ensures |r| == |obs| && forall i :: 0 <= i < |r| ==> r[i].0 == LaneOf(byCpu, obs[i])
  {
    if obs == [] then []
    else
      var o := obs[|obs| - 1];
      HeatTags(range, regions, byCpu, obs[..|obs| - 1]) + [(LaneOf(byCpu, o), Contribution(range, regions, o))]
  }

  function LaneUpTo(v: View, byCpu: bool, obs: seq<Observation>, key: Lane, n: nat): real {
    if n == 0 then 0.0 else LaneUpTo(v, byCpu, obs, key, n - 1) + LaneBucket(v, byCpu, obs, key, n - 1)
  }

  lemma {:induction false} UpToSnoc(v: View, byCpu: bool, obs: seq<Observation>, o: Observation, key: Lane, n: nat)
    ensures LaneUpTo(v, byCpu, obs + [o], key, n)
         == LaneUpTo(v, byCpu, obs, key, n) + (if LaneOf(byCpu, o) == key then ShareUpTo(v, o, n) else 0.0)
  {
    hide LaneBucket, BucketShare;
    if n > 0 {
      UpToSnoc(v, byCpu, obs, o, key, n - 1);
      BucketSnoc(v, byCpu, obs, o, key, n - 1);
    }
  }

  lemma {:induction false} UpToNothing(v: View, byCpu: bool, key: Lane, n: nat)
    ensures LaneUpTo(v, byCpu, [], key, n) == 0.0
  {
    if n > 0 { UpToNothing(v, byCpu, key, n - 1); }
  }

  lemma {:induction false} LaneTotalIs(v: View, byCpu: bool, obs: seq<Observation>, key: Lane)
    requires v.Ok()
    ensures LaneUpTo(v, byCpu, obs, key, v.buckets) == GroupSum(HeatTags(v.range, v.regions, byCpu, obs), key)
    decreases |obs|
  {
    hide LaneUpTo, GroupSum, Contribution, View.Ok;
    if obs == [] {
      UpToNothing(v, byCpu, key, v.buckets);
      EmptyGroup(key);
    } else {
      var front, o := obs[..|obs| - 1], obs[|obs| - 1];
      assert obs == front + [o];
      LaneTotalIs(v, byCpu, front, key);
      UpToSnoc(v, byCpu, front, o, key, v.buckets);
      BucketsConserve(v, o);
      GroupSnoc(HeatTags(v.range, v.regions, byCpu, front), (LaneOf(byCpu, o), Contribution(v.range, v.regions, o)), key);
    }
  }

  lemma EmptyGroup<K>(key: K)
    ensures GroupSum<K>([], key) == 0.0
  {
  }

  lemma {:induction false} SumUpTo(v: View, byCpu: bool, obs: seq<Observation>, key: Lane, values: seq<real>, n: nat)
    requires LaneOk(v, byCpu, obs, key, values) && n <= |values|
    ensures SumReals(values[..n]) == LaneUpTo(v, byCpu, obs, key, n)
  {
    hide LaneBucket;
    if n > 0 {
      SumUpTo(v, byCpu, obs, key, values, n - 1);
      assert values[..n][..n - 1] == values[..n - 1];
    }
  }

  /** A lane's buckets add up to the contributions of its observations. */
  lemma LaneConserves(v: View, byCpu: bool, obs: seq<Observation>, lanes: map<Lane, seq<real>>, key: Lane)
    requires v.Ok() && LanesOk(v, byCpu, obs, lanes)
    ensures (if key in lanes then SumReals(lanes[key]) else 0.0) == GroupSum(HeatTags(v.range, v.regions, byCpu, obs), key)
  {
    hide View.Ok, LaneUpTo, HeatTags, GroupSum;
    LaneTotalIs(v, byCpu, obs, key);
    if key in lanes {
      SumUpTo(v, byCpu, obs, key, lanes[key], v.buckets);
      assert lanes[key][..v.buckets] == lanes[key];
    } else {
      UnusedUpTo(v, byCpu, obs, key, v.buckets);
    }
  }

  lemma {:induction false} UnusedUpTo(v: View, byCpu: bool, obs: seq<Observation>, key: Lane, n: nat)
    requires forall i :: 0 <= i < |obs| ==> LaneOf(byCpu, obs[i]) != key
    ensures LaneUpTo(v, byCpu, obs, key, n) == 0.0
  {
    if n > 0 {
      UnusedUpTo(v, byCpu, obs, key, n - 1);
      UnusedLane(v, byCpu, obs, key, n - 1);
    }
  }

  function LanesTotal(lanes: map<Lane, seq<real>>, keys: seq<Lane>): real
    requires forall i :: 0 <= i < |keys| ==> keys[i] in lanes
  {
    if keys == [] then 0.0 else LanesTotal(lanes, keys[..|keys| - 1]) + SumReals(lanes[keys[|keys| - 1]])
  }

  lemma {:induction false} LanesTotalIs(v: View, byCpu: bool, obs: seq<Observation>, lanes: map<Lane, seq<real>>, keys: seq<Lane>)
    requires v.Ok() && LanesOk(v, byCpu, obs, lanes) && forall i :: 0 <= i < |keys| ==> keys[i] in lanes
    ensures LanesTotal(lanes, keys) == KeysSum(HeatTags(v.range, v.regions, byCpu, obs), keys)
    decreases |keys|
  {
    hide View.Ok, LanesOk, HeatTags, GroupSum;
    if keys != [] {
      LanesTotalIs(v, byCpu, obs, lanes, keys[..|keys| - 1]);
      LaneConserves(v, byCpu, obs, lanes, keys[|keys| - 1]);
    }
  }

  // ---- the thread balance -------------------------------------------------------------------------------------

  predicate BalanceTakes(range: TimeRange, o: Observation) {
    match WallStart(o)
    case Some(s) => s < range.end && o.timestamp > range.start
    case None => range.start <= o.timestamp < range.end
  }

  function BalanceWeight(range: TimeRange, regions: Regions, o: Observation): real {
    match WallStart(o)
    case Some(s) =>
      var full := Max(0, o.timestamp - s);
      var stretch := TimeRange(Max(s, range.start), Min(o.timestamp, range.end));
      var overlap := TotalLength(ObservationRanges(regions, o, stretch));
      if full == 0 then 0.0 else Share(o.weight, overlap, full)
    case None => o.weight as real
  }

  function BalanceTags(range: TimeRange, regions: Regions, obs: seq<Observation>): seq<(nat, real)> {
    if obs == [] then []
    else
      var o := obs[|obs| - 1];
      BalanceTags(range, regions, obs[..|obs| - 1])
      + (if BalanceTakes(range, o) then [(o.thread, BalanceWeight(range, regions, o))] else [])
  }

  function TimeOf(m: map<nat, real>, thread: nat): real { if thread in m then m[thread] else 0.0 }

  ghost predicate BalanceOk(tags: seq<(nat, real)>, m: map<nat, real>) {
    && (forall t :: TimeOf(m, t) == GroupSum(tags, t))
    && (forall i :: 0 <= i < |tags| ==> tags[i].0 in m)
    && (forall t <- m :: exists i :: 0 <= i < |tags| && tags[i].0 == t)
  }

  /** The weight of one observation: of an interval the part that lies in the range and the regions. */
  method WeightOf(range: TimeRange, regions: Regions, o: Observation) returns (weight: real)
    ensures weight == BalanceWeight(range, regions, o)
  {
    hide ObservationRanges;
    var start := WallStart(o);
    if start.None? {
      return o.weight as real;
    }
    var full := Max(0, o.timestamp - start.value);
    var stretch := TimeRange(Max(start.value, range.start), Min(o.timestamp, range.end));
    var pieces := ObservationRanges(regions, o, stretch);
    var overlap := 0;
    for i := 0 to |pieces|
      invariant overlap == TotalLength(pieces[..i])
    {
      assert pieces[..i + 1][..i] == pieces[..i];
      overlap := overlap + (pieces[i].end - pieces[i].start);
    }
    assert pieces[..|pieces|] == pieces;
    weight := if full == 0 then 0.0 else o.weight as real * overlap as real / full as real;
  }

  /** The CPU-time part of the thread balance: per thread, the weights of the observations taken. */
  method BuildBalance(obs: seq<Observation>, range: TimeRange, regions: Regions) returns (m: Option<map<nat, real>>)
    ensures m.None? <==> range.start >= range.end
    ensures m.Some? ==> BalanceOk(BalanceTags(range, regions, obs), m.value)
  {
    hide BalanceWeight, BalanceOk;
    if Max(0, range.end - range.start) <= 0 {
      return None;
    }
    var cpuTime: map<nat, real> := map[];
    EmptyBalance();
    for k := 0 to |obs|
      invariant BalanceOk(BalanceTags(range, regions, obs[..k]), cpuTime)
    {
      var o := obs[k];
      assert obs[..k + 1][..k] == obs[..k];
      ghost var before := BalanceTags(range, regions, obs[..k]);
      var start := WallStart(o);
      var taken := if start.Some? then start.value < range.end && o.timestamp > range.start
                   else o.timestamp >= range.start && o.timestamp < range.end;
      assert taken == BalanceTakes(range, o);
      if taken {
        var weight := WeightOf(range, regions, o);
        BalanceSnoc(before, cpuTime, o.thread, weight);
        cpuTime := cpuTime[o.thread := TimeOf(cpuTime, o.thread) + weight];
      } else {
        assert before + [] == before;
      }
    }
    assert obs[..|obs|] == obs;
    m := Some(cpuTime);
  }

  lemma EmptyBalance()
    ensures BalanceOk([], map[])
  {
  }

  lemma BalanceSnoc(tags: seq<(nat, real)>, m: map<nat, real>, thread: nat, weight: real)
    requires BalanceOk(tags, m)
    ensures BalanceOk(tags + [(thread, weight)], m[thread := TimeOf(m, thread) + weight])
  {
    hide GroupSum;
    var all, next := tags + [(thread, weight)], m[thread := TimeOf(m, thread) + weight];
    forall t ensures TimeOf(next, t) == GroupSum(all, t) { GroupSnoc(tags, (thread, weight), t); }
    forall t | t in next ensures exists i :: 0 <= i < |all| && all[i].0 == t {
      if t == thread {
        assert all[|tags|].0 == t;
      } else {
        var i :| 0 <= i < |tags| && tags[i].0 == t;
        assert all[i].0 == t;
      }
    }
  }

  // ---- agreement ----------------------------------------------------------------------------------------------

  /** A counter delta in range that carries no interval start: the heatmap skips it, the balance counts it as
      a point. */
  predicate Orphan(range: TimeRange, o: Observation) {
    o.source == CounterDelta && o.intervalStart.None? && range.Covers(o.timestamp)
  }

  function OrphanTags(range: TimeRange, obs: seq<Observation>): seq<(nat, real)> {
    if obs == [] then []
    else
      var o := obs[|obs| - 1];
      OrphanTags(range, obs[..|obs| - 1]) + (if Orphan(range, o) then [(o.thread, o.weight as real)] else [])
  }

  function HeatPart(range: TimeRange, regions: Regions, o: Observation): real {
    if Eligible(range, o) then Contribution(range, regions, o) else 0.0
  }

  function BalancePart(range: TimeRange, regions: Regions, o: Observation): real {
    if BalanceTakes(range, o) then BalanceWeight(range, regions, o) else 0.0
  }

  function OrphanPart(range: TimeRange, o: Observation): real {
    if Orphan(range, o) then o.weight as real else 0.0
  }

  /** Observation by observation the two analyses differ only on orphans. */
  lemma PartsAgree(range: TimeRange, regions: Regions, o: Observation)
    ensures BalancePart(range, regions, o) == HeatPart(range, regions, o) + OrphanPart(range, o)
  {
    hide ObservationRanges, TotalLength;
  }

  lemma {:induction false} TotalsAgree(range: TimeRange, regions: Regions, byCpu: bool, obs: seq<Observation>)
    ensures Total(BalanceTags(range, regions, obs))
         == Total(HeatTags(range, regions, byCpu, EligibleOf(range, obs))) + Total(OrphanTags(range, obs))
    decreases |obs|
  {
    hide Eligible, Contribution, BalanceTakes, BalanceWeight, Orphan, Total;
    if obs == [] {
      NothingTotal<Lane>();
      NothingTotal<nat>();
    } else {
      var front, o := obs[..|obs| - 1], obs[|obs| - 1];
      TotalsAgree(range, regions, byCpu, front);
      PartsAgree(range, regions, o);
      BalanceGrows(range, regions, obs, 0);
      OrphansGrow(range, obs, 0);
      HeatGrows(range, regions, byCpu, obs, Thread(0));
    }
  }

  lemma NothingTotal<K>()
    ensures Total<K>([]) == 0.0
  {
  }

  lemma BalanceGrows(range: TimeRange, regions: Regions, obs: seq<Observation>, thread: nat)
    requires obs != []
    ensures var front, o := obs[..|obs| - 1], obs[|obs| - 1];
      && Total(BalanceTags(range, regions, obs)) == Total(BalanceTags(range, regions, front)) + BalancePart(range, regions, o)
      && GroupSum(BalanceTags(range, regions, obs), thread) == GroupSum(BalanceTags(range, regions, front), thread)
         + (if o.thread == thread then BalancePart(range, regions, o) else 0.0)
  {
    hide BalanceTakes, BalanceWeight;
    var front, o := obs[..|obs| - 1], obs[|obs| - 1];
    GroupSnoc(BalanceTags(range, regions, front), (o.thread, BalanceWeight(range, regions, o)), thread);
    assert BalanceTags(range, regions, front) + [] == BalanceTags(range, regions, front);
  }

  lemma OrphansGrow(range: TimeRange, obs: seq<Observation>, thread: nat)
    requires obs != []
    ensures var front, o := obs[..|obs| - 1], obs[|obs| - 1];
      && Total(OrphanTags(range, obs)) == Total(OrphanTags(range, front)) + OrphanPart(range, o)
      && GroupSum(OrphanTags(range, obs), thread) == GroupSum(OrphanTags(range, front), thread)
         + (if o.thread == thread then OrphanPart(range, o) else 0.0)
  {
    hide Orphan;
    var front, o := obs[..|obs| - 1], obs[|obs| - 1];
    GroupSnoc(OrphanTags(range, front), (o.thread, o.weight as real), thread);
    assert OrphanTags(range, front) + [] == OrphanTags(range, front);
  }

  lemma HeatGrows(range: TimeRange, regions: Regions, byCpu: bool, obs: seq<Observation>, lane: Lane)
    requires obs != []
    ensures var front, o := obs[..|obs| - 1], obs[|obs| - 1];
      var before, after := EligibleOf(range, front), EligibleOf(range, obs);
      && Total(HeatTags(range, regions, byCpu, after)) == Total(HeatTags(range, regions, byCpu, before)) + HeatPart(range, regions, o)
      && GroupSum(HeatTags(range, regions, byCpu, after), lane) == GroupSum(HeatTags(range, regions, byCpu, before), lane)
         + (if LaneOf(byCpu, o) == lane then HeatPart(range, regions, o) else 0.0)
  {
    hide Eligible, Contribution;
    var front, o := obs[..|obs| - 1], obs[|obs| - 1];
    var before, after := EligibleOf(range, front), EligibleOf(range, obs);
    if Eligible(range, o) {
      assert after == before + [o] && after[..|after| - 1] == before;
      GroupSnoc(HeatTags(range, regions, byCpu, before), (LaneOf(byCpu, o), Contribution(range, regions, o)), lane);
    } else {
      assert after == before;
    }
  }

  /** Thread by thread, when lanes are threads. */
  lemma {:induction false} ThreadsAgree(range: TimeRange, regions: Regions, obs: seq<Observation>, thread: nat)
    ensures GroupSum(BalanceTags(range, regions, obs), thread)
         == GroupSum(HeatTags(range, regions, false, EligibleOf(range, obs)), Thread(thread))
            + GroupSum(OrphanTags(range, obs), thread)
    decreases |obs|
  {
    hide Eligible, Contribution, BalanceTakes, BalanceWeight, Orphan, GroupSum;
    if obs == [] {
      EmptyGroup(Thread(thread));
      EmptyGroup(thread);
    } else {
      var front, o := obs[..|obs| - 1], obs[|obs| - 1];
      ThreadsAgree(range, regions, front, thread);
      PartsAgree(range, regions, o);
      BalanceGrows(range, regions, obs, thread);
      OrphansGrow(range, obs, thread);
      HeatGrows(range, regions, false, obs, Thread(thread));
    }
  }

  ghost predicate HasHeavyOrphan(range: TimeRange, obs: seq<Observation>) {
    exists i :: 0 <= i < |obs| && Orphan(range, obs[i]) && obs[i].weight > 0
  }

  lemma {:induction false} OrphanTotal(range: TimeRange, obs: seq<Observation>)
    ensures Total(OrphanTags(range, obs)) >= 0.0
    ensures Total(OrphanTags(range, obs)) == 0.0 <==> !HasHeavyOrphan(range, obs)
    decreases |obs|
  {
    hide Orphan, Total, OrphanTags;
    if obs == [] {
      NoOrphans(range);
    } else {
      var front, o := obs[..|obs| - 1], obs[|obs| - 1];
      OrphanTotal(range, front);
      OrphansGrow(range, obs, 0);
      assert HasHeavyOrphan(range, obs) <==> HasHeavyOrphan(range, front) || (Orphan(range, o) && o.weight > 0) by {
        if HasHeavyOrphan(range, front) {
          var i :| 0 <= i < |front| && Orphan(range, front[i]) && front[i].weight > 0;
          assert obs[i] == front[i];
        }
        if HasHeavyOrphan(range, obs) {
          var i :| 0 <= i < |obs| && Orphan(range, obs[i]) && obs[i].weight > 0;
          assert i < |front| ==> front[i] == obs[i];
        }
      }
    }
  }

  lemma NoOrphans(range: TimeRange)
    ensures Total(OrphanTags(range, [])) == 0.0
  {
  }

  function TimesTotal(m: map<nat, real>, threads: seq<nat>): real {
    if threads == [] then 0.0 else TimesTotal(m, threads[..|threads| - 1]) + TimeOf(m, threads[|threads| - 1])
  }

  lemma {:induction false} TimesTotalIs(tags: seq<(nat, real)>, m: map<nat, real>, threads: seq<nat>)
    requires BalanceOk(tags, m)
    ensures TimesTotal(m, threads) == KeysSum(tags, threads)
  {
    if threads != [] { TimesTotalIs(tags, m, threads[..|threads| - 1]); }
  }

  /** `keys` lists the keys of a map, each once. */
  ghost predicate Lists<K(!new), V>(keys: seq<K>, m: map<K, V>) {
    NoRepeat(keys) && (forall i :: 0 <= i < |keys| ==> keys[i] in m) && (forall k <- m :: k in keys)
  }

  /** The CPU time in all lanes of the heatmap and the CPU time of all threads in the balance differ by
      exactly the weight of the orphans, so they agree if and only if no orphan has weight. */
  lemma HeatmapMatchesBalance(obs: seq<Observation>, h: Heatmap, m: map<nat, real>, lanes: seq<Lane>, threads: seq<nat>)
    requires h.view.Ok() && LanesOk(h.view, h.byCpu, EligibleOf(h.view.range, obs), h.lanes)
    requires BalanceOk(BalanceTags(h.view.range, h.view.regions, obs), m)
    requires Lists(lanes, h.lanes) && Lists(threads, m)
    ensures TimesTotal(m, threads) == LanesTotal(h.lanes, lanes) + Total(OrphanTags(h.view.range, obs))
    ensures TimesTotal(m, threads) == LanesTotal(h.lanes, lanes) <==> !HasHeavyOrphan(h.view.range, obs)
  {
    hide View.Ok, HeatTags, BalanceTags, OrphanTags, EligibleOf, HasHeavyOrphan, KeysSum, Total, LaneOk, GroupSum, NoRepeat;
    var range, regions := h.view.range, h.view.regions;
    var eligible := EligibleOf(range, obs);
    var heat, balance := HeatTags(range, regions, h.byCpu, eligible), BalanceTags(range, regions, obs);
    LanesTotalIs(h.view, h.byCpu, eligible, h.lanes, lanes);
    KeysTotal(heat, lanes);
    TimesTotalIs(balance, m, threads);
    KeysTotal(balance, threads);
    TotalsAgree(range, regions, h.byCpu, obs);
    OrphanTotal(range, obs);
  }

  /** An orphan of the thread carries weight. */
  ghost predicate HasHeavyOrphanOf(range: TimeRange, obs: seq<Observation>, thread: nat) {
    exists i :: 0 <= i < |obs| && HeavyOrphan(range, obs[i], thread)
  }

  predicate HeavyOrphan(range: TimeRange, o: Observation, thread: nat) {
    Orphan(range, o) && o.thread == thread && o.weight > 0
  }

  lemma HeavySnoc(range: TimeRange, front: seq<Observation>, o: Observation, thread: nat)
    ensures HasHeavyOrphanOf(range, front + [o], thread)
       <==> HasHeavyOrphanOf(range, front, thread) || HeavyOrphan(range, o, thread)
  {
    hide HeavyOrphan;
    var obs := front + [o];
    if HasHeavyOrphanOf(range, front, thread) {
      var i :| 0 <= i < |front| && HeavyOrphan(range, front[i], thread);
      assert obs[i] == front[i];
    }
    assert obs[|front|] == o;
  }

  lemma {:induction false} OrphansOfThread(range: TimeRange, obs: seq<Observation>, thread: nat)
    ensures GroupSum(OrphanTags(range, obs), thread) >= 0.0
    ensures GroupSum(OrphanTags(range, obs), thread) == 0.0 <==> !HasHeavyOrphanOf(range, obs, thread)
    decreases |obs|
  {
    hide Orphan, GroupSum, OrphanTags, HasHeavyOrphanOf;
    if obs == [] {
      NoOrphansOfThread(range, thread);
    } else {
      var front, o := obs[..|obs| - 1], obs[|obs| - 1];
      OrphansOfThread(range, front, thread);
      OrphansGrow(range, obs, thread);
      assert obs == front + [o];
      HeavySnoc(range, front, o, thread);
    }
  }

  lemma NoOrphansOfThread(range: TimeRange, thread: nat)
    ensures GroupSum(OrphanTags(range, []), thread) == 0.0 && !HasHeavyOrphanOf(range, [], thread)
  {
  }

  /** What the heatmap shows for a thread, nothing if it has no lane. */
  function LaneTime(lanes: map<Lane, seq<real>>, thread: nat): real {
    if Thread(thread) in lanes then SumReals(lanes[Thread(thread)]) else 0.0
  }

  /** With thread lanes the same holds for each thread: lane and balance differ by the weight of the thread's
      orphans, so they agree if and only if none of them has weight. */
  lemma LaneMatchesThread(obs: seq<Observation>, h: Heatmap, m: map<nat, real>, thread: nat)
    requires h.view.Ok() && !h.byCpu && LanesOk(h.view, false, EligibleOf(h.view.range, obs), h.lanes)
    requires BalanceOk(BalanceTags(h.view.range, h.view.regions, obs), m)
    ensures TimeOf(m, thread) == LaneTime(h.lanes, thread) + GroupSum(OrphanTags(h.view.range, obs), thread)
    ensures TimeOf(m, thread) == LaneTime(h.lanes, thread) <==> !HasHeavyOrphanOf(h.view.range, obs, thread)
  {
    hide View.Ok, HeatTags, BalanceTags, OrphanTags, EligibleOf, LanesOk, GroupSum, HasHeavyOrphanOf;
    LaneConserves(h.view, false, EligibleOf(h.view.range, obs), h.lanes, Thread(thread));
    ThreadsAgree(h.view.range, h.view.regions, obs, thread);
    OrphansOfThread(h.view.range, obs, thread);
  }

  /** Thread 7 seen once on a CPU for 2 ns, and once in a counter delta of 3 ns without an interval start. */
  function OrphanedRecording(): seq<Observation> {
    [Observation(4, 1, 7, None, None, 2, SampledOccupancy), Observation(5, 1, 7, None, None, 3, CounterDelta)]
  }

  /** There the balance shows 5 ns and the heatmap 2 ns. */
  lemma OrphanTimeMissing(h: Heatmap, m: map<nat, real>)
    requires h.view.Ok() && !h.byCpu && h.view.range == TimeRange(0, 10) && h.view.regions == None
    requires LanesOk(h.view, false, EligibleOf(TimeRange(0, 10), OrphanedRecording()), h.lanes)
    requires BalanceOk(BalanceTags(TimeRange(0, 10), None, OrphanedRecording()), m)
    ensures TimeOf(m, 7) == 5.0 && LaneTime(h.lanes, 7) == 2.0
  {
    hide View.Ok, LanesOk, Contribution, GroupSum;
    var range, obs := TimeRange(0, 10), OrphanedRecording();
    LaneMatchesThread(obs, h, m, 7);
    assert obs[..1] == [obs[0]] && [obs[0]][..0] == [];
    assert OrphanTags(range, obs) == [(7, 3.0)];
    assert BalanceTags(range, None, obs) == [(7, 2.0), (7, 3.0)];
    GroupOf(7, 2.0, 3.0);
  }

  lemma GroupOf(key: nat, x: real, y: real)
    ensures GroupSum([(key, y)], key) == y && GroupSum([(key, x), (key, y)], key) == x + y
  {
    assert [(key, x), (key, y)][..1] == [(key, x)] && [(key, x)][..0] == [] && [(key, y)][..0] == [];
  }

  /** Without an eligible observation there is no heatmap, and the balance holds the orphans alone. */
  lemma NoHeatmapOnlyOrphans(obs: seq<Observation>, range: TimeRange, regions: Regions, m: map<nat, real>, thread: nat)
    requires EligibleOf(range, obs) == [] && BalanceOk(BalanceTags(range, regions, obs), m)
    ensures TimeOf(m, thread) == GroupSum(OrphanTags(range, obs), thread)
  {
    hide BalanceTags, OrphanTags, EligibleOf, GroupSum;
    ThreadsAgree(range, regions, obs, thread);
    EmptyGroup(Thread(thread));
    assert HeatTags(range, regions, false, []) == [];
  }
}
