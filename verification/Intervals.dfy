/** Half-open time ranges: merging, membership and clipping, as `RegionIntervals` does them. */
module Intervals {
  import opened Basics

  datatype TimeRange = TimeRange(start: nat, end: nat) {
    predicate Covers(t: int) { start <= t < end }

    function Length(): int { end - start }
  }

  function Span(r: TimeRange): int { r.Length() }

  /** Some range of the list covers the instant. */
  ghost predicate Covered(rs: seq<TimeRange>, t: int) {
    exists r <- rs :: r.Covers(t)
  }

  /** Non-empty ranges in ascending order with a gap between neighbours. */
  ghost predicate Separated(rs: seq<TimeRange>) {
    && (forall i :: 0 <= i < |rs| ==> rs[i].start < rs[i].end)
    && (forall i, j :: 0 <= i < j < |rs| ==> rs[i].end < rs[j].start)
  }

  lemma Coverer(rs: seq<TimeRange>, t: int) returns (i: nat)
    requires Covered(rs, t)
    ensures i < |rs| && rs[i].Covers(t)
  {
    var r :| r in rs && r.Covers(t);
    i :| 0 <= i < |rs| && rs[i] == r;
  }

  lemma CoveredCons(r: TimeRange, rs: seq<TimeRange>, t: int)
    ensures Covered([r] + rs, t) <==> r.Covers(t) || Covered(rs, t)
  {
    if Covered(rs, t) {
      var x :| x in rs && x.Covers(t);
      assert x in [r] + rs;
    }
    assert r in [r] + rs;
  }

  lemma CoveredSnoc(rs: seq<TimeRange>, r: TimeRange, t: int)
    ensures Covered(rs + [r], t) <==> Covered(rs, t) || r.Covers(t)
  {
    if Covered(rs, t) {
      var x :| x in rs && x.Covers(t);
      assert x in rs + [r];
    }
    assert r in rs + [r];
  }

  // ---- sorting -------------------------------------------------------------------------------------------

  /** The `(start, end)` key order. */
  predicate Before(a: TimeRange, b: TimeRange) {
    a.start < b.start || (a.start == b.start && a.end <= b.end)
  }

  ghost predicate Sorted(rs: seq<TimeRange>) {
    forall i, j :: 0 <= i < j < |rs| ==> Before(rs[i], rs[j])
  }

  function Insert(r: TimeRange, rs: seq<TimeRange>): seq<TimeRange> {
    if rs == [] || Before(r, rs[0]) then [r] + rs else [rs[0]] + Insert(r, rs[1..])
  }

  /** `sort_unstable_by_key`: some ascending arrangement of the same ranges. */
  function Sort(rs: seq<TimeRange>): seq<TimeRange> {
    if rs == [] then [] else Insert(rs[0], Sort(rs[1..]))
  }

  lemma {:induction false} InsertKeeps(r: TimeRange, rs: seq<TimeRange>)
    ensures multiset(Insert(r, rs)) == multiset(rs) + multiset{r}
  {
    if rs != [] && !Before(r, rs[0]) {
      InsertKeeps(r, rs[1..]);
      assert rs == [rs[0]] + rs[1..];
    }
  }

  lemma {:induction false} InsertSorted(r: TimeRange, rs: seq<TimeRange>)
    requires Sorted(rs)
    ensures Sorted(Insert(r, rs))
    ensures forall x <- Insert(r, rs) :: x == r || x in rs
  {
    if rs != [] && !Before(r, rs[0]) {
      InsertSorted(r, rs[1..]);
      forall x | x in Insert(r, rs[1..]) ensures Before(rs[0], x) {
        if x != r {
          var i :| 0 <= i < |rs[1..]| && rs[1..][i] == x;
          assert rs[i + 1] == x;
        }
      }
    }
  }

  lemma {:induction false} SortExact(rs: seq<TimeRange>)
    ensures Sorted(Sort(rs)) && multiset(Sort(rs)) == multiset(rs)
  {
    if rs != [] {
      SortExact(rs[1..]);
      InsertSorted(rs[0], Sort(rs[1..]));
      InsertKeeps(rs[0], Sort(rs[1..]));
      assert rs == [rs[0]] + rs[1..];
    }
  }

  // ---- merging -------------------------------------------------------------------------------------------

  /** One round of `merge`: extend the last range, append a non-empty one, or skip an empty one. */
  function MergeStep(merged: seq<TimeRange>, r: TimeRange): seq<TimeRange> {
    var n := |merged|;
    if n > 0 && r.start <= merged[n - 1].end then
      merged[n - 1 := merged[n - 1].(end := Max(merged[n - 1].end, r.end))]
    else if r.start < r.end then merged + [r]
    else merged
  }

  function MergeAll(merged: seq<TimeRange>, rest: seq<TimeRange>): seq<TimeRange>
    decreases |rest|
  {
    if rest == [] then merged else MergeAll(MergeStep(merged, rest[0]), rest[1..])
  }

  function Merged(rs: seq<TimeRange>): seq<TimeRange> {
    MergeAll([], Sort(rs))
  }

  /** `RegionIntervals::merge` for one thread. */
  method Merge(rs: seq<TimeRange>) returns (merged: seq<TimeRange>)
    ensures merged == Merged(rs)
  {
    var sorted := Sort(rs);
    merged := [];
    assert sorted[0..] == sorted;
    for i := 0 to |sorted|
      invariant MergeAll(merged, sorted[i..]) == Merged(rs)
    {
      assert sorted[i..][1..] == sorted[i + 1..];
      var r, n := sorted[i], |merged|;
      if n > 0 && r.start <= merged[n - 1].end {
        merged := merged[n - 1 := merged[n - 1].(end := Max(merged[n - 1].end, r.end))];
      } else if r.start < r.end {
        merged := merged + [r];
      }
    }
  }

  /** What a merge round preserves: separation, and every start seen so far at most the next one. */
  lemma MergeStepKeeps(merged: seq<TimeRange>, r: TimeRange)
    requires Separated(merged)
    requires |merged| > 0 ==> merged[|merged| - 1].start <= r.start
    ensures Separated(MergeStep(merged, r))
    ensures forall t :: Covered(MergeStep(merged, r), t) <==> Covered(merged, t) || r.Covers(t)
    ensures var m := MergeStep(merged, r); |m| > 0 ==> m[|m| - 1].start <= r.start
  {
    hide Covered;
    forall t ensures Covered(MergeStep(merged, r), t) <==> Covered(merged, t) || r.Covers(t) {
      MergeStepCovers(merged, r, t);
    }
  }

  lemma MergeStepCovers(merged: seq<TimeRange>, r: TimeRange, t: int)
    requires |merged| > 0 ==> merged[|merged| - 1].start <= r.start
    ensures Covered(MergeStep(merged, r), t) <==> Covered(merged, t) || r.Covers(t)
  {
    hide Covered;
    var n := |merged|;
    if n > 0 && r.start <= merged[n - 1].end {
      var front, last := merged[..n - 1], merged[n - 1];
      assert merged == front + [last];
      assert MergeStep(merged, r) == front + [last.(end := Max(last.end, r.end))];
      CoveredSnoc(front, last, t);
      CoveredSnoc(front, last.(end := Max(last.end, r.end)), t);
    } else if r.start < r.end {
      CoveredSnoc(merged, r, t);
    }
  }

  lemma {:induction false} MergeAllKeeps(merged: seq<TimeRange>, rest: seq<TimeRange>)
    requires Separated(merged) && Sorted(rest)
    requires |merged| > 0 && |rest| > 0 ==> merged[|merged| - 1].start <= rest[0].start
    ensures Separated(MergeAll(merged, rest))
    ensures forall t :: Covered(MergeAll(merged, rest), t) <==> Covered(merged, t) || Covered(rest, t)
    decreases |rest|
  {
    hide MergeStep;
    if rest != [] {
      MergeStepKeeps(merged, rest[0]);
      MergeAllKeeps(MergeStep(merged, rest[0]), rest[1..]);
      assert rest == [rest[0]] + rest[1..];
    }
  }

  /** Merging gives separated ranges with the same union, whatever the input. */
  lemma MergedExact(rs: seq<TimeRange>)
    ensures Separated(Merged(rs))
    ensures forall t :: Covered(Merged(rs), t) <==> Covered(rs, t)
  {
    SortExact(rs);
    MergeAllKeeps([], Sort(rs));
    forall r ensures r in Sort(rs) <==> r in rs {
      assert r in multiset(Sort(rs)) <==> r in multiset(rs);
    }
  }

  // ---- queries -------------------------------------------------------------------------------------------

  /** `partition_point`: the length of the leading part that satisfies `p`. */
  function PartitionPoint(rs: seq<TimeRange>, p: TimeRange -> bool): (n: nat)
    ensures n <= |rs|
    ensures forall i :: 0 <= i < n ==> p(rs[i])
    ensures n < |rs| ==> !p(rs[n])
  {
    if rs == [] || !p(rs[0]) then 0 else 1 + PartitionPoint(rs[1..], p)
  }

  function Contains(rs: seq<TimeRange>, t: nat): bool {
    var end := PartitionPoint(rs, (r: TimeRange) => r.start <= t);
    end > 0 && t < rs[end - 1].end
  }

  /** On a merged list the search answers exactly whether some range covers the instant. */
  lemma ContainsExact(rs: seq<TimeRange>, t: nat)
    requires Separated(rs)
    ensures Contains(rs, t) <==> Covered(rs, t)
  {
    var end := PartitionPoint(rs, (r: TimeRange) => r.start <= t);
    if Contains(rs, t) {
      assert rs[end - 1].Covers(t) && rs[end - 1] in rs;
    }
    if Covered(rs, t) {
      var i := Coverer(rs, t);
      assert i < end;
      if i < end - 1 { assert false; }
    }
  }

  function Clip(r: TimeRange, q: TimeRange): TimeRange {
    TimeRange(Max(r.start, q.start), Min(r.end, q.end))
  }

  /** The leading ranges that start before the query ends, clipped to the query. */
  function ClipWhile(rs: seq<TimeRange>, q: TimeRange): seq<TimeRange> {
    if rs == [] || rs[0].start >= q.end then [] else [Clip(rs[0], q)] + ClipWhile(rs[1..], q)
  }

  function Intersections(rs: seq<TimeRange>, q: TimeRange): seq<TimeRange> {
    ClipWhile(rs[PartitionPoint(rs, (r: TimeRange) => r.end <= q.start)..], q)
  }

  /** The pieces stay inside both the query and their ranges, in order and apart. */
  lemma {:induction false} ClipWhileSeparated(rs: seq<TimeRange>, q: TimeRange)
    requires Separated(rs) && q.start < q.end
    requires rs == [] || q.start < rs[0].end
    ensures Separated(ClipWhile(rs, q))
    ensures forall r <- ClipWhile(rs, q) :: q.start <= r.start && r.end <= q.end
    ensures rs != [] ==> forall r <- ClipWhile(rs, q) :: rs[0].start <= r.start
  {
    if rs != [] && rs[0].start < q.end {
      ClipWhileSeparated(rs[1..], q);
      var rest := ClipWhile(rs[1..], q);
      forall i | 0 <= i < |rest| ensures rs[0].end < rest[i].start {
        assert rest[i] in rest && rs[1..] != [] && rs[0].end < rs[1].start;
      }
    }
  }

  lemma {:induction false} ClipWhileCovers(rs: seq<TimeRange>, q: TimeRange, t: int)
    requires Separated(rs)
    ensures Covered(ClipWhile(rs, q), t) <==> Covered(rs, t) && q.Covers(t)
  {
    hide Covered, Separated;
    NothingCovered(t);
    if rs != [] {
      assert rs == [rs[0]] + rs[1..];
      CoveredCons(rs[0], rs[1..], t);
      SeparatedTail(rs, t);
      if rs[0].start < q.end {
        ClipWhileCovers(rs[1..], q, t);
        CoveredCons(Clip(rs[0], q), ClipWhile(rs[1..], q), t);
      }
    }
  }

  lemma NothingCovered(t: int)
    ensures !Covered([], t)
  {
  }

  /** What follows the first range starts after it. */
  lemma SeparatedTail(rs: seq<TimeRange>, t: int)
    requires Separated(rs) && rs != []
    ensures Separated(rs[1..]) && rs[0].start < rs[0].end && (Covered(rs[1..], t) ==> rs[0].end < t)
  {
    if Covered(rs[1..], t) {
      var i := Coverer(rs[1..], t);
      assert rs[0].end < rs[i + 1].start;
    }
  }

  /** Clipping a non-empty query gives separated pieces that cover exactly the common instants. */
  lemma IntersectionsExact(rs: seq<TimeRange>, q: TimeRange)
    requires Separated(rs) && q.start < q.end
    ensures Separated(Intersections(rs, q))
    ensures forall r <- Intersections(rs, q) :: q.start <= r.start && r.end <= q.end
    ensures forall t :: Covered(Intersections(rs, q), t) <==> Covered(rs, t) && q.Covers(t)
  {
    hide Covered, ClipWhile;
    var first := PartitionPoint(rs, (r: TimeRange) => r.end <= q.start);
    ClipWhileSeparated(rs[first..], q);
    forall t ensures Covered(Intersections(rs, q), t) <==> Covered(rs, t) && q.Covers(t) {
      ClipWhileCovers(rs[first..], q, t);
      SkipEnded(rs, first, q, t);
    }
  }

  /** Ranges that end before the query starts can be skipped. */
  lemma SkipEnded(rs: seq<TimeRange>, first: nat, q: TimeRange, t: int)
    requires first <= |rs| && forall i :: 0 <= i < first ==> rs[i].end <= q.start
    ensures q.Covers(t) ==> (Covered(rs[first..], t) <==> Covered(rs, t))
  {
    if q.Covers(t) && Covered(rs, t) {
      var i := Coverer(rs, t);
      assert i >= first && rs[i] == rs[first..][i - first];
    }
    if Covered(rs[first..], t) {
      var i := Coverer(rs[first..], t);
      assert rs[first..][i] == rs[first + i];
    }
  }

  /** An empty query is not answered by an empty list: this one yields an empty piece. */
  lemma EmptyQueryYieldsPiece()
    ensures Intersections([TimeRange(0, 10)], TimeRange(5, 5)) == [TimeRange(5, 5)]
  {
    var rs := [TimeRange(0, 10)];
    assert rs[1..] == [];
    assert rs[0..] == rs;
  }

  /** Every piece is non-empty exactly when the query is, or when no range reaches around it. */
  lemma IntersectionsProper(rs: seq<TimeRange>, q: TimeRange)
    requires Separated(rs)
    ensures (forall r <- Intersections(rs, q) :: r.start < r.end)
       <==> (q.start < q.end || forall r <- rs :: !(r.start < q.end && q.start < r.end))
  {
    if q.start < q.end {
      IntersectionsExact(rs, q);
    } else {
      var first := PartitionPoint(rs, (r: TimeRange) => r.end <= q.start);
      var tail := rs[first..];
      if first < |rs| && tail[0].start < q.end {
        assert Intersections(rs, q)[0] == Clip(tail[0], q);
        assert rs[first] in rs;
      } else {
        forall r | r in rs ensures !(r.start < q.end && q.start < r.end) {
          var i :| 0 <= i < |rs| && rs[i] == r;
          if i > first { assert rs[first].end < rs[i].start; }
        }
      }
    }
  }
}
