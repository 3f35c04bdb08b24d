/** The span forest, its lanes and its self time. */
module RegionTree {
  import opened Basics
  import opened Intervals
  import opened RegionSpans
  import opened RegionLanes

  ghost predicate WellFormed(raw: seq<RawSpan>) {
    InOrder(raw) && forall i :: 0 <= i < |raw| ==> raw[i].range.start <= raw[i].range.end
  }

  // ---- the forest -------------------------------------------------------------------------------------------

  /** Parents come earlier, belong to the same process, and enclose their same-thread children. */
  lemma ParentForest(raw: seq<RawSpan>, i: nat)
    requires InOrder(raw) && i < |raw| && Parent(raw, i).Some?
    ensures var p := Parent(raw, i).value;
      && p < i && raw[p].pid == raw[i].pid
      && (raw[p].tid == raw[i].tid ==> Encloses(raw[p], raw[i]))
  {
    hide IdentityBelow;
    var p := Parent(raw, i).value;
    assert p < i;
    assert SpanBefore(raw[p], raw[i]);
  }

  // ---- lanes ------------------------------------------------------------------------------------------------

  predicate Overlap(a: RawSpan, b: RawSpan) {
    a.range.start < b.range.end && b.range.start < a.range.end
  }

  /** Two overlapping spans of a thread never share a lane. */
  lemma ProperColouring(raw: seq<RawSpan>, depths: seq<nat>, i: nat, j: nat)
    requires InOrder(raw) && LanesOk(raw, depths) && i < j < |raw|
    requires ThreadOf(raw[i]) == ThreadOf(raw[j]) && Overlap(raw[i], raw[j])
    ensures depths[i] != depths[j]
  {
    assert LaneOk(raw, depths, j);
    assert Running(raw, i, j);
  }

  /** A span is drawn below its container. */
  lemma ContainerAbove(raw: seq<RawSpan>, depths: seq<nat>, i: nat)
    requires LanesOk(raw, depths) && i < |raw| && Container(raw, i).Some?
    ensures depths[Container(raw, i).value] < depths[i]
  {
    assert LaneOk(raw, depths, i);
  }

  /** The lanes are determined by the spans. */
  lemma {:induction false} LanesDetermined(raw: seq<RawSpan>, a: seq<nat>, b: seq<nat>, n: nat)
    requires LanesOk(raw, a) && LanesOk(raw, b) && n <= |raw|
    ensures a[..n] == b[..n]
    decreases n
  {
    hide Running;
    if n > 0 {
      var i := n - 1;
      LanesDetermined(raw, a, b, i);
      assert forall j :: 0 <= j < i ==> a[j] == a[..i][j] && b[j] == b[..i][j];
      assert forall d: nat :: LaneTaken(raw, a, i, d) <==> LaneTaken(raw, b, i, d);
      assert BaseLane(raw, a, i) == BaseLane(raw, b, i);
      assert LaneOk(raw, a, i) && LaneOk(raw, b, i);
      assert a[i] == b[i];
      assert a[..n] == a[..i] + [a[i]] && b[..n] == b[..i] + [b[i]];
    }
  }

  /** No span between `i` and `j` that can contain `j` outlasts `i`. */
  ghost predicate Innermost(raw: seq<RawSpan>, i: nat, j: nat)
    requires i < j < |raw|
  {
    forall k :: i < k < j && CanContain(raw, k, j) ==> raw[k].range.end <= raw[i].range.end
  }

  /** A complete span is drawn above one it contains if no container of the latter that starts in between
      crosses it, whatever else the thread holds. */
  lemma {:induction false} ContainedBelow(raw: seq<RawSpan>, depths: seq<nat>, i: nat, j: nat)
    requires InOrder(raw) && LanesOk(raw, depths) && i < j < |raw|
    requires CanContain(raw, i, j) && Innermost(raw, i, j)
    ensures depths[i] < depths[j]
    decreases j
  {
    var c := Container(raw, j).value;
    ContainerAbove(raw, depths, j);
    if i < c {
      assert SpanBefore(raw[c], raw[j]);
      assert CanContain(raw, i, c);
      forall k | i < k < c && CanContain(raw, k, c) ensures raw[k].range.end <= raw[i].range.end {
        assert CanContain(raw, k, j);
      }
      ContainedBelow(raw, depths, i, c);
    }
  }

  /** The spans of a thread are complete and no two of them cross. */
  ghost predicate Nested(raw: seq<RawSpan>, key: Key) {
    && (forall i :: 0 <= i < |raw| && ThreadOf(raw[i]) == key ==> raw[i].boundary.Complete?)
    && (forall i, j :: 0 <= i < j < |raw| && ThreadOf(raw[i]) == key && Running(raw, i, j)
          ==> raw[j].range.end <= raw[i].range.end)
  }

  /** On a properly nested thread lanes follow containment: every span still running is above. */
  lemma NestedLanes(raw: seq<RawSpan>, depths: seq<nat>, i: nat, j: nat)
    requires InOrder(raw) && LanesOk(raw, depths) && i < j < |raw|
    requires Nested(raw, ThreadOf(raw[j])) && Running(raw, i, j)
    ensures depths[i] < depths[j]
  {
    assert CanContain(raw, i, j);
    forall k | i < k < j && CanContain(raw, k, j) ensures raw[k].range.end <= raw[i].range.end {
      assert SpanBefore(raw[k], raw[j]);
      assert Running(raw, i, k);
    }
    ContainedBelow(raw, depths, i, j);
  }

  // ---- children and self time -------------------------------------------------------------------------------

  /** Only complete same-thread children take time away from their parent. */
  predicate Takes(raw: seq<RawSpan>, i: nat, p: nat)
    requires i < |raw| && p < |raw|
  {
    Parent(raw, i) == Some(p) && raw[i].tid == raw[p].tid && raw[i].boundary.Complete?
  }

  /** The clipped ranges of the children of `p` below `n`. */
  function Pieces(raw: seq<RawSpan>, p: nat, n: nat): seq<TimeRange>
    requires p < |raw| && n <= |raw|
  {
    if n == 0 then []
    else Pieces(raw, p, n - 1) + if Takes(raw, n - 1, p) then [Clip(raw[n - 1].range, raw[p].range)] else []
  }

  /** The child-range loop of `load_regions`. */
  method CollectChildren(raw: seq<RawSpan>, parents: seq<Option<nat>>) returns (children: seq<seq<TimeRange>>)
    requires InOrder(raw)
    requires |parents| == |raw| && forall i :: 0 <= i < |raw| ==> parents[i] == Parent(raw, i)
    ensures |children| == |raw|
    ensures forall p :: 0 <= p < |raw| ==> children[p] == Merged(Pieces(raw, p, |raw|))
  {
    hide Parent, InOrder;
    children := seq(|raw|, _ => []);
    for i := 0 to |raw|
      invariant |children| == |raw|
      invariant forall p :: 0 <= p < |raw| ==> children[p] == Pieces(raw, p, i)
    {
      if parents[i].Some? {
        ParentForest(raw, i);
        var p := parents[i].value;
        if raw[i].tid == raw[p].tid && raw[i].boundary.Complete? {
          children := children[p := children[p] + [Clip(raw[i].range, raw[p].range)]];
        }
      }
    }
    for p := 0 to |raw|
      invariant |children| == |raw|
      invariant forall q :: 0 <= q < p ==> children[q] == Merged(Pieces(raw, q, |raw|))
      invariant forall q :: p <= q < |raw| ==> children[q] == Pieces(raw, q, |raw|)
    {
      var merged := Merge(children[p]);
      children := children[p := merged];
    }
  }

  lemma {:induction false} PiecesCover(raw: seq<RawSpan>, p: nat, n: nat, t: int)
    requires WellFormed(raw) && p < |raw| && n <= |raw|
    ensures Covered(Pieces(raw, p, n), t)
       <==> exists i :: 0 <= i < n && Takes(raw, i, p) && raw[i].range.Covers(t)
  {
    hide Covered, Parent, InOrder, Takes;
    if n == 0 {
      NothingCovered(t);
    } else {
      PiecesCover(raw, p, n - 1, t);
      if Takes(raw, n - 1, p) {
        PieceIsRange(raw, n - 1, p);
        CoveredSnoc(Pieces(raw, p, n - 1), raw[n - 1].range, t);
      } else {
        assert Pieces(raw, p, n) == Pieces(raw, p, n - 1);
      }
    }
  }

  /** Clipping changes nothing: a same-thread parent encloses its child. */
  lemma PieceIsRange(raw: seq<RawSpan>, i: nat, p: nat)
    requires WellFormed(raw) && i < |raw| && p < |raw| && Takes(raw, i, p)
    ensures Clip(raw[i].range, raw[p].range) == raw[i].range
  {
    ParentForest(raw, i);
  }

  /** The gaps between separated ranges, from `cursor` to `end`. */
  function Gaps(cursor: nat, children: seq<TimeRange>, end: nat): seq<TimeRange>
    decreases |children|
  {
    if children == [] then if cursor < end then [TimeRange(cursor, end)] else []
    else (if cursor < children[0].start then [TimeRange(cursor, children[0].start)] else [])
         + Gaps(Max(cursor, children[0].end), children[1..], end)
  }

  /** The cursor loop that computes a span's self ranges. */
  method SelfRanges(range: TimeRange, children: seq<TimeRange>) returns (self: seq<TimeRange>)
    ensures self == Gaps(range.start, children, range.end)
  {
    self := [];
    var cursor: nat := range.start;
    assert children[0..] == children;
    for i := 0 to |children|
      invariant self + Gaps(cursor, children[i..], range.end) == Gaps(range.start, children, range.end)
    {
      var child := children[i];
      assert children[i..][1..] == children[i + 1..];
      var gap := if cursor < child.start then [TimeRange(cursor, child.start)] else [];
      Assoc(self, gap, Gaps(Max(cursor, child.end), children[i + 1..], range.end));
      self := self + gap;
      cursor := Max(cursor, child.end);
    }
    if cursor < range.end {
      self := self + [TimeRange(cursor, range.end)];
    }
  }

  /** Ranges that fit one after the other between two instants. */
  ghost predicate Within(rs: seq<TimeRange>, start: nat, end: nat) {
    Separated(rs) && forall i :: 0 <= i < |rs| ==> start <= rs[i].start && rs[i].end <= end
  }

  /** Gaps and ranges partition the interval, instant by instant. */
  lemma {:induction false} GapsPartition(cursor: nat, rs: seq<TimeRange>, end: nat, t: int)
    requires Within(rs, cursor, end) && cursor <= end
    ensures Covered(Gaps(cursor, rs, end), t) <==> cursor <= t < end && !Covered(rs, t)
    decreases |rs|
  {
    hide Covered;
    NothingCovered(t);
    if rs == [] {
      CoveredCons(TimeRange(cursor, end), [], t);
      assert [TimeRange(cursor, end)] + [] == [TimeRange(cursor, end)];
    } else {
      var r, rest := rs[0], rs[1..];
      assert rs == [r] + rest;
      CoveredCons(r, rest, t);
      GapsPartition(r.end, rest, end, t);
      if cursor < r.start {
        CoveredCons(TimeRange(cursor, r.start), Gaps(r.end, rest, end), t);
      } else {
        assert Gaps(cursor, rs, end) == Gaps(r.end, rest, end);
      }
      CoveredFrom(rest, r.end, t);
    }
  }

  lemma CoveredFrom(rs: seq<TimeRange>, start: nat, t: int)
    requires forall i :: 0 <= i < |rs| ==> start <= rs[i].start
    ensures Covered(rs, t) ==> start <= t
  {
  }

  /** The lengths add up. */
  lemma {:induction false} GapsLength(cursor: nat, rs: seq<TimeRange>, end: nat)
    requires Within(rs, cursor, end) && cursor <= end
    ensures Sum(Gaps(cursor, rs, end), Span) + Sum(rs, Span) == end - cursor
    decreases |rs|
  {
    if rs == [] {
      SumOne(TimeRange(cursor, end), Span);
    } else {
      var r, rest := rs[0], rs[1..];
      GapsLength(r.end, rest, end);
      FirstGap(cursor, rs, end);
    }
  }

  lemma FirstGap(cursor: nat, rs: seq<TimeRange>, end: nat)
    requires rs != []
    ensures Sum(Gaps(cursor, rs, end), Span)
         == Max(0, rs[0].start - cursor) + Sum(Gaps(Max(cursor, rs[0].end), rs[1..], end), Span)
  {
    hide Sum;
    var rest := Gaps(Max(cursor, rs[0].end), rs[1..], end);
    var gap := if cursor < rs[0].start then [TimeRange(cursor, rs[0].start)] else [];
    assert Gaps(cursor, rs, end) == gap + rest;
    SumAppend(gap, rest, Span);
    SumOne(TimeRange(cursor, rs[0].start), Span);
    SumNone(Span);
  }

  function ChildTime(raw: seq<RawSpan>, i: nat): seq<TimeRange>
    requires i < |raw|
  {
    Merged(Pieces(raw, i, |raw|))
  }

  function SelfTime(raw: seq<RawSpan>, i: nat): seq<TimeRange>
    requires i < |raw|
  {
    Gaps(raw[i].range.start, ChildTime(raw, i), raw[i].range.end)
  }

  /** Some child of `p` is running at the instant. */
  ghost predicate TakenAt(raw: seq<RawSpan>, p: nat, t: int)
    requires p < |raw|
  {
    exists i :: 0 <= i < |raw| && Takes(raw, i, p) && raw[i].range.Covers(t)
  }

  /** Merged child time stays inside the span. */
  lemma ChildTimeWithin(raw: seq<RawSpan>, p: nat)
    requires WellFormed(raw) && p < |raw|
    ensures Within(ChildTime(raw, p), raw[p].range.start, raw[p].range.end)
    ensures forall t :: Covered(ChildTime(raw, p), t) <==> TakenAt(raw, p, t)
  {
    hide Merged, Pieces, Takes, Covered, InOrder;
    var c := ChildTime(raw, p);
    MergedExact(Pieces(raw, p, |raw|));
    forall t ensures Covered(c, t) <==> TakenAt(raw, p, t) {
      PiecesCover(raw, p, |raw|, t);
    }
    forall k | 0 <= k < |c| ensures raw[p].range.start <= c[k].start && c[k].end <= raw[p].range.end {
      ChildInside(raw, p, c, k, c[k].start);
      ChildInside(raw, p, c, k, c[k].end - 1);
    }
  }

  lemma ChildInside(raw: seq<RawSpan>, p: nat, c: seq<TimeRange>, k: nat, t: nat)
    requires WellFormed(raw) && p < |raw| && k < |c| && c[k].Covers(t)
    requires Covered(c, t) ==> TakenAt(raw, p, t)
    ensures raw[p].range.Covers(t)
  {
    assert c[k] in c;
    var i :| 0 <= i < |raw| && Takes(raw, i, p) && raw[i].range.Covers(t);
    ParentForest(raw, i);
  }

  /** Self ranges and merged child ranges partition every span; the subtraction for self time never
      saturates and gives the total self length. */
  lemma SelfPartition(raw: seq<RawSpan>, i: nat)
    requires WellFormed(raw) && i < |raw|
    ensures forall t :: Covered(SelfTime(raw, i), t) <==> raw[i].range.Covers(t) && !Covered(ChildTime(raw, i), t)
    ensures forall t :: Covered(ChildTime(raw, i), t) ==> raw[i].range.Covers(t)
    ensures Sum(ChildTime(raw, i), Span) <= raw[i].range.Length()
    ensures Sum(SelfTime(raw, i), Span) == raw[i].range.Length() - Sum(ChildTime(raw, i), Span)
  {
    hide Merged, Pieces, Covered, InOrder;
    ChildTimeWithin(raw, i);
    var c, range := ChildTime(raw, i), raw[i].range;
    forall t ensures Covered(SelfTime(raw, i), t) <==> range.Covers(t) && !Covered(c, t) {
      GapsPartition(range.start, c, range.end, t);
    }
    forall t ensures Covered(c, t) ==> range.Covers(t) {
      if Covered(c, t) { WithinCovers(c, range, t); }
    }
    GapsLength(range.start, c, range.end);
    GapsNonNegative(range.start, c, range.end);
  }

  lemma WithinCovers(rs: seq<TimeRange>, range: TimeRange, t: int)
    requires Within(rs, range.start, range.end) && Covered(rs, t)
    ensures range.Covers(t)
  {
  }

  lemma {:induction false} GapsNonNegative(cursor: nat, rs: seq<TimeRange>, end: nat)
    ensures Sum(Gaps(cursor, rs, end), Span) >= 0
    decreases |rs|
  {
    if rs == [] {
      SumOne(TimeRange(cursor, end), Span);
    } else {
      GapsNonNegative(Max(cursor, rs[0].end), rs[1..], end);
      FirstGap(cursor, rs, end);
    }
  }

  // ---- who owns an instant ------------------------------------------------------------------------------------

  predicate Owns(raw: seq<RawSpan>, key: Key, i: nat, t: int)
    requires i < |raw|
  {
    ThreadOf(raw[i]) == key && raw[i].range.Covers(t)
  }

  /** The last span of a thread that covers an instant. */
  lemma {:induction false} LastOwner(raw: seq<RawSpan>, key: Key, t: int, n: nat) returns (m: nat)
    requires n <= |raw| && exists i :: 0 <= i < n && Owns(raw, key, i, t)
    ensures m < n && Owns(raw, key, m, t) && forall i :: m < i < n ==> !Owns(raw, key, i, t)
  {
    if Owns(raw, key, n - 1, t) {
      m := n - 1;
    } else {
      m := LastOwner(raw, key, t, n - 1);
    }
  }

  /** Every instant some span of a thread covers is self time of at least one span of that thread. */
  lemma EveryInstantOwned(raw: seq<RawSpan>, key: Key, t: int)
    requires WellFormed(raw) && exists i :: 0 <= i < |raw| && Owns(raw, key, i, t)
    ensures exists i :: 0 <= i < |raw| && ThreadOf(raw[i]) == key && Covered(SelfTime(raw, i), t)
  {
    hide Covered, InOrder;
    var m := LastOwner(raw, key, t, |raw|);
    SelfPartition(raw, m);
    ChildTimeWithin(raw, m);
    forall i | 0 <= i < |raw| && Takes(raw, i, m) ensures !raw[i].range.Covers(t) {
      ParentForest(raw, i);
      assert m < i && ThreadOf(raw[i]) == key;
      assert !Owns(raw, key, i, t);
    }
  }

  /** No span of the thread has a usable explicit parent. */
  ghost predicate Implicit(raw: seq<RawSpan>, key: Key) {
    forall i :: 0 <= i < |raw| && ThreadOf(raw[i]) == key ==> raw[i].parent == 0
  }

  /** On a nested thread without explicit parents, an ancestor's instant inside a later span is taken by
      one of the ancestor's children. */
  lemma {:induction false} TakenByChild(raw: seq<RawSpan>, key: Key, i: nat, j: nat, t: int) returns (k: nat)
    requires WellFormed(raw) && Nested(raw, key) && Implicit(raw, key)
    requires i < j < |raw| && Owns(raw, key, i, t) && Owns(raw, key, j, t)
    ensures k < |raw| && Takes(raw, k, i) && raw[k].range.Covers(t)
    decreases j
  {
    hide IdentityBelow;
    assert SpanBefore(raw[i], raw[j]);
    assert Running(raw, i, j) && CanContain(raw, i, j);
    var c := Container(raw, j).value;
    assert Parent(raw, j) == Some(c) && i <= c;
    if i == c {
      k := j;
    } else {
      assert SpanBefore(raw[c], raw[j]);
      k := TakenByChild(raw, key, i, c, t);
    }
  }

  /** On such a thread the owner of an instant is unique. */
  lemma OwnedOnce(raw: seq<RawSpan>, key: Key, i: nat, j: nat, t: int)
    requires WellFormed(raw) && Nested(raw, key) && Implicit(raw, key)
    requires i < |raw| && j < |raw| && ThreadOf(raw[i]) == key && ThreadOf(raw[j]) == key
    requires Covered(SelfTime(raw, i), t) && Covered(SelfTime(raw, j), t)
    ensures i == j
  {
    hide Covered, InOrder;
    SelfPartition(raw, i);
    SelfPartition(raw, j);
    ChildTimeWithin(raw, i);
    ChildTimeWithin(raw, j);
    if i < j {
      var k := TakenByChild(raw, key, i, j, t);
    } else if j < i {
      var k := TakenByChild(raw, key, j, i, t);
    }
  }
}
