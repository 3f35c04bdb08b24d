/** When a span is drawn above one it contains, and when not. */
module RegionNesting {
  import opened Basics
  import opened Intervals
  import opened RegionSpans
  import opened RegionLanes
  import opened RegionTree
  import opened RegionData

  /** Span `outer` of a thread comes before `inner`, is still running then, and ends no earlier. */
  predicate Contains(outer: RawSpan, inner: RawSpan) {
    && ThreadOf(outer) == ThreadOf(inner) && SpanBefore(outer, inner)
    && inner.range.start < outer.range.end && inner.range.end <= outer.range.end
  }

  /** The spans reconstructed from some recording. */
  ghost predicate Recorded(raw: seq<RawSpan>) {
    exists events :: Records(events, raw)
  }

  ghost predicate Records(events: seq<TraceEvent>, raw: seq<RawSpan>) {
    && InTimeOrder(events) && (forall i :: 0 <= i < |events| ==> events[i].timestamp <= U64_MAX)
    && LoadedSpans(events, None) == raw
  }

  lemma RecordedInOrder(raw: seq<RawSpan>)
    requires Recorded(raw)
    ensures InOrder(raw)
  {
    hide SpansOf, SortSpans;
    var events :| Records(events, raw);
    if events != [] {
      SortSpansExact(SpansOf(events, |events|, |events|, RecordingStart(events, None), RecordingEnd(events, None)));
    }
  }

  /** A recording where `a` comes before `b`, `k` is the only span between them that can contain `b`, and the
      spans have the given lanes. */
  ghost predicate Arranged(raw: seq<RawSpan>, depths: seq<nat>, i: nat, j: nat, a: RawSpan, k: RawSpan, b: RawSpan) {
    && Recorded(raw) && LanesOk(raw, depths) && i < j < |raw| && raw[i] == a && raw[j] == b
    && forall m :: i < m < j && CanContain(raw, m, j) ==> raw[m] == k
  }

  /** Whatever else was recorded, `a` is above `b`. */
  ghost predicate AlwaysAbove(a: RawSpan, k: RawSpan, b: RawSpan) {
    forall raw, depths, i, j :: Arranged(raw, depths, i, j, a, k, b) ==> depths[i] < depths[j]
  }

  // ---- a containing span is above -----------------------------------------------------------------------------

  /** A lane is held by a span up to `i` that starts at time zero and ends no earlier than `i`. */
  ghost predicate HeldFromZero(raw: seq<RawSpan>, depths: seq<nat>, i: nat, d: nat)
    requires i < |raw| == |depths|
  {
    exists j :: 0 <= j <= i && ThreadOf(raw[j]) == ThreadOf(raw[i]) && raw[j].range.end >= raw[i].range.end && depths[j] == d
  }

  /** Spans that start at time zero leave no lane free above them. */
  lemma {:induction false} NoGapFromZero(raw: seq<RawSpan>, depths: seq<nat>, i: nat, d: nat)
    requires InOrder(raw) && LanesOk(raw, depths) && i < |raw| && raw[i].range.start == 0 && d <= depths[i]
    ensures HeldFromZero(raw, depths, i, d)
    decreases i
  {
    assert LaneOk(raw, depths, i);
    if BaseLane(raw, depths, i) <= d < depths[i] {
      assert LaneTaken(raw, depths, i, d);
      var j :| 0 <= j < i && Running(raw, j, i) && depths[j] == d;
      assert SpanBefore(raw[j], raw[i]);
    } else if d < depths[i] {
      var c := Container(raw, i).value;
      assert SpanBefore(raw[c], raw[i]);
      NoGapFromZero(raw, depths, c, d);
    }
  }

  /** So a span that starts at time zero is above everything that starts while it runs. */
  lemma AboveFromZero(raw: seq<RawSpan>, depths: seq<nat>, i: nat, j: nat)
    requires InOrder(raw) && LanesOk(raw, depths) && i < j < |raw| && raw[i].range.start == 0 && Running(raw, i, j)
    ensures depths[i] < depths[j]
  {
    assert LaneOk(raw, depths, j);
    if depths[j] <= depths[i] {
      NoGapFromZero(raw, depths, i, depths[j]);
      var m :| 0 <= m <= i && ThreadOf(raw[m]) == ThreadOf(raw[i]) && raw[m].range.end >= raw[i].range.end
               && depths[m] == depths[j];
      assert Running(raw, m, j);
    }
  }

  // ---- a containing span is below -----------------------------------------------------------------------------

  /** A short span that starts just before another and ends just after its start. */
  function Filler(a: RawSpan, instance: nat): RawSpan
    requires a.range.start > 0
  {
    RawSpan(0, instance, 0, a.pid, a.tid, TimeRange(a.range.start - 1, a.range.start + 1), Complete)
  }

  /** An instance none of the spans has. */
  function Fresh(a: RawSpan, k: RawSpan, b: RawSpan): nat { a.instance + k.instance + b.instance + 1 }

  /** Two fillers push `a` to the third lane and are gone when `k` starts. */
  function Pushed(a: RawSpan, k: RawSpan, b: RawSpan): seq<RawSpan>
    requires a.range.start > 0
  {
    [Filler(a, Fresh(a, k, b)), Filler(a, Fresh(a, k, b) + 1), a, k, b]
  }

  /** Spans of one thread with their own instances: `a` and `k` both contain `b`, and `k`, which starts later,
      also ends later than `a`. */
  predicate Crossing(a: RawSpan, k: RawSpan, b: RawSpan) {
    && Three(a, k, b) && a.range.start > 0 && a.range.end < k.range.end
  }

  predicate Three(a: RawSpan, k: RawSpan, b: RawSpan) {
    && a.boundary.Complete? && k.boundary.Complete? && b.boundary.Complete?
    && a.instance != k.instance && a.instance != b.instance && k.instance != b.instance
    && Contains(a, b) && Contains(k, b) && ThreadOf(a) == ThreadOf(k) && SpanBefore(a, k)
    && b.range.start <= b.range.end && k.range.end <= U64_MAX
  }

  lemma PushedContainers(a: RawSpan, k: RawSpan, b: RawSpan)
    requires Crossing(a, k, b)
    ensures var raw := Pushed(a, k, b);
      && InOrder(raw)
      && Container(raw, 0).None? && Container(raw, 1) == Some(0) && Container(raw, 2).None?
      && Container(raw, 3).None? && Container(raw, 4) == Some(3)
      && Running(raw, 0, 1) && Running(raw, 0, 2) && Running(raw, 1, 2)
      && !Running(raw, 0, 3) && !Running(raw, 1, 3) && Running(raw, 2, 3)
      && !Running(raw, 0, 4) && !Running(raw, 1, 4) && Running(raw, 2, 4) && Running(raw, 3, 4)
  {
    var raw := Pushed(a, k, b);
    assert a.range.start < k.range.start;
    assert !CanContain(raw, 0, 2) && !CanContain(raw, 1, 2);
    assert !CanContain(raw, 0, 3) && !CanContain(raw, 1, 3) && !CanContain(raw, 2, 3);
    assert CanContain(raw, 0, 1) && CanContain(raw, 3, 4);
  }

  /** In that thread `b` ends up above `a`, which contains it. */
  lemma PushedLanes(a: RawSpan, k: RawSpan, b: RawSpan)
    requires Crossing(a, k, b)
    ensures LanesOk(Pushed(a, k, b), [0, 1, 2, 0, 1])
  {
    hide InOrder, Container, Running, Crossing;
    PushedContainers(a, k, b);
    var raw, depths := Pushed(a, k, b), [0, 1, 2, 0, 1];
    assert LaneOk(raw, depths, 0);
    assert LaneTaken(raw, depths, 1, 0);
    assert LaneOk(raw, depths, 1);
    assert LaneTaken(raw, depths, 2, 0) && LaneTaken(raw, depths, 2, 1);
    assert LaneOk(raw, depths, 2);
    assert LaneOk(raw, depths, 3);
    assert LaneOk(raw, depths, 4);
  }

  // ---- recordings that have these spans -----------------------------------------------------------------------

  function BeginOf(x: RawSpan): TraceEvent {
    TraceEvent(x.range.start, x.event, x.instance, x.parent, 0, 0, x.pid, x.tid)
  }

  /** The end event, from another thread if the span is to cross threads. */
  function EndOf(x: RawSpan): TraceEvent {
    TraceEvent(x.range.end, 0, 0, 0, x.instance, 1, x.pid, if x.boundary.CrossThread? then x.tid + 1 else x.tid)
  }

  /** The end at `j` closes the begin at `i`, and yields no span of its own. */
  lemma Closes(events: seq<TraceEvent>, i: nat, j: nat, x: RawSpan, start: nat, end: nat)
    requires i < j < |events| && events[i] == BeginOf(x) && events[j] == EndOf(x)
    requires (x.boundary.Complete? || x.boundary.CrossThread?) && x.range.start <= x.range.end
    requires forall m :: i < m < j ==> !Touches(events[m], (x.pid, x.instance))
    ensures SpanOf(events, |events|, i, start, end) == x
    ensures !Yields(events, j)
  {
    var key := (x.pid, x.instance);
    assert Touches(events[i], key) && Touches(events[j], key);
    assert NextTouch(events, i + 1, |events|, key) == Some(j);
    assert LastTouch(events, j, key) == Some(i);
  }

  function PushedEvents(a: RawSpan, k: RawSpan, b: RawSpan): seq<TraceEvent>
    requires a.range.start > 0
  {
    var f, g := Filler(a, Fresh(a, k, b)), Filler(a, Fresh(a, k, b) + 1);
    [BeginOf(f), BeginOf(g), BeginOf(a), EndOf(f), EndOf(g),
     BeginOf(k), BeginOf(b), EndOf(b), EndOf(a), EndOf(k)]
  }

  lemma PushedPaired(a: RawSpan, k: RawSpan, b: RawSpan, start: nat, end: nat)
    requires Crossing(a, k, b)
    ensures SpansOf(PushedEvents(a, k, b), 10, 10, start, end) == Pushed(a, k, b)
  {
    assert a.range.start <= a.range.end && k.range.start <= k.range.end;
    hide SpanOf, Yields, SpansOf, SpanBefore;
    var events, raw := PushedEvents(a, k, b), Pushed(a, k, b);
    Closes(events, 0, 3, raw[0], start, end);
    Closes(events, 1, 4, raw[1], start, end);
    Closes(events, 2, 8, a, start, end);
    Closes(events, 5, 9, k, start, end);
    Closes(events, 6, 7, b, start, end);
    PairedSteps(events, raw, start, end);
  }

  lemma PairedSteps(e: seq<TraceEvent>, raw: seq<RawSpan>, start: nat, end: nat)
    requires |e| == 10 && |raw| == 5
    requires e[0].kind == 0 && e[1].kind == 0 && e[2].kind == 0 && e[5].kind == 0 && e[6].kind == 0
    requires !Yields(e, 3) && !Yields(e, 4) && !Yields(e, 7) && !Yields(e, 8) && !Yields(e, 9)
    requires SpanOf(e, 10, 0, start, end) == raw[0] && SpanOf(e, 10, 1, start, end) == raw[1]
    requires SpanOf(e, 10, 2, start, end) == raw[2] && SpanOf(e, 10, 5, start, end) == raw[3]
    requires SpanOf(e, 10, 6, start, end) == raw[4]
    ensures SpansOf(e, 10, 10, start, end) == raw
  {
    hide SpanOf, OpenAt;
    assert Yields(e, 0) && Yields(e, 1) && Yields(e, 2) && Yields(e, 5) && Yields(e, 6);
    assert SpansOf(e, 10, 1, start, end) == [raw[0]];
    assert SpansOf(e, 10, 3, start, end) == [raw[0], raw[1], raw[2]];
    assert SpansOf(e, 10, 5, start, end) == [raw[0], raw[1], raw[2]];
    assert SpansOf(e, 10, 7, start, end) == raw;
    assert SpansOf(e, 10, 9, start, end) == raw;
  }

  lemma {:induction false} SortedStays(raw: seq<RawSpan>)
    requires InOrder(raw)
    ensures SortSpans(raw) == raw
  {
    if raw != [] {
      SortedStays(raw[1..]);
      assert raw[1..] != [] ==> SpanBefore(raw[0], raw[1..][0]);
      assert raw == [raw[0]] + raw[1..];
    }
  }

  lemma PushedRecorded(a: RawSpan, k: RawSpan, b: RawSpan)
    requires Crossing(a, k, b)
    ensures Recorded(Pushed(a, k, b))
  {
    hide SpansOf, SortSpans, InOrder, Container, Running;
    var events, raw := PushedEvents(a, k, b), Pushed(a, k, b);
    PushedContainers(a, k, b);
    PushedPaired(a, k, b, RecordingStart(events, None), RecordingEnd(events, None));
    SortedStays(raw);
    assert a.range.start < k.range.start;
    assert Records(events, raw);
  }

  // ---- the exact condition ------------------------------------------------------------------------------------

  /** A span `a` that contains `b` is above it in every recording, given the container `k` of `b` that starts
      in between, if and only if `k` ends no later than `a`, or `a` starts at time zero. */
  lemma AboveExactly(a: RawSpan, k: RawSpan, b: RawSpan)
    requires Three(a, k, b)
    ensures AlwaysAbove(a, k, b) <==> k.range.end <= a.range.end || a.range.start == 0
  {
    hide Recorded;
    if k.range.end <= a.range.end || a.range.start == 0 {
      forall raw, depths, i, j | Arranged(raw, depths, i, j, a, k, b) ensures depths[i] < depths[j] {
        RecordedInOrder(raw);
        assert CanContain(raw, i, j);
        if a.range.start == 0 {
          AboveFromZero(raw, depths, i, j);
        } else {
          ContainedBelow(raw, depths, i, j);
        }
      }
    } else {
      PushedContainers(a, k, b);
      PushedLanes(a, k, b);
      PushedRecorded(a, k, b);
      assert Arranged(Pushed(a, k, b), [0, 1, 2, 0, 1], 2, 4, a, k, b);
    }
  }

  function Sketch(start: nat, end: nat, instance: nat): RawSpan {
    RawSpan(0, instance, 0, 1, 1, TimeRange(start, end), Complete)
  }

  /** One recording where it fails: five complete spans of one thread, of which the third contains the fifth
      and is drawn in lane 2, the fifth in lane 1. */
  lemma CrossingBreaksNesting(depths: seq<nat>)
    requires var a, k, b := Sketch(2, 10, 3), Sketch(5, 12, 4), Sketch(6, 9, 5);
      LanesOk(LoadedSpans(PushedEvents(a, k, b), None), depths)
    ensures var a, k, b := Sketch(2, 10, 3), Sketch(5, 12, 4), Sketch(6, 9, 5);
      && LoadedSpans(PushedEvents(a, k, b), None) == [Sketch(1, 3, 13), Sketch(1, 3, 14), a, k, b]
      && Contains(a, b) && depths == [0, 1, 2, 0, 1]
  {
    hide LanesOk, SpansOf, SortSpans, InOrder, Container, Running;
    var a, k, b := Sketch(2, 10, 3), Sketch(5, 12, 4), Sketch(6, 9, 5);
    var events, raw := PushedEvents(a, k, b), Pushed(a, k, b);
    PushedContainers(a, k, b);
    PushedPaired(a, k, b, RecordingStart(events, None), RecordingEnd(events, None));
    SortedStays(raw);
    PushedLanes(a, k, b);
    OneLanePerSpan(raw, depths);
    LanesDetermined(raw, depths, [0, 1, 2, 0, 1], 5);
    assert depths[..5] == depths;
  }

  lemma OneLanePerSpan(raw: seq<RawSpan>, depths: seq<nat>)
    requires LanesOk(raw, depths)
    ensures |depths| == |raw|
  {
  }

  /** A span that ends on another thread is never a container, and can end up below what it contains. */
  lemma CrossThreadBelow(a: RawSpan, b: RawSpan)
    requires a.boundary.CrossThread? && b.boundary.Complete? && a.instance != b.instance && Contains(a, b)
    requires 0 < a.range.start < b.range.start <= b.range.end && a.range.end <= U64_MAX
    ensures var raw := [Filler(a, Fresh(a, b, b)), Filler(a, Fresh(a, b, b) + 1), a, b];
      Recorded(raw) && LanesOk(raw, [0, 1, 2, 0])
  {
    CrossThreadLanes(a, b);
    CrossThreadRecorded(a, b);
  }

  lemma CrossThreadLanes(a: RawSpan, b: RawSpan)
    requires a.boundary.CrossThread? && Contains(a, b) && 0 < a.range.start < b.range.start
    ensures var raw := [Filler(a, Fresh(a, b, b)), Filler(a, Fresh(a, b, b) + 1), a, b];
      InOrder(raw) && LanesOk(raw, [0, 1, 2, 0])
  {
    var raw, depths := [Filler(a, Fresh(a, b, b)), Filler(a, Fresh(a, b, b) + 1), a, b], [0, 1, 2, 0];
    assert CanContain(raw, 0, 1) && !CanContain(raw, 0, 2) && !CanContain(raw, 1, 2);
    assert !CanContain(raw, 0, 3) && !CanContain(raw, 1, 3) && !CanContain(raw, 2, 3);
    assert Container(raw, 0).None? && Container(raw, 1) == Some(0) && Container(raw, 2).None? && Container(raw, 3).None?;
    assert LaneOk(raw, depths, 0);
    assert Running(raw, 0, 1) && LaneTaken(raw, depths, 1, 0);
    assert LaneOk(raw, depths, 1);
    assert Running(raw, 0, 2) && Running(raw, 1, 2);
    assert LaneTaken(raw, depths, 2, 0) && LaneTaken(raw, depths, 2, 1);
    assert LaneOk(raw, depths, 2);
    assert LaneOk(raw, depths, 3);
  }

  lemma CrossThreadRecorded(a: RawSpan, b: RawSpan)
    requires a.boundary.CrossThread? && b.boundary.Complete? && a.instance != b.instance && Contains(a, b)
    requires 0 < a.range.start < b.range.start <= b.range.end && a.range.end <= U64_MAX
    ensures Recorded([Filler(a, Fresh(a, b, b)), Filler(a, Fresh(a, b, b) + 1), a, b])
  {
    hide SpansOf, SortSpans, InOrder, LanesOk, SpanOf, Yields;
    var f, g := Filler(a, Fresh(a, b, b)), Filler(a, Fresh(a, b, b) + 1);
    var raw := [f, g, a, b];
    var events := [BeginOf(f), BeginOf(g), BeginOf(a), EndOf(f), EndOf(g), BeginOf(b), EndOf(b), EndOf(a)];
    var start, end := RecordingStart(events, None), RecordingEnd(events, None);
    Closes(events, 0, 3, f, start, end);
    Closes(events, 1, 4, g, start, end);
    Closes(events, 2, 7, a, start, end);
    Closes(events, 5, 6, b, start, end);
    ShortPairedSteps(events, raw, start, end);
    CrossThreadLanes(a, b);
    SortedStays(raw);
    assert Records(events, raw);
  }

  lemma ShortPairedSteps(e: seq<TraceEvent>, raw: seq<RawSpan>, start: nat, end: nat)
    requires |e| == 8 && |raw| == 4
    requires e[0].kind == 0 && e[1].kind == 0 && e[2].kind == 0 && e[5].kind == 0
    requires !Yields(e, 3) && !Yields(e, 4) && !Yields(e, 6) && !Yields(e, 7)
    requires SpanOf(e, 8, 0, start, end) == raw[0] && SpanOf(e, 8, 1, start, end) == raw[1]
    requires SpanOf(e, 8, 2, start, end) == raw[2] && SpanOf(e, 8, 5, start, end) == raw[3]
    ensures SpansOf(e, 8, 8, start, end) == raw
  {
    hide SpanOf, OpenAt;
    assert Yields(e, 0) && Yields(e, 1) && Yields(e, 2) && Yields(e, 5);
    assert SpansOf(e, 8, 1, start, end) == [raw[0]];
    assert SpansOf(e, 8, 3, start, end) == [raw[0], raw[1], raw[2]];
    assert SpansOf(e, 8, 5, start, end) == [raw[0], raw[1], raw[2]];
    assert SpansOf(e, 8, 6, start, end) == raw;
  }
}
