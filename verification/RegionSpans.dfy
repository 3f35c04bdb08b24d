/** Reconstructing spans from begin and end events. */
module RegionSpans {
  import opened Basics
  import opened Intervals

  datatype TraceEvent = TraceEvent(
    timestamp: nat, event: nat, instance: nat, parent: nat, flow: nat, kind: nat, pid: nat, tid: nat)

  datatype Boundary = Complete | MissingBegin | MissingEnd | CrossThread

  datatype RawSpan = RawSpan(
    event: nat, instance: nat, parent: nat, pid: nat, tid: nat, range: TimeRange, boundary: Boundary)

  type Key = (nat, nat)

  /** A begin event names its own instance, an end event the instance it closes. */
  function KeyOf(e: TraceEvent): Key {
    if e.kind == 0 then (e.pid, e.instance) else (e.pid, e.flow)
  }

  predicate Touches(e: TraceEvent, key: Key) {
    e.kind <= 1 && KeyOf(e) == key
  }

  function Opened(e: TraceEvent, end: nat): RawSpan {
    RawSpan(e.event, e.instance, e.parent, e.pid, e.tid, TimeRange(e.timestamp, end), MissingEnd)
  }

  function ClosedBy(span: RawSpan, e: TraceEvent): RawSpan {
    span.(range := TimeRange(span.range.start, Max(e.timestamp, span.range.start)),
          boundary := if span.tid == e.tid then Complete else CrossThread)
  }

  function Orphan(e: TraceEvent, start: nat): RawSpan {
    RawSpan(e.event, e.flow, 0, e.pid, e.tid, TimeRange(start, e.timestamp), MissingBegin)
  }

  // ---- the meaning of pairing, event by event ---------------------------------------------------------------

  /** The latest event before `n` that touches the key. */
  function LastTouch(events: seq<TraceEvent>, n: nat, key: Key): (r: Option<nat>)
    requires n <= |events|
    ensures r.Some? ==> r.value < n && Touches(events[r.value], key)
    ensures r.Some? ==> forall i :: r.value < i < n ==> !Touches(events[i], key)
    ensures r.None? ==> forall i :: 0 <= i < n ==> !Touches(events[i], key)
  {
    if n == 0 then None
    else if Touches(events[n - 1], key) then Some(n - 1)
    else LastTouch(events, n - 1, key)
  }

  /** The begin event still open for the key just before event `n`. */
  function OpenAt(events: seq<TraceEvent>, n: nat, key: Key): Option<nat>
    requires n <= |events|
  {
    var last := LastTouch(events, n, key);
    if last.Some? && events[last.value].kind == 0 then last else None
  }

  /** The first event in `[i, n)` that touches the key. */
  function NextTouch(events: seq<TraceEvent>, i: nat, n: nat, key: Key): (r: Option<nat>)
    requires i <= n <= |events|
    ensures r.Some? ==> i <= r.value < n && Touches(events[r.value], key)
    ensures r.Some? ==> forall j :: i <= j < r.value ==> !Touches(events[j], key)
    ensures r.None? ==> forall j :: i <= j < n ==> !Touches(events[j], key)
    decreases n - i
  {
    if i == n then None
    else if Touches(events[i], key) then Some(i)
    else NextTouch(events, i + 1, n, key)
  }

  /** Events that give rise to a span of their own: every begin, and every end with nothing open. */
  predicate Yields(events: seq<TraceEvent>, i: nat)
    requires i < |events|
  {
    events[i].kind == 0 || (events[i].kind == 1 && OpenAt(events, i, KeyOf(events[i])).None?)
  }

  /** The span of event `i` as the first `n` events determine it: a begin is closed by the next event on
      its key if that is an end, and stays open otherwise. */
  function SpanOf(events: seq<TraceEvent>, n: nat, i: nat, start: nat, end: nat): RawSpan
    requires i < n <= |events|
  {
    var e := events[i];
    if e.kind != 0 then Orphan(e, start)
    else
      var next := NextTouch(events, i + 1, n, KeyOf(e));
      if next.Some? && events[next.value].kind == 1 then ClosedBy(Opened(e, end), events[next.value])
      else Opened(e, end)
  }

  /** The spans of the events below `m`, in event order. */
  function SpansOf(events: seq<TraceEvent>, n: nat, m: nat, start: nat, end: nat): seq<RawSpan>
    requires m <= n <= |events|
  {
    if m == 0 then []
    else SpansOf(events, n, m - 1, start, end)
         + if Yields(events, m - 1) then [SpanOf(events, n, m - 1, start, end)] else []
  }

  /** How many spans precede that of event `m`. */
  function Rank(events: seq<TraceEvent>, m: nat): nat
    requires m <= |events|
  {
    if m == 0 then 0 else Rank(events, m - 1) + if Yields(events, m - 1) then 1 else 0
  }

  // ---- the loop ---------------------------------------------------------------------------------------------

  /** The pairing loop of `load_regions`: a span vector and a map of open instances. */
  method PairSpans(events: seq<TraceEvent>, start: nat, end: nat) returns (raw: seq<RawSpan>)
    ensures raw == SpansOf(events, |events|, |events|, start, end)
  {
    raw := [];
    var open: map<Key, nat> := map[];
    for n := 0 to |events|
      invariant raw == SpansOf(events, n, n, start, end)
      invariant OpenMap(events, n, open)
    {
      var e := events[n];
      if e.kind == 0 {
        BeginStep(events, n, start, end, open);
        open := open[(e.pid, e.instance) := |raw|];
        raw := raw + [RawSpan(e.event, e.instance, e.parent, e.pid, e.tid, TimeRange(e.timestamp, end), MissingEnd)];
      } else if e.kind == 1 {
        if (e.pid, e.flow) in open {
          var index := open[(e.pid, e.flow)];
          EndStep(events, n, start, end, open);
          open := open - {(e.pid, e.flow)};
          var span := raw[index];
          raw := raw[index := span.(range := TimeRange(span.range.start, Max(e.timestamp, span.range.start)),
                                    boundary := if span.tid == e.tid then Complete else CrossThread)];
        } else {
          OrphanStep(events, n, start, end, open);
          raw := raw + [RawSpan(e.event, e.flow, 0, e.pid, e.tid, TimeRange(start, e.timestamp), MissingBegin)];
        }
      } else {
        OtherStep(events, n, start, end, open);
      }
    }
  }

  /** The map holds exactly the open instances, with the index of their span. */
  ghost predicate OpenMap(events: seq<TraceEvent>, n: nat, open: map<Key, nat>)
    requires n <= |events|
  {
    forall key ::
      if key in open then OpenAt(events, n, key).Some? && open[key] == Rank(events, OpenAt(events, n, key).value)
      else OpenAt(events, n, key).None?
  }

  lemma {:induction false} RankIsLength(events: seq<TraceEvent>, n: nat, m: nat, start: nat, end: nat)
    requires m <= n <= |events|
    ensures |SpansOf(events, n, m, start, end)| == Rank(events, m)
  {
    if m > 0 { RankIsLength(events, n, m - 1, start, end); }
  }

  lemma {:induction false} SpansSame(events: seq<TraceEvent>, n: nat, m: nat, start: nat, end: nat)
    requires m <= n < |events|
    requires forall i :: 0 <= i < m && Yields(events, i) ==>
      SpanOf(events, n + 1, i, start, end) == SpanOf(events, n, i, start, end)
    ensures SpansOf(events, n + 1, m, start, end) == SpansOf(events, n, m, start, end)
  {
    hide SpanOf, Yields;
    if m > 0 { SpansSame(events, n, m - 1, start, end); }
  }

  lemma {:induction false} SpansUpdate(events: seq<TraceEvent>, n: nat, m: nat, b: nat, start: nat, end: nat)
    requires b < m <= n < |events| && Yields(events, b)
    requires forall i :: 0 <= i < m && i != b && Yields(events, i) ==>
      SpanOf(events, n + 1, i, start, end) == SpanOf(events, n, i, start, end)
    ensures Rank(events, b) < |SpansOf(events, n, m, start, end)|
    ensures SpansOf(events, n, m, start, end)[Rank(events, b)] == SpanOf(events, n, b, start, end)
    ensures SpansOf(events, n + 1, m, start, end)
         == SpansOf(events, n, m, start, end)[Rank(events, b) := SpanOf(events, n + 1, b, start, end)]
  {
    hide SpanOf, Yields;
    RankIsLength(events, n, m - 1, start, end);
    if b == m - 1 {
      SpansSame(events, n, m - 1, start, end);
    } else {
      SpansUpdate(events, n, m - 1, b, start, end);
    }
  }

  /** An event that closes nothing leaves the earlier spans as they were. */
  lemma EarlierKept(events: seq<TraceEvent>, n: nat, i: nat, start: nat, end: nat)
    requires i < n < |events| && Yields(events, i)
    requires events[n].kind == 1 ==> OpenAt(events, n, KeyOf(events[n])) != Some(i)
    ensures SpanOf(events, n + 1, i, start, end) == SpanOf(events, n, i, start, end)
  {
    if events[i].kind == 0 {
      var key := KeyOf(events[i]);
      NextTouchGrows(events, i + 1, n, key);
      var last := LastTouch(events, n, key);
      assert Touches(events[i], key);
      assert last.Some? && last.value >= i;
      if NextTouch(events, i + 1, n, key).None? {
        assert last.value == i;
      }
    }
  }

  lemma {:induction false} NextTouchGrows(events: seq<TraceEvent>, i: nat, n: nat, key: Key)
    requires i <= n < |events|
    ensures NextTouch(events, i, n + 1, key)
         == if NextTouch(events, i, n, key).Some? then NextTouch(events, i, n, key)
            else if Touches(events[n], key) then Some(n) else None
    decreases n - i
  {
    if i < n { NextTouchGrows(events, i + 1, n, key); }
  }

  lemma BeginStep(events: seq<TraceEvent>, n: nat, start: nat, end: nat, open: map<Key, nat>)
    requires n < |events| && events[n].kind == 0 && OpenMap(events, n, open)
    ensures var spans := SpansOf(events, n, n, start, end);
      && SpansOf(events, n + 1, n + 1, start, end) == spans + [Opened(events[n], end)]
      && OpenMap(events, n + 1, open[KeyOf(events[n]) := |spans|])
  {
    AllKept(events, n, start, end);
    RankIsLength(events, n, n, start, end);
  }

  lemma OrphanStep(events: seq<TraceEvent>, n: nat, start: nat, end: nat, open: map<Key, nat>)
    requires n < |events| && events[n].kind == 1 && OpenMap(events, n, open) && KeyOf(events[n]) !in open
    ensures SpansOf(events, n + 1, n + 1, start, end) == SpansOf(events, n, n, start, end) + [Orphan(events[n], start)]
    ensures OpenMap(events, n + 1, open)
  {
    assert OpenAt(events, n, KeyOf(events[n])).None?;
    AllKept(events, n, start, end);
  }

  lemma OtherStep(events: seq<TraceEvent>, n: nat, start: nat, end: nat, open: map<Key, nat>)
    requires n < |events| && events[n].kind > 1 && OpenMap(events, n, open)
    ensures SpansOf(events, n + 1, n + 1, start, end) == SpansOf(events, n, n, start, end)
    ensures OpenMap(events, n + 1, open)
  {
    AllKept(events, n, start, end);
  }

  lemma AllKept(events: seq<TraceEvent>, n: nat, start: nat, end: nat)
    requires n < |events| && (events[n].kind == 1 ==> OpenAt(events, n, KeyOf(events[n])).None?)
    ensures SpansOf(events, n + 1, n, start, end) == SpansOf(events, n, n, start, end)
  {
    forall i | 0 <= i < n && Yields(events, i)
      ensures SpanOf(events, n + 1, i, start, end) == SpanOf(events, n, i, start, end)
    {
      EarlierKept(events, n, i, start, end);
    }
    SpansSame(events, n, n, start, end);
  }

  lemma EndStep(events: seq<TraceEvent>, n: nat, start: nat, end: nat, open: map<Key, nat>)
    requires n < |events| && events[n].kind == 1 && OpenMap(events, n, open) && KeyOf(events[n]) in open
    ensures var spans, key := SpansOf(events, n, n, start, end), KeyOf(events[n]);
      && open[key] < |spans|
      && SpansOf(events, n + 1, n + 1, start, end) == spans[open[key] := ClosedBy(spans[open[key]], events[n])]
      && OpenMap(events, n + 1, open - {key})
  {
    hide SpanOf, SpansOf, Rank, LastTouch, NextTouch, ClosedBy;
    var key := KeyOf(events[n]);
    var b := OpenAt(events, n, key).value;
    EndUpdates(events, n, b, start, end);
    EndCloses(events, n, b, start, end);
    EndYieldsNothing(events, n, start, end);
    CloseKey(events, n, open);
  }

  /** An end event changes the span of the begin it closes and no other. */
  lemma EndUpdates(events: seq<TraceEvent>, n: nat, b: nat, start: nat, end: nat)
    requires n < |events| && events[n].kind == 1 && OpenAt(events, n, KeyOf(events[n])) == Some(b)
    ensures b < n && Yields(events, b) && Rank(events, b) < |SpansOf(events, n, n, start, end)|
    ensures SpansOf(events, n, n, start, end)[Rank(events, b)] == SpanOf(events, n, b, start, end)
    ensures SpansOf(events, n + 1, n, start, end)
         == SpansOf(events, n, n, start, end)[Rank(events, b) := SpanOf(events, n + 1, b, start, end)]
  {
    hide SpanOf, SpansOf, Rank, NextTouch;
    forall i | 0 <= i < n && i != b && Yields(events, i)
      ensures SpanOf(events, n + 1, i, start, end) == SpanOf(events, n, i, start, end)
    {
      EarlierKept(events, n, i, start, end);
    }
    SpansUpdate(events, n, n, b, start, end);
  }

  lemma EndCloses(events: seq<TraceEvent>, n: nat, b: nat, start: nat, end: nat)
    requires n < |events| && events[n].kind == 1 && OpenAt(events, n, KeyOf(events[n])) == Some(b) && b < n
    ensures SpanOf(events, n + 1, b, start, end) == ClosedBy(SpanOf(events, n, b, start, end), events[n])
  {
    hide LastTouch;
    NextTouchGrows(events, b + 1, n, KeyOf(events[n]));
  }

  lemma EndYieldsNothing(events: seq<TraceEvent>, n: nat, start: nat, end: nat)
    requires n < |events| && events[n].kind == 1 && OpenAt(events, n, KeyOf(events[n])).Some?
    ensures SpansOf(events, n + 1, n + 1, start, end) == SpansOf(events, n + 1, n, start, end)
  {
    hide SpanOf, OpenAt;
  }

  lemma CloseKey(events: seq<TraceEvent>, n: nat, open: map<Key, nat>)
    requires n < |events| && events[n].kind == 1 && OpenMap(events, n, open) && KeyOf(events[n]) in open
    ensures OpenMap(events, n + 1, open - {KeyOf(events[n])})
  {
    hide Rank;
  }

  // ---- consequences -----------------------------------------------------------------------------------------

  /** Every reconstructed span is well-formed and lies inside the recording. */
  lemma {:induction false} SpansWellFormed(events: seq<TraceEvent>, n: nat, m: nat, start: nat, end: nat)
    requires m <= n <= |events|
    requires forall e <- events :: start <= e.timestamp <= end
    ensures forall span <- SpansOf(events, n, m, start, end) :: start <= span.range.start <= span.range.end <= end
  {
    if m > 0 {
      SpansWellFormed(events, n, m - 1, start, end);
      assert events[m - 1] in events;
      if Yields(events, m - 1) {
        var span := SpanOf(events, n, m - 1, start, end);
        if events[m - 1].kind == 0 {
          var next := NextTouch(events, m, n, KeyOf(events[m - 1]));
          assert next.Some? ==> events[next.value] in events;
        }
        assert start <= span.range.start <= span.range.end <= end;
      }
    }
  }
}
