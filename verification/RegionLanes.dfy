/** Parents and drawing lanes of reconstructed spans. */
module RegionLanes {
  import opened Basics
  import opened RegionSpans

  function ThreadOf(s: RawSpan): Key { (s.pid, s.tid) }

  // ---- order ------------------------------------------------------------------------------------------------

  /** `(start, Reverse(end), process, thread, instance)`. */
  predicate SpanBefore(a: RawSpan, b: RawSpan) {
    if a.range.start != b.range.start then a.range.start < b.range.start
    else if a.range.end != b.range.end then a.range.end > b.range.end
    else if a.pid != b.pid then a.pid < b.pid
    else if a.tid != b.tid then a.tid < b.tid
    else a.instance <= b.instance
  }

  ghost predicate InOrder(raw: seq<RawSpan>) {
    forall i, j :: 0 <= i < j < |raw| ==> SpanBefore(raw[i], raw[j])
  }

  function InsertSpan(s: RawSpan, raw: seq<RawSpan>): seq<RawSpan> {
    if raw == [] || SpanBefore(s, raw[0]) then [s] + raw else [raw[0]] + InsertSpan(s, raw[1..])
  }

  /** The stable `sort_by_key`. */
  function SortSpans(raw: seq<RawSpan>): seq<RawSpan> {
    if raw == [] then [] else InsertSpan(raw[0], SortSpans(raw[1..]))
  }

  lemma {:induction false} InsertSpanOrdered(s: RawSpan, raw: seq<RawSpan>)
    requires InOrder(raw)
    ensures InOrder(InsertSpan(s, raw))
    ensures forall x :: x in InsertSpan(s, raw) <==> x == s || x in raw
  {
    if raw != [] && !SpanBefore(s, raw[0]) {
      InsertSpanOrdered(s, raw[1..]);
      assert raw == [raw[0]] + raw[1..];
      forall x | x in InsertSpan(s, raw[1..]) ensures SpanBefore(raw[0], x) {
        if x != s {
          var i :| 0 <= i < |raw[1..]| && raw[1..][i] == x;
          assert raw[i + 1] == x;
        }
      }
    }
  }

  lemma {:induction false} InsertSpanKeeps(s: RawSpan, raw: seq<RawSpan>)
    ensures multiset(InsertSpan(s, raw)) == multiset(raw) + multiset{s}
  {
    if raw != [] && !SpanBefore(s, raw[0]) {
      InsertSpanKeeps(s, raw[1..]);
      assert raw == [raw[0]] + raw[1..];
    }
  }

  lemma {:induction false} SortSpansExact(raw: seq<RawSpan>)
    ensures InOrder(SortSpans(raw)) && multiset(SortSpans(raw)) == multiset(raw)
    ensures |SortSpans(raw)| == |raw| && forall x :: x in SortSpans(raw) <==> x in raw
  {
    if raw != [] {
      SortSpansExact(raw[1..]);
      InsertSpanOrdered(raw[0], SortSpans(raw[1..]));
      InsertSpanKeeps(raw[0], SortSpans(raw[1..]));
      assert raw == [raw[0]] + raw[1..];
      assert multiset(SortSpans(raw)) == multiset(raw);
      assert |multiset(SortSpans(raw))| == |SortSpans(raw)| && |multiset(raw)| == |raw|;
    }
  }

  // ---- what the parent and the lane of a span are -------------------------------------------------------------

  /** Span `j` of the same thread, earlier in the order, is still running when `i` starts. */
  predicate Running(raw: seq<RawSpan>, j: nat, i: nat)
    requires j < i < |raw|
  {
    ThreadOf(raw[j]) == ThreadOf(raw[i]) && raw[j].range.end > raw[i].range.start
  }

  predicate CanContain(raw: seq<RawSpan>, j: nat, i: nat)
    requires j < i < |raw|
  {
    Running(raw, j, i) && raw[j].range.end >= raw[i].range.end && raw[j].boundary.Complete?
  }

  /** The latest span below `n` that can contain `i`. */
  function ContainerBelow(raw: seq<RawSpan>, i: nat, n: nat): (r: Option<nat>)
    requires n <= i < |raw|
    ensures r.Some? ==> r.value < n && CanContain(raw, r.value, i)
    ensures r.Some? ==> forall j :: r.value < j < n ==> !CanContain(raw, j, i)
    ensures r.None? ==> forall j :: 0 <= j < n ==> !CanContain(raw, j, i)
  {
    if n == 0 then None
    else if CanContain(raw, n - 1, i) then Some(n - 1)
    else ContainerBelow(raw, i, n - 1)
  }

  function Container(raw: seq<RawSpan>, i: nat): Option<nat>
    requires i < |raw|
  {
    ContainerBelow(raw, i, i)
  }

  /** The last span below `n` with the given identity, which is what the identity map holds. */
  function IdentityBelow(raw: seq<RawSpan>, n: nat, id: Key): (r: Option<nat>)
    requires n <= |raw|
    ensures r.Some? ==> r.value < n && (raw[r.value].pid, raw[r.value].instance) == id
    ensures r.Some? ==> forall j :: r.value < j < n ==> (raw[j].pid, raw[j].instance) != id
    ensures r.None? ==> forall j :: 0 <= j < n ==> (raw[j].pid, raw[j].instance) != id
  {
    if n == 0 then None
    else if (raw[n - 1].pid, raw[n - 1].instance) == id then Some(n - 1)
    else IdentityBelow(raw, n - 1, id)
  }

  /** The recorded parent, unless it is absent, not earlier, or a same-thread span that does not enclose. */
  function ExplicitParent(raw: seq<RawSpan>, i: nat): Option<nat>
    requires i < |raw|
  {
    var p := IdentityBelow(raw, |raw|, (raw[i].pid, raw[i].parent));
    if p.Some? && raw[i].parent != 0 && p.value < i
       && (raw[p.value].tid != raw[i].tid || Encloses(raw[p.value], raw[i])) then p
    else None
  }

  predicate Encloses(outer: RawSpan, inner: RawSpan) {
    outer.range.start <= inner.range.start && inner.range.end <= outer.range.end
  }

  function Parent(raw: seq<RawSpan>, i: nat): Option<nat>
    requires i < |raw|
  {
    if ExplicitParent(raw, i).Some? then ExplicitParent(raw, i) else Container(raw, i)
  }

  // ---- the same, field by field -------------------------------------------------------------------------------

  /** Span `p` is the one recorded as the parent of `i`: the last of all with that process and instance. It is
      earlier, and on another thread or around `i`. */
  ghost predicate NamedParent(raw: seq<RawSpan>, i: nat, p: nat)
    requires i < |raw|
  {
    && p < i && raw[i].parent != 0 && raw[p].pid == raw[i].pid && raw[p].instance == raw[i].parent
    && (forall j :: p < j < |raw| ==> raw[j].pid != raw[i].pid || raw[j].instance != raw[i].parent)
    && (raw[p].tid != raw[i].tid
        || (raw[p].range.start <= raw[i].range.start && raw[i].range.end <= raw[p].range.end))
  }

  /** Span `c` is complete, of the thread of `i`, still running when `i` starts, and ends no earlier. */
  predicate Around(raw: seq<RawSpan>, c: nat, i: nat)
    requires c < i < |raw|
  {
    && raw[c].pid == raw[i].pid && raw[c].tid == raw[i].tid && raw[c].boundary == Complete
    && raw[i].range.start < raw[c].range.end && raw[i].range.end <= raw[c].range.end
  }

  /** The parent of `i` is the span recorded as such, or else the latest earlier one around it, or none. */
  ghost predicate ParentIs(raw: seq<RawSpan>, i: nat, parent: Option<nat>)
    requires i < |raw|
  {
    && (forall p: nat :: NamedParent(raw, i, p) ==> parent == Some(p))
    && ((forall p: nat :: !NamedParent(raw, i, p)) ==>
          if parent.Some? then
            && parent.value < i && Around(raw, parent.value, i)
            && forall j :: parent.value < j < i ==> !Around(raw, j, i)
          else forall j :: 0 <= j < i ==> !Around(raw, j, i))
  }

  lemma ParentExactly(raw: seq<RawSpan>, i: nat)
    requires i < |raw|
    ensures ParentIs(raw, i, Parent(raw, i))
  {
    assert forall j :: 0 <= j < i ==> (Around(raw, j, i) <==> CanContain(raw, j, i));
    var p := IdentityBelow(raw, |raw|, (raw[i].pid, raw[i].parent));
    forall q: nat | NamedParent(raw, i, q) ensures p == Some(q) {
    }
    if ExplicitParent(raw, i).Some? { assert NamedParent(raw, i, p.value); }
  }

  /** The sort key of a span, compared from the left. */
  function SortKey(s: RawSpan): seq<int> {
    var end: int := s.range.end;
    [s.range.start, -end, s.pid, s.tid, s.instance]
  }

  predicate LexLe(a: seq<int>, b: seq<int>) {
    a == [] || (b != [] && (a[0] < b[0] || (a[0] == b[0] && LexLe(a[1..], b[1..]))))
  }

  lemma OrderIsLexicographic(a: RawSpan, b: RawSpan)
    ensures SpanBefore(a, b) <==> LexLe(SortKey(a), SortKey(b))
  {
    var x, y := SortKey(a), SortKey(b);
    LexTail(x, y, 0);
    LexTail(x, y, 1);
    LexTail(x, y, 2);
    LexTail(x, y, 3);
    LexTail(x, y, 4);
    assert x[5..] == [] && x[0..] == x && y[0..] == y;
  }

  lemma LexTail(x: seq<int>, y: seq<int>, k: nat)
    requires k < |x| == |y|
    ensures LexLe(x[k..], y[k..]) <==> x[k] < y[k] || (x[k] == y[k] && LexLe(x[k + 1..], y[k + 1..]))
  {
    assert x[k..][1..] == x[k + 1..] && y[k..][1..] == y[k + 1..];
  }

  /** The lane just below the container's. */
  function BaseLane(raw: seq<RawSpan>, depths: seq<nat>, i: nat): nat
    requires i < |raw| && i <= |depths|
  {
    if Container(raw, i).Some? then depths[Container(raw, i).value] + 1 else 0
  }

  ghost predicate LaneTaken(raw: seq<RawSpan>, depths: seq<nat>, i: nat, d: nat)
    requires i < |raw| && i <= |depths|
  {
    exists j :: 0 <= j < i && Running(raw, j, i) && depths[j] == d
  }

  /** The lane of `i` is the lowest one from its base that no running span of its thread occupies. */
  ghost predicate LaneOk(raw: seq<RawSpan>, depths: seq<nat>, i: nat)
    requires i < |raw| && i < |depths|
  {
    && BaseLane(raw, depths, i) <= depths[i]
    && !LaneTaken(raw, depths, i, depths[i])
    && forall d :: BaseLane(raw, depths, i) <= d < depths[i] ==> LaneTaken(raw, depths, i, d)
  }

  ghost predicate LanesOk(raw: seq<RawSpan>, depths: seq<nat>) {
    |depths| == |raw| && forall i :: 0 <= i < |raw| ==> LaneOk(raw, depths, i)
  }

  /** The lane of `i`, field by field: the lowest from the lane below its container that no earlier span of its
      thread, still running when `i` starts, has. */
  ghost predicate LaneIs(raw: seq<RawSpan>, depths: seq<nat>, i: nat)
    requires i < |raw| == |depths|
  {
    exists base: nat :: IsBase(raw, depths, i, base) && LowestFrom(raw, depths, i, base)
  }

  ghost predicate IsBase(raw: seq<RawSpan>, depths: seq<nat>, i: nat, base: nat)
    requires i < |raw| == |depths|
  {
    if forall c :: 0 <= c < i ==> !Around(raw, c, i) then base == 0
    else exists c :: 0 <= c < i && Around(raw, c, i) && (forall j :: c < j < i ==> !Around(raw, j, i)) && base == depths[c] + 1
  }

  ghost predicate LowestFrom(raw: seq<RawSpan>, depths: seq<nat>, i: nat, base: nat)
    requires i < |raw| == |depths|
  {
    base <= depths[i] && forall d: nat :: base <= d <= depths[i] ==> (Occupied(raw, depths, i, d) <==> d < depths[i])
  }

  ghost predicate Occupied(raw: seq<RawSpan>, depths: seq<nat>, i: nat, d: nat)
    requires i < |raw| == |depths|
  {
    exists j :: 0 <= j < i && raw[j].pid == raw[i].pid && raw[j].tid == raw[i].tid
                && raw[i].range.start < raw[j].range.end && depths[j] == d
  }

  lemma LaneExactly(raw: seq<RawSpan>, depths: seq<nat>, i: nat)
    requires LanesOk(raw, depths) && i < |raw|
    ensures LaneIs(raw, depths, i)
  {
    assert LaneOk(raw, depths, i);
    assert forall j :: 0 <= j < i ==> (Around(raw, j, i) <==> CanContain(raw, j, i));
    forall d: nat ensures Occupied(raw, depths, i, d) <==> LaneTaken(raw, depths, i, d) {
      if Occupied(raw, depths, i, d) {
        var j :| 0 <= j < i && raw[j].pid == raw[i].pid && raw[j].tid == raw[i].tid
                 && raw[i].range.start < raw[j].range.end && depths[j] == d;
        assert Running(raw, j, i);
      }
    }
    var base := BaseLane(raw, depths, i);
    assert IsBase(raw, depths, i, base);
    assert LowestFrom(raw, depths, i, base);
  }

  // ---- the loop ---------------------------------------------------------------------------------------------

  /** The identity map holds the last span of each process and instance. */
  ghost predicate IdentitiesOk(raw: seq<RawSpan>, n: nat, identities: map<Key, nat>)
    requires n <= |raw|
  {
    forall id :: IdentityBelow(raw, n, id) == if id in identities then Some(identities[id]) else None
  }

  method CollectIdentities(raw: seq<RawSpan>) returns (identities: map<Key, nat>)
    ensures IdentitiesOk(raw, |raw|, identities)
  {
    identities := map[];
    for i := 0 to |raw|
      invariant IdentitiesOk(raw, i, identities)
    {
      identities := identities[(raw[i].pid, raw[i].instance) := i];
    }
  }

  /** The recorded parent of a span, if it is one the forest can use. */
  method FindRecorded(raw: seq<RawSpan>, identities: map<Key, nat>, i: nat) returns (parent: Option<nat>)
    requires i < |raw| && IdentitiesOk(raw, |raw|, identities)
    ensures parent == ExplicitParent(raw, i)
  {
    hide IdentityBelow;
    var span := raw[i];
    var id := (span.pid, span.parent);
    assert IdentityBelow(raw, |raw|, id) == if id in identities then Some(identities[id]) else None;
    if id !in identities {
      return None;
    }
    var p := identities[id];
    if span.parent != 0 && p < i
       && (raw[p].tid != span.tid
           || (raw[p].range.start <= span.range.start && raw[p].range.end >= span.range.end)) {
      return Some(p);
    }
    parent := None;
  }

  ghost predicate Increasing(stack: seq<nat>) {
    forall a, b :: 0 <= a < b < |stack| ==> stack[a] < stack[b]
  }

  ghost predicate Below(stack: seq<nat>, n: nat) {
    forall k :: 0 <= k < |stack| ==> stack[k] < n
  }

  /** `stack.retain(...)`. */
  function Retain(raw: seq<RawSpan>, stack: seq<nat>, start: nat): seq<nat>
    requires Below(stack, |raw|)
  {
    if stack == [] then []
    else
      var rest := Retain(raw, stack[1..], start);
      if raw[stack[0]].range.end > start then [stack[0]] + rest else rest
  }

  lemma {:induction false} RetainExact(raw: seq<RawSpan>, stack: seq<nat>, start: nat)
    requires Increasing(stack) && Below(stack, |raw|)
    ensures Increasing(Retain(raw, stack, start))
    ensures forall j :: j in Retain(raw, stack, start) <==> j in stack && j < |raw| && raw[j].range.end > start
  {
    if stack != [] {
      RetainExact(raw, stack[1..], start);
      var rest := Retain(raw, stack[1..], start);
      assert stack == [stack[0]] + stack[1..];
      forall k | 0 <= k < |rest| ensures stack[0] < rest[k] {
        assert rest[k] in rest && rest[k] in stack[1..];
      }
    }
  }

  /** The stack of a thread before span `n`: some of its earlier spans, at least all those that end after
      the start of span `n - 1`. */
  ghost predicate StackOk(raw: seq<RawSpan>, n: nat, key: Key, stack: seq<nat>)
    requires n <= |raw|
  {
    && Increasing(stack)
    && Below(stack, n)
    && (forall k :: 0 <= k < |stack| ==> ThreadOf(raw[stack[k]]) == key)
    && (forall j :: 0 <= j < n && ThreadOf(raw[j]) == key && raw[j].range.end > raw[n - 1].range.start ==> j in stack)
  }

  function StackOf(stacks: map<Key, seq<nat>>, key: Key): seq<nat> {
    if key in stacks then stacks[key] else []
  }

  ghost predicate StacksOk(raw: seq<RawSpan>, n: nat, stacks: map<Key, seq<nat>>)
    requires n <= |raw|
  {
    forall key :: StackOk(raw, n, key, StackOf(stacks, key))
  }

  /** After the retain the stack holds exactly the running spans. */
  ghost predicate HoldsRunning(raw: seq<RawSpan>, i: nat, stack: seq<nat>)
    requires i < |raw|
  {
    Increasing(stack) && Below(stack, i) && forall j: nat :: j in stack <==> j < i && Running(raw, j, i)
  }

  lemma NoStacks(raw: seq<RawSpan>)
    ensures StacksOk(raw, 0, map[])
  {
  }

  lemma StackBelow(raw: seq<RawSpan>, n: nat, key: Key, stack: seq<nat>)
    requires n <= |raw| && StackOk(raw, n, key, stack)
    ensures Below(stack, |raw|)
  {
  }

  lemma RetainRunning(raw: seq<RawSpan>, i: nat, stack: seq<nat>)
    requires InOrder(raw) && i < |raw| && StackOk(raw, i, ThreadOf(raw[i]), stack)
    ensures Below(stack, |raw|) && HoldsRunning(raw, i, Retain(raw, stack, raw[i].range.start))
    ensures Below(Retain(raw, stack, raw[i].range.start), i)
  {
    RetainExact(raw, stack, raw[i].range.start);
    assert forall k :: 0 <= k < |Retain(raw, stack, raw[i].range.start)| ==>
      Retain(raw, stack, raw[i].range.start)[k] in stack;
    forall j: nat ensures j in Retain(raw, stack, raw[i].range.start) <==> j < i && Running(raw, j, i) {
      if i > 0 { assert SpanBefore(raw[i - 1], raw[i]); }
    }
  }

  /** Pushing `i` on its thread's retained stack keeps every stack good for the next span. */
  lemma PushKeeps(raw: seq<RawSpan>, i: nat, stacks: map<Key, seq<nat>>, stack: seq<nat>)
    requires InOrder(raw) && i < |raw| && StacksOk(raw, i, stacks) && HoldsRunning(raw, i, stack)
    ensures StacksOk(raw, i + 1, stacks[ThreadOf(raw[i]) := stack + [i]])
  {
    hide StackOk, HoldsRunning, InOrder;
    var key := ThreadOf(raw[i]);
    var next := stacks[key := stack + [i]];
    forall k ensures StackOk(raw, i + 1, k, StackOf(next, k)) {
      if k == key {
        PushOwn(raw, i, stack);
      } else {
        assert StackOf(next, k) == StackOf(stacks, k);
        PushOther(raw, i, k, StackOf(stacks, k));
      }
    }
  }

  lemma PushOwn(raw: seq<RawSpan>, i: nat, stack: seq<nat>)
    requires i < |raw| && HoldsRunning(raw, i, stack)
    ensures StackOk(raw, i + 1, ThreadOf(raw[i]), stack + [i])
  {
    var next := stack + [i];
    forall k | 0 <= k < |next| ensures ThreadOf(raw[next[k]]) == ThreadOf(raw[i]) {
      if k < |stack| { assert next[k] in stack; }
    }
    forall j | 0 <= j < i + 1 && ThreadOf(raw[j]) == ThreadOf(raw[i]) && raw[j].range.end > raw[i].range.start
      ensures j in next
    {
      if j < i { assert Running(raw, j, i) && j in stack; }
    }
  }

  lemma PushOther(raw: seq<RawSpan>, i: nat, key: Key, stack: seq<nat>)
    requires InOrder(raw) && i < |raw| && StackOk(raw, i, key, stack) && key != ThreadOf(raw[i])
    ensures StackOk(raw, i + 1, key, stack)
  {
    if i > 0 { assert SpanBefore(raw[i - 1], raw[i]); }
  }

  /** The reverse search of the stack for a span that can contain `i`. */
  method FindContainer(raw: seq<RawSpan>, i: nat, stack: seq<nat>) returns (container: Option<nat>)
    requires i < |raw| && HoldsRunning(raw, i, stack)
    ensures container == Container(raw, i)
  {
    var k := |stack|;
    while k > 0
      invariant 0 <= k <= |stack|
      invariant forall m :: k <= m < |stack| ==> !CanContain(raw, stack[m], i)
    {
      var j := stack[k - 1];
      assert j in stack;
      if raw[j].range.end >= raw[i].range.end && raw[j].boundary.Complete? {
        ContainerIs(raw, i, stack, k - 1);
        return Some(j);
      }
      k := k - 1;
    }
    NoContainer(raw, i, stack);
    container := None;
  }

  lemma ContainerIs(raw: seq<RawSpan>, i: nat, stack: seq<nat>, k: nat)
    requires i < |raw| && HoldsRunning(raw, i, stack) && k < |stack|
    requires CanContain(raw, stack[k], i)
    requires forall m :: k < m < |stack| ==> !CanContain(raw, stack[m], i)
    ensures Container(raw, i) == Some(stack[k])
  {
    var c := Container(raw, i).value;
    assert c in stack;
    var m :| 0 <= m < |stack| && stack[m] == c;
    assert m >= k;
  }

  lemma NoContainer(raw: seq<RawSpan>, i: nat, stack: seq<nat>)
    requires i < |raw| && HoldsRunning(raw, i, stack)
    requires forall m :: 0 <= m < |stack| ==> !CanContain(raw, stack[m], i)
    ensures Container(raw, i).None?
  {
    forall j | 0 <= j < i ensures !CanContain(raw, j, i) {
      if j in stack {
        var m :| 0 <= m < |stack| && stack[m] == j;
      }
    }
  }

  predicate Taken(depths: seq<nat>, stack: seq<nat>, d: nat)
    requires Below(stack, |depths|)
  {
    exists k :: 0 <= k < |stack| && depths[stack[k]] == d
  }

  /** The depth search; it ends because each taken lane uses up a running span. */
  method FreeLane(depths: seq<nat>, stack: seq<nat>, base: nat) returns (depth: nat)
    requires Below(stack, |depths|)
    ensures base <= depth && !Taken(depths, stack, depth)
    ensures forall d :: base <= d < depth ==> Taken(depths, stack, d)
  {
    depth := base;
    while Taken(depths, stack, depth)
      invariant base <= depth
      invariant forall d :: base <= d < depth ==> Taken(depths, stack, d)
      decreases set k | 0 <= k < |stack| && depths[stack[k]] >= depth
    {
      ghost var before := set k | 0 <= k < |stack| && depths[stack[k]] >= depth;
      ghost var k :| 0 <= k < |stack| && depths[stack[k]] == depth;
      assert k in before;
      depth := depth + 1;
    }
  }

  /** The parent and depth loop of `load_regions`. */
  method Arrange(raw: seq<RawSpan>) returns (parents: seq<Option<nat>>, depths: seq<nat>)
    requires InOrder(raw)
    ensures |parents| == |raw| && LanesOk(raw, depths)
    ensures forall i :: 0 <= i < |raw| ==> parents[i] == Parent(raw, i)
    ensures forall i :: 0 <= i < |raw| ==> ParentIs(raw, i, parents[i]) && LaneIs(raw, depths, i)
  {
    hide StackOk, InOrder, LaneOk, HoldsRunning, ContainerBelow, IdentityBelow, ParentIs, LaneIs, ExplicitParent, IdentitiesOk;
    parents, depths := [], [];
    var identities := CollectIdentities(raw);
    NoStacks(raw);
    var active: map<Key, seq<nat>> := map[];
    for i := 0 to |raw|
      invariant |parents| == i && |depths| == i
      invariant forall k :: 0 <= k < i ==> parents[k] == Parent(raw, k)
      invariant forall k :: 0 <= k < i ==> LaneOk(raw, depths, k)
      invariant StacksOk(raw, i, active)
    {
      var key := ThreadOf(raw[i]);
      assert StackOk(raw, i, key, StackOf(active, key));
      StackBelow(raw, i, key, StackOf(active, key));
      var stack := Retain(raw, StackOf(active, key), raw[i].range.start);
      RetainRunning(raw, i, StackOf(active, key));
      var container := FindContainer(raw, i, stack);
      var depth := FreeLane(depths, stack, if container.Some? then depths[container.value] + 1 else 0);
      PlaceLane(raw, depths, i, stack, depth);
      depths := depths + [depth];
      var recorded := FindRecorded(raw, identities, i);
      parents := parents + [if recorded.Some? then recorded else container];
      PushKeeps(raw, i, active, stack);
      active := active[key := stack + [i]];
    }
    forall i | 0 <= i < |raw| ensures ParentIs(raw, i, parents[i]) && LaneIs(raw, depths, i) {
      ParentExactly(raw, i);
      LaneExactly(raw, depths, i);
    }
  }

  /** Appending the found lane satisfies the lane rule and disturbs no earlier one. */
  lemma PlaceLane(raw: seq<RawSpan>, depths: seq<nat>, i: nat, stack: seq<nat>, depth: nat)
    requires i < |raw| && |depths| == i && HoldsRunning(raw, i, stack)
    requires forall k :: 0 <= k < i ==> LaneOk(raw, depths, k)
    requires BaseLane(raw, depths, i) <= depth && !Taken(depths, stack, depth)
    requires forall d :: BaseLane(raw, depths, i) <= d < depth ==> Taken(depths, stack, d)
    ensures forall k :: 0 <= k <= i ==> LaneOk(raw, depths + [depth], k)
  {
    forall k | 0 <= k <= i ensures LaneOk(raw, depths + [depth], k) {
      SameLanes(raw, depths, depth, k);
      if k < i {
        assert LaneOk(raw, depths, k);
      } else {
        forall d: nat ensures LaneTaken(raw, depths, i, d) <==> Taken(depths, stack, d) {
          TakenIsRunning(raw, depths, i, stack, d);
        }
      }
    }
  }

  lemma SameLanes(raw: seq<RawSpan>, depths: seq<nat>, depth: nat, k: nat)
    requires k < |raw| && k <= |depths|
    ensures BaseLane(raw, depths + [depth], k) == BaseLane(raw, depths, k)
    ensures forall d: nat :: LaneTaken(raw, depths + [depth], k, d) <==> LaneTaken(raw, depths, k, d)
  {
    var next := depths + [depth];
    forall d: nat ensures LaneTaken(raw, next, k, d) <==> LaneTaken(raw, depths, k, d) {
      if LaneTaken(raw, depths, k, d) {
        var j :| 0 <= j < k && Running(raw, j, k) && depths[j] == d;
        assert next[j] == d;
      }
      if LaneTaken(raw, next, k, d) {
        var j :| 0 <= j < k && Running(raw, j, k) && next[j] == d;
        assert depths[j] == d;
      }
    }
  }

  lemma TakenIsRunning(raw: seq<RawSpan>, depths: seq<nat>, i: nat, stack: seq<nat>, d: nat)
    requires i < |raw| && |depths| == i && HoldsRunning(raw, i, stack)
    ensures LaneTaken(raw, depths, i, d) <==> Taken(depths, stack, d)
  {
    if Taken(depths, stack, d) {
      var k :| 0 <= k < |stack| && depths[stack[k]] == d;
      assert stack[k] in stack && Running(raw, stack[k], i);
    }
    if LaneTaken(raw, depths, i, d) {
      var j :| 0 <= j < i && Running(raw, j, i) && depths[j] == d;
      assert j in stack;
      var k :| 0 <= k < |stack| && stack[k] == j;
    }
  }
}
