/** Region nodes, interval selections and the whole reconstruction. */
module RegionData {
  import opened Basics
  import opened Intervals
  import opened RegionSpans
  import opened RegionLanes
  import opened RegionTree

  datatype Node = Node(
    event: nat, parent: Option<nat>, children: seq<nat>, spans: seq<nat>,
    count: nat, incomplete: nat, inclusiveNs: int, selfNs: int)

  // ---- what a node stands for -------------------------------------------------------------------------------

  /** The events from the root of the span forest down to span `i`. */
  function EventPath(raw: seq<RawSpan>, i: nat): seq<nat>
    requires InOrder(raw) && i < |raw|
    decreases i
  {
    if Parent(raw, i).Some? then
      ParentForest(raw, i);
      EventPath(raw, Parent(raw, i).value) + [raw[i].event]
    else [raw[i].event]
  }

  /** What spans add to their node: complete and incomplete counts, inclusive and self nanoseconds. */
  datatype Totals = Totals(count: nat, incomplete: nat, inclusiveNs: int, selfNs: int)

  /** The totals of a list of spans, a complete span counting with its length and its self length. */
  ghost function TotalsOf(raw: seq<RawSpan>, spans: seq<nat>): Totals
    requires Below(spans, |raw|)
  {
    if spans == [] then Totals(0, 0, 0, 0)
    else
      var t := TotalsOf(raw, spans[..|spans| - 1]);
      var i := spans[|spans| - 1];
      if raw[i].boundary.Complete? then
        Totals(t.count + 1, t.incomplete, t.inclusiveNs + raw[i].range.Length(),
               t.selfNs + Sum(SelfTime(raw, i), Span))
      else t.(incomplete := t.incomplete + 1)
  }

  /** The spans below `k` that belong to node `n`, in order. */
  function Members(owner: seq<nat>, n: nat, k: nat): (m: seq<nat>)
    requires k <= |owner|
    ensures Below(m, k)
  {
    if k == 0 then [] else Members(owner, n, k - 1) + if owner[k - 1] == n then [k - 1] else []
  }

  /** A node lists exactly its spans, in order, with their totals. */
  ghost predicate NodeExact(raw: seq<RawSpan>, owner: seq<nat>, nodes: seq<Node>, n: nat)
    requires n < |nodes| && |owner| <= |raw|
  {
    && nodes[n].spans == Members(owner, n, |owner|)
    && Totals(nodes[n].count, nodes[n].incomplete, nodes[n].inclusiveNs, nodes[n].selfNs)
       == TotalsOf(raw, nodes[n].spans)
  }

  type NodeKey = (Option<nat>, nat)

  /** Nodes are distinct by parent and event, in bijection with the lookup map, parents first. */
  ghost predicate LookupOk(nodes: seq<Node>, ids: map<NodeKey, nat>) {
    && (forall key :: key in ids ==> ids[key] < |nodes| && (nodes[ids[key]].parent, nodes[ids[key]].event) == key)
    && (forall n :: 0 <= n < |nodes| ==> (nodes[n].parent, nodes[n].event) in ids && ids[(nodes[n].parent, nodes[n].event)] == n)
    && (forall n :: 0 <= n < |nodes| && nodes[n].parent.Some? ==> nodes[n].parent.value < n)
  }

  /** Each span belongs to a node of its own event under the node of its parent span. */
  ghost predicate OwnerOk(raw: seq<RawSpan>, owner: seq<nat>, nodes: seq<Node>, i: nat)
    requires InOrder(raw) && i < |owner| <= |raw|
  {
    && owner[i] < |nodes| && nodes[owner[i]].event == raw[i].event
    && nodes[owner[i]].parent == ParentNode(raw, owner, i)
  }

  ghost function ParentNode(raw: seq<RawSpan>, owner: seq<nat>, i: nat): Option<nat>
    requires InOrder(raw) && i < |raw| && i <= |owner|
  {
    if Parent(raw, i).Some? then
      ParentForest(raw, i);
      Some(owner[Parent(raw, i).value])
    else None
  }

  predicate IsChild(nodes: seq<Node>, c: nat, parent: Option<nat>) {
    c < |nodes| && nodes[c].parent == parent
  }

  ghost predicate Lists(nodes: seq<Node>, list: seq<nat>, parent: Option<nat>) {
    forall c: nat :: c in list <==> IsChild(nodes, c, parent)
  }

  /** The child lists are the parent pointers read backwards. */
  ghost predicate ChildrenOk(nodes: seq<Node>, roots: seq<nat>) {
    Lists(nodes, roots, None) && forall p :: 0 <= p < |nodes| ==> Lists(nodes, nodes[p].children, Some(p))
  }

  ghost predicate NodesOk(raw: seq<RawSpan>, owner: seq<nat>, nodes: seq<Node>, roots: seq<nat>, ids: map<NodeKey, nat>)
    requires InOrder(raw)
  {
    && |owner| <= |raw| && LookupOk(nodes, ids) && ChildrenOk(nodes, roots)
    && (forall i :: 0 <= i < |owner| ==> OwnerOk(raw, owner, nodes, i))
    && (forall n :: 0 <= n < |nodes| ==> NodeExact(raw, owner, nodes, n))
  }

  // ---- the loop ---------------------------------------------------------------------------------------------

  /** The node loop of `load_regions`. */
  method BuildNodes(raw: seq<RawSpan>, parents: seq<Option<nat>>, children: seq<seq<TimeRange>>)
    returns (nodes: seq<Node>, roots: seq<nat>, owner: seq<nat>, ghost ids: map<NodeKey, nat>)
    requires WellFormed(raw) && |parents| == |raw| && |children| == |raw|
    requires forall i :: 0 <= i < |raw| ==> parents[i] == Parent(raw, i) && children[i] == ChildTime(raw, i)
    ensures |owner| == |raw| && NodesOk(raw, owner, nodes, roots, ids)
  {
    hide Parent, InOrder, NodesOk, ChildTime, LookupOk;
    nodes, roots, owner := [], [], [];
    var lookup: map<NodeKey, nat> := map[];
    NoNodes(raw);
    for i := 0 to |raw|
      invariant |owner| == i && NodesOk(raw, owner, nodes, roots, lookup)
    {
      var parent: Option<nat> := None;
      if parents[i].Some? {
        ParentForest(raw, i);
        parent := Some(owner[parents[i].value]);
      }
      var key := (parent, raw[i].event);
      LookupSound(raw, owner, nodes, roots, lookup, i);
      if key !in lookup {
        AddNode(raw, owner, nodes, roots, lookup, i);
        var id := |nodes|;
        nodes := nodes + [Node(raw[i].event, parent, [], [], 0, 0, 0, 0)];
        if parent.Some? {
          nodes := nodes[parent.value := nodes[parent.value].(children := nodes[parent.value].children + [id])];
        } else {
          roots := roots + [id];
        }
        lookup := lookup[key := id];
      }
      AddSpan(raw, owner, nodes, roots, lookup, i);
      var n := lookup[key];
      var node := nodes[n].(spans := nodes[n].spans + [i]);
      if raw[i].boundary.Complete? {
        var childNs := TotalLength(children[i]);
        SelfPartition(raw, i);
        var length := raw[i].range.end - raw[i].range.start;
        node := node.(count := node.count + 1, inclusiveNs := node.inclusiveNs + length,
                      selfNs := node.selfNs + Max(0, length - childNs));
      } else {
        node := node.(incomplete := node.incomplete + 1);
      }
      nodes := nodes[n := node];
      owner := owner + [n];
    }
    ids := lookup;
  }

  method TotalLength(rs: seq<TimeRange>) returns (n: int)
    ensures n == Sum(rs, Span)
  {
    n := 0;
    assert rs[0..] == rs;
    for i := 0 to |rs|
      invariant n + Sum(rs[i..], Span) == Sum(rs, Span)
    {
      assert rs[i..][1..] == rs[i + 1..];
      n := n + (rs[i].end - rs[i].start);
    }
  }

  lemma NoNodes(raw: seq<RawSpan>)
    requires InOrder(raw)
    ensures NodesOk(raw, [], [], [], map[])
  {
  }

  /** The key of the next span names an existing parent node and, if known, an existing node. */
  lemma LookupSound(raw: seq<RawSpan>, owner: seq<nat>, nodes: seq<Node>, roots: seq<nat>, ids: map<NodeKey, nat>, i: nat)
    requires InOrder(raw) && |owner| == i < |raw| && NodesOk(raw, owner, nodes, roots, ids)
    ensures var parent := ParentNode(raw, owner, i); parent.Some? ==> parent.value < |nodes|
    ensures forall key :: key in ids ==> ids[key] < |nodes|
  {
    if Parent(raw, i).Some? {
      ParentForest(raw, i);
      assert OwnerOk(raw, owner, nodes, Parent(raw, i).value);
    }
  }

  /** The node vector after a node for the key of span `i` is added. */
  function WithNode(nodes: seq<Node>, event: nat, parent: Option<nat>): seq<Node>
    requires parent.Some? ==> parent.value < |nodes|
  {
    var more := nodes + [Node(event, parent, [], [], 0, 0, 0, 0)];
    if parent.None? then more
    else more[parent.value := more[parent.value].(children := more[parent.value].children + [|nodes|])]
  }

  lemma AddNode(raw: seq<RawSpan>, owner: seq<nat>, nodes: seq<Node>, roots: seq<nat>, ids: map<NodeKey, nat>, i: nat)
    requires InOrder(raw) && |owner| == i < |raw| && NodesOk(raw, owner, nodes, roots, ids)
    requires var parent := ParentNode(raw, owner, i);
      (parent.Some? ==> parent.value < |nodes|) && (parent, raw[i].event) !in ids
    ensures var parent := ParentNode(raw, owner, i);
      NodesOk(raw, owner, WithNode(nodes, raw[i].event, parent),
              if parent.None? then roots + [|nodes|] else roots, ids[(parent, raw[i].event) := |nodes|])
  {
    hide Parent, InOrder, TotalsOf, LookupOk, ChildrenOk, WithNode, Members, ParentNode;
    var parent := ParentNode(raw, owner, i);
    var next := WithNode(nodes, raw[i].event, parent);
    AddNodeShape(nodes, roots, ids, raw[i].event, parent);
    WithNodeIs(nodes, raw[i].event, parent);
    forall k | 0 <= k < |owner| ensures OwnerOk(raw, owner, next, k) { assert OwnerOk(raw, owner, nodes, k); }
    forall n | 0 <= n < |next| ensures NodeExact(raw, owner, next, n) {
      if n < |nodes| {
        assert NodeExact(raw, owner, nodes, n);
      } else {
        NoMembers(raw, owner, nodes, n);
        NoTotals(raw);
      }
    }
  }

  lemma WithNodeIs(nodes: seq<Node>, event: nat, parent: Option<nat>)
    requires parent.Some? ==> parent.value < |nodes|
    ensures var next := WithNode(nodes, event, parent);
      && |next| == |nodes| + 1 && next[|nodes|] == Node(event, parent, [], [], 0, 0, 0, 0)
      && (forall n :: 0 <= n < |nodes| ==> next[n] == nodes[n].(children := next[n].children))
      && (forall n :: 0 <= n < |nodes| ==>
            next[n].children == nodes[n].children + if parent == Some(n) then [|nodes|] else [])
  {
  }

  /** A fresh node keeps the lookup a bijection. */
  lemma AddNodeLookup(nodes: seq<Node>, next: seq<Node>, ids: map<NodeKey, nat>, event: nat, parent: Option<nat>)
    requires LookupOk(nodes, ids)
    requires (parent.Some? ==> parent.value < |nodes|) && (parent, event) !in ids
    requires |next| == |nodes| + 1 && next[|nodes|].parent == parent && next[|nodes|].event == event
    requires forall n :: 0 <= n < |nodes| ==> next[n].parent == nodes[n].parent && next[n].event == nodes[n].event
    ensures LookupOk(next, ids[(parent, event) := |nodes|])
  {
  }

  lemma ListsGrow(nodes: seq<Node>, next: seq<Node>, list: seq<nat>, p: Option<nat>, parent: Option<nat>)
    requires Lists(nodes, list, p)
    requires |next| == |nodes| + 1 && next[|nodes|].parent == parent
    requires forall n :: 0 <= n < |nodes| ==> next[n].parent == nodes[n].parent
    ensures Lists(next, list + if p == parent then [|nodes|] else [], p)
  {
    var more := list + if p == parent then [|nodes|] else [];
    forall c: nat ensures c in more <==> IsChild(next, c, p) {
      assert c in list <==> IsChild(nodes, c, p);
    }
  }

  /** A fresh node keeps the child lists in step with the parent pointers. */
  lemma AddNodeShape(nodes: seq<Node>, roots: seq<nat>, ids: map<NodeKey, nat>, event: nat, parent: Option<nat>)
    requires LookupOk(nodes, ids) && ChildrenOk(nodes, roots)
    requires (parent.Some? ==> parent.value < |nodes|) && (parent, event) !in ids
    ensures var next := WithNode(nodes, event, parent);
      && LookupOk(next, ids[(parent, event) := |nodes|])
      && ChildrenOk(next, if parent.None? then roots + [|nodes|] else roots)
  {
    hide WithNode, Lists, LookupOk;
    WithNodeIs(nodes, event, parent);
    var next := WithNode(nodes, event, parent);
    AddNodeLookup(nodes, next, ids, event, parent);
    ListsGrow(nodes, next, roots, None, parent);
    assert roots + [] == roots;
    forall p | 0 <= p < |next| ensures Lists(next, next[p].children, Some(p)) {
      if p < |nodes| {
        ListsGrow(nodes, next, nodes[p].children, Some(p), parent);
      } else {
        NoChildrenYet(nodes, ids, p);
        ListsGrow(nodes, next, [], Some(p), parent);
        assert [] + [] == next[p].children;
      }
    }
  }

  lemma NoChildrenYet(nodes: seq<Node>, ids: map<NodeKey, nat>, p: nat)
    requires LookupOk(nodes, ids) && p >= |nodes|
    ensures Lists(nodes, [], Some(p))
  {
  }

  lemma NoTotals(raw: seq<RawSpan>)
    ensures TotalsOf(raw, []) == Totals(0, 0, 0, 0)
  {
  }

  lemma NoMembers(raw: seq<RawSpan>, owner: seq<nat>, nodes: seq<Node>, n: nat)
    requires InOrder(raw) && |owner| <= |raw| && |nodes| <= n
    requires forall k :: 0 <= k < |owner| ==> OwnerOk(raw, owner, nodes, k)
    ensures Members(owner, n, |owner|) == []
  {
    hide Parent, InOrder;
    forall k | 0 <= k < |owner| ensures owner[k] != n { assert OwnerOk(raw, owner, nodes, k); }
    NoMembersBelow(owner, n, |owner|);
  }

  lemma {:induction false} NoMembersBelow(owner: seq<nat>, n: nat, k: nat)
    requires k <= |owner| && forall j :: 0 <= j < |owner| ==> owner[j] != n
    ensures Members(owner, n, k) == []
  {
    if k > 0 { NoMembersBelow(owner, n, k - 1); }
  }

  lemma {:induction false} MembersSame(owner: seq<nat>, x: nat, n: nat, k: nat)
    requires k <= |owner|
    ensures Members(owner + [x], n, k) == Members(owner, n, k)
  {
    if k > 0 { MembersSame(owner, x, n, k - 1); }
  }

  /** The node of span `i` after the span is added to it. */
  ghost function WithSpan(raw: seq<RawSpan>, node: Node, i: nat): Node
    requires i < |raw|
  {
    var more := node.(spans := node.spans + [i]);
    if raw[i].boundary.Complete? then
      more.(count := node.count + 1, inclusiveNs := node.inclusiveNs + raw[i].range.Length(),
            selfNs := node.selfNs + Sum(SelfTime(raw, i), Span))
    else more.(incomplete := node.incomplete + 1)
  }

  lemma AddSpan(raw: seq<RawSpan>, owner: seq<nat>, nodes: seq<Node>, roots: seq<nat>, ids: map<NodeKey, nat>, i: nat)
    requires InOrder(raw) && |owner| == i < |raw| && NodesOk(raw, owner, nodes, roots, ids)
    requires (ParentNode(raw, owner, i), raw[i].event) in ids
    ensures var n := ids[(ParentNode(raw, owner, i), raw[i].event)];
      n < |nodes| && NodesOk(raw, owner + [n], nodes[n := WithSpan(raw, nodes[n], i)], roots, ids)
  {
    hide Parent, InOrder, TotalsOf, Members, ChildrenOk, ParentNode;
    var n := ids[(ParentNode(raw, owner, i), raw[i].event)];
    var next, owned := nodes[n := WithSpan(raw, nodes[n], i)], owner + [n];
    forall k | 0 <= k < |owned| ensures OwnerOk(raw, owned, next, k) {
      SameParentNode(raw, owner, n, k);
      if k < i { assert OwnerOk(raw, owner, nodes, k); }
    }
    forall m | 0 <= m < |next| ensures NodeExact(raw, owned, next, m) {
      assert NodeExact(raw, owner, nodes, m);
      MembersGrow(owner, n, m);
      if m == n { TotalsGrow(raw, nodes[n].spans, i); }
    }
    SameShape(nodes, next, roots, ids);
  }

  lemma SameParentNode(raw: seq<RawSpan>, owner: seq<nat>, n: nat, k: nat)
    requires InOrder(raw) && k < |raw| && k <= |owner|
    ensures ParentNode(raw, owner + [n], k) == ParentNode(raw, owner, k)
  {
    if Parent(raw, k).Some? { ParentForest(raw, k); }
  }

  lemma MembersGrow(owner: seq<nat>, n: nat, m: nat)
    ensures Members(owner + [n], m, |owner| + 1) == Members(owner, m, |owner|) + if m == n then [|owner|] else []
  {
    MembersSame(owner, n, m, |owner|);
  }

  lemma TotalsGrow(raw: seq<RawSpan>, spans: seq<nat>, i: nat)
    requires Below(spans, |raw|) && i < |raw|
    ensures var t := TotalsOf(raw, spans);
      TotalsOf(raw, spans + [i])
        == if raw[i].boundary.Complete? then
             Totals(t.count + 1, t.incomplete, t.inclusiveNs + raw[i].range.Length(),
                    t.selfNs + Sum(SelfTime(raw, i), Span))
           else t.(incomplete := t.incomplete + 1)
  {
    assert (spans + [i])[..|spans|] == spans;
  }

  lemma SameShape(nodes: seq<Node>, next: seq<Node>, roots: seq<nat>, ids: map<NodeKey, nat>)
    requires |next| == |nodes| && LookupOk(nodes, ids) && ChildrenOk(nodes, roots)
    requires forall n :: 0 <= n < |nodes| ==>
      next[n].parent == nodes[n].parent && next[n].event == nodes[n].event && next[n].children == nodes[n].children
    ensures LookupOk(next, ids) && ChildrenOk(next, roots)
  {
  }

  // ---- nodes are event paths ----------------------------------------------------------------------------------

  /** Two spans share a node exactly when the same events lead down to them. */
  lemma {:induction false} NodeIsPath(raw: seq<RawSpan>, owner: seq<nat>, nodes: seq<Node>, roots: seq<nat>, ids: map<NodeKey, nat>, i: nat, j: nat)
    requires InOrder(raw) && |owner| == |raw| && NodesOk(raw, owner, nodes, roots, ids) && i < |raw| && j < |raw|
    ensures owner[i] == owner[j] <==> EventPath(raw, i) == EventPath(raw, j)
    decreases i
  {
    hide InOrder, Parent, TotalsOf, Members;
    assert OwnerOk(raw, owner, nodes, i) && OwnerOk(raw, owner, nodes, j);
    var pi, pj := Parent(raw, i), Parent(raw, j);
    if pi.Some? {
      ParentForest(raw, i);
      if pj.Some? {
        ParentForest(raw, j);
        NodeIsPath(raw, owner, nodes, roots, ids, pi.value, pj.value);
        var a, b := EventPath(raw, pi.value), EventPath(raw, pj.value);
        assert EventPath(raw, i)[..|a|] == a && EventPath(raw, j)[..|b|] == b;
      } else {
        assert |EventPath(raw, pi.value)| > 0;
      }
    } else if pj.Some? {
      ParentForest(raw, j);
      assert |EventPath(raw, pj.value)| > 0;
    }
  }

  // ---- interval selections ------------------------------------------------------------------------------------

  /** Some selected complete span of the thread covers the instant. */
  ghost predicate Selected(raw: seq<RawSpan>, ids: seq<nat>, key: Key, t: int)
    requires Below(ids, |raw|)
  {
    exists k :: 0 <= k < |ids| && raw[ids[k]].boundary.Complete? && Owns(raw, key, ids[k], t)
  }

  function RangesOf(m: map<Key, seq<TimeRange>>, key: Key): seq<TimeRange> {
    if key in m then m[key] else []
  }

  /** `RegionData::intervals`: the merged per-thread index answers exactly like the plain span list. */
  method SelectIntervals(raw: seq<RawSpan>, ids: seq<nat>) returns (m: map<Key, seq<TimeRange>>)
    requires Below(ids, |raw|)
    ensures forall key :: Separated(RangesOf(m, key))
    ensures forall key, t: nat :: Contains(RangesOf(m, key), t) <==> Selected(raw, ids, key, t)
  {
    hide Separated, Covered;
    var lists: map<Key, seq<TimeRange>> := map[];
    NothingSelected(raw);
    for k := 0 to |ids|
      invariant Below(ids[..k], |raw|)
      invariant forall key, t :: Covered(RangesOf(lists, key), t) <==> Selected(raw, ids[..k], key, t)
    {
      var span := raw[ids[k]];
      ghost var before := lists;
      assert ids[..k + 1] == ids[..k] + [ids[k]];
      if span.boundary.Complete? {
        lists := lists[ThreadOf(span) := RangesOf(lists, ThreadOf(span)) + [span.range]];
      }
      forall key, t ensures Covered(RangesOf(lists, key), t) <==> Selected(raw, ids[..k + 1], key, t) {
        SelectOne(raw, ids[..k], ids[k], key, t);
        CoveredSnoc(RangesOf(before, key), span.range, t);
      }
    }
    assert ids[..|ids|] == ids;
    m := map key | key in lists :: Merged(lists[key]);
    forall key ensures Separated(RangesOf(m, key)) { RangesMerged(lists, m, key); }
    forall key, t: nat ensures Contains(RangesOf(m, key), t) <==> Selected(raw, ids, key, t) {
      RangesMerged(lists, m, key);
      ContainsExact(RangesOf(m, key), t);
      assert Covered(RangesOf(lists, key), t) <==> Selected(raw, ids, key, t);
    }
  }

  lemma RangesMerged(lists: map<Key, seq<TimeRange>>, m: map<Key, seq<TimeRange>>, key: Key)
    requires m == map k | k in lists :: Merged(lists[k])
    ensures Separated(RangesOf(m, key))
    ensures forall t :: Covered(RangesOf(m, key), t) <==> Covered(RangesOf(lists, key), t)
  {
    MergedExact(RangesOf(lists, key));
  }

  lemma NothingSelected(raw: seq<RawSpan>)
    ensures forall key, t :: !Selected(raw, [], key, t) && !Covered([], t)
  {
  }

  lemma SelectOne(raw: seq<RawSpan>, ids: seq<nat>, id: nat, key: Key, t: int)
    requires Below(ids, |raw|) && id < |raw|
    ensures Below(ids + [id], |raw|)
    ensures Selected(raw, ids + [id], key, t)
       <==> Selected(raw, ids, key, t) || (raw[id].boundary.Complete? && Owns(raw, key, id, t))
  {
    var all := ids + [id];
    if Selected(raw, ids, key, t) {
      var k :| 0 <= k < |ids| && raw[ids[k]].boundary.Complete? && Owns(raw, key, ids[k], t);
      assert all[k] == ids[k];
    }
    assert all[|ids|] == id;
  }

  // ---- the whole reconstruction -------------------------------------------------------------------------------

  ghost predicate InTimeOrder(events: seq<TraceEvent>) {
    forall i, j :: 0 <= i < j < |events| ==> events[i].timestamp <= events[j].timestamp
  }

  function RecordingStart(events: seq<TraceEvent>, profile: Option<TimeRange>): nat
    requires events != []
  {
    if profile.Some? then Min(profile.value.start, events[0].timestamp) else events[0].timestamp
  }

  /** One past the last event, saturating, or the end of the profile if later. */
  function RecordingEnd(events: seq<TraceEvent>, profile: Option<TimeRange>): nat
    requires events != []
  {
    var last := Min(U64_MAX, events[|events| - 1].timestamp + 1);
    if profile.Some? then Max(profile.value.end, last) else last
  }

  /** The spans `load_regions` works on: paired, then sorted. */
  function LoadedSpans(events: seq<TraceEvent>, profile: Option<TimeRange>): seq<RawSpan> {
    if events == [] then []
    else SortSpans(SpansOf(events, |events|, |events|, RecordingStart(events, profile), RecordingEnd(events, profile)))
  }

  lemma LoadedWellFormed(events: seq<TraceEvent>, profile: Option<TimeRange>)
    requires InTimeOrder(events) && forall e <- events :: e.timestamp <= U64_MAX
    ensures WellFormed(LoadedSpans(events, profile))
  {
    if events != [] {
      var start, end := RecordingStart(events, profile), RecordingEnd(events, profile);
      var spans := SpansOf(events, |events|, |events|, start, end);
      forall e | e in events ensures start <= e.timestamp <= end {
        var i :| 0 <= i < |events| && events[i] == e;
        assert events[|events| - 1] in events;
      }
      SpansWellFormed(events, |events|, |events|, start, end);
      SortSpansExact(spans);
      var raw := SortSpans(spans);
      forall i | 0 <= i < |raw| ensures raw[i].range.start <= raw[i].range.end { assert raw[i] in spans; }
    }
  }

  /** `load_regions`, from ordered events to spans, lanes, self ranges and nodes. */
  method LoadRegions(events: seq<TraceEvent>, profile: Option<TimeRange>)
    returns (raw: seq<RawSpan>, parents: seq<Option<nat>>, depths: seq<nat>, self: seq<seq<TimeRange>>,
             nodes: seq<Node>, roots: seq<nat>, owner: seq<nat>, ghost ids: map<NodeKey, nat>)
    requires InTimeOrder(events) && forall e <- events :: e.timestamp <= U64_MAX
    ensures raw == LoadedSpans(events, profile) && WellFormed(raw)
    ensures |parents| == |raw| && forall i :: 0 <= i < |raw| ==> parents[i] == Parent(raw, i)
    ensures LanesOk(raw, depths)
    ensures |self| == |raw| && forall i :: 0 <= i < |raw| ==> self[i] == SelfTime(raw, i)
    ensures |owner| == |raw| && NodesOk(raw, owner, nodes, roots, ids)
  {
    hide InOrder, NodesOk, LanesOk, Parent, SpansOf, SortSpans, Merged, Pieces, Gaps, InTimeOrder;
    LoadedWellFormed(events, profile);
    raw := [];
    if events != [] {
      var start, end: nat := events[0].timestamp, Min(U64_MAX, events[|events| - 1].timestamp + 1);
      if profile.Some? {
        start, end := Min(profile.value.start, start), Max(profile.value.end, end);
      }
      var paired := PairSpans(events, start, end);
      raw := SortSpans(paired);
    }
    parents, depths := Arrange(raw);
    var children := CollectChildren(raw, parents);
    self := [];
    for i := 0 to |raw|
      invariant |self| == i && forall k :: 0 <= k < i ==> self[k] == SelfTime(raw, k)
    {
      var ranges := SelfRanges(raw[i].range, children[i]);
      self := self + [ranges];
    }
    nodes, roots, owner, ids := BuildNodes(raw, parents, children);
  }
}
