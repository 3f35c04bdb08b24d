/** The weighted call tree built from accepted samples. */
module CallTree {
  import opened Basics

  /** A sample as the tree sees it: its stack from the root of the tree outward, and its weight. */
  datatype Walk = Walk(stack: seq<nat>, weight: nat)

  datatype Node = Node(
    frame: Option<nat>, parent: Option<nat>, children: seq<nat>, depth: nat, inclusive: nat, self: nat)

  function SaturatingAdd(a: nat, b: nat): nat { Min(U64_MAX, a + b) }

  // ---- what the tree means ------------------------------------------------------------------------------------

  /** Total weight of the samples whose stack starts with `path`. */
  function PrefixWeight(walks: seq<Walk>, path: seq<nat>): nat {
    if walks == [] then 0
    else
      var w := walks[|walks| - 1];
      PrefixWeight(walks[..|walks| - 1], path) + if path <= w.stack then w.weight else 0
  }

  /** Total weight of the samples whose stack is exactly `path`. */
  function ExactWeight(walks: seq<Walk>, path: seq<nat>): nat {
    if walks == [] then 0
    else
      var w := walks[|walks| - 1];
      ExactWeight(walks[..|walks| - 1], path) + if path == w.stack then w.weight else 0
  }

  /** Node `n` stands for `paths[n]`: the root for the empty path, every other node for its parent's path
      and one more frame. */
  ghost predicate PathOk(nodes: seq<Node>, paths: seq<seq<nat>>, n: nat)
    requires n < |nodes| == |paths|
  {
    if n == 0 then nodes[0].parent.None? && nodes[0].frame.None? && paths[0] == [] && nodes[0].depth == 0
    else
      && nodes[n].parent.Some? && nodes[n].frame.Some? && nodes[n].parent.value < n
      && paths[n] == paths[nodes[n].parent.value] + [nodes[n].frame.value]
      && nodes[n].depth == |paths[n]|
  }

  ghost predicate PathsOk(nodes: seq<Node>, paths: seq<seq<nat>>) {
    |nodes| == |paths| > 0 && forall n :: 0 <= n < |nodes| ==> PathOk(nodes, paths, n)
  }

  /** The lookup holds exactly the edges of the tree. */
  ghost predicate LookupOk(nodes: seq<Node>, lookup: map<(nat, nat), nat>) {
    && (forall key :: key in lookup ==>
          && 0 < lookup[key] < |nodes|
          && nodes[lookup[key]].parent == Some(key.0) && nodes[lookup[key]].frame == Some(key.1))
    && (forall n :: 0 < n < |nodes| && nodes[n].parent.Some? && nodes[n].frame.Some? ==>
          var key := (nodes[n].parent.value, nodes[n].frame.value);
          key in lookup && lookup[key] == n)
  }

  /** The child lists are the parent pointers read backwards, without repetition. */
  ghost predicate ChildrenOk(nodes: seq<Node>, p: nat)
    requires p < |nodes|
  {
    && (forall k :: 0 <= k < |nodes[p].children| ==> nodes[p].children[k] < |nodes|)
    && (forall c: nat :: c in nodes[p].children <==> c < |nodes| && nodes[c].parent == Some(p))
    && (forall a, b :: 0 <= a < b < |nodes[p].children| ==> nodes[p].children[a] != nodes[p].children[b])
  }

  /** The shape of the tree, apart from its counts. */
  ghost predicate ShapeOk(nodes: seq<Node>, lookup: map<(nat, nat), nat>, paths: seq<seq<nat>>) {
    PathsOk(nodes, paths) && LookupOk(nodes, lookup) && forall p :: 0 <= p < |nodes| ==> ChildrenOk(nodes, p)
  }

  /** Different nodes stand for different paths. */
  lemma {:induction false} PathsDistinct(nodes: seq<Node>, lookup: map<(nat, nat), nat>, paths: seq<seq<nat>>, a: nat, b: nat)
    requires PathsOk(nodes, paths) && LookupOk(nodes, lookup) && a < |nodes| && b < |nodes|
    requires paths[a] == paths[b]
    ensures a == b
    decreases a
  {
    assert PathOk(nodes, paths, a) && PathOk(nodes, paths, b);
    if a != 0 && b != 0 {
      var pa, pb := nodes[a].parent.value, nodes[b].parent.value;
      var n := |paths[a]| - 1;
      assert paths[a][..n] == paths[pa] && paths[b][..n] == paths[pb];
      assert paths[a][n] == nodes[a].frame.value && paths[b][n] == nodes[b].frame.value;
      PathsDistinct(nodes, lookup, paths, pa, pb);
    }
  }

  /** Exact and saturated counts: nothing else is in a node. */
  ghost predicate CountsOk(nodes: seq<Node>, paths: seq<seq<nat>>, walks: seq<Walk>) {
    |nodes| == |paths| && forall n :: 0 <= n < |nodes| ==>
      && nodes[n].inclusive == Min(U64_MAX, PrefixWeight(walks, paths[n]))
      && nodes[n].self == Min(U64_MAX, ExactWeight(walks, paths[n]))
  }

  /** Every prefix that carries weight has a node, and only such prefixes and the root do. */
  ghost predicate Complete(paths: seq<seq<nat>>, walks: seq<Walk>) {
    && (forall path :: PrefixWeight(walks, path) > 0 ==> path in paths)
    && (forall n :: 0 < n < |paths| ==> PrefixWeight(walks, paths[n]) > 0)
  }

  // ---- building -----------------------------------------------------------------------------------------------

  function Root(): Node { Node(None, None, [], 0, 0, 0) }

  /** Part-way through a walk: its weight has reached the prefixes of length at most `d`. */
  ghost predicate Reaching(nodes: seq<Node>, paths: seq<seq<nat>>, walks: seq<Walk>, w: Walk, d: nat) {
    |nodes| == |paths| && forall n :: 0 <= n < |nodes| ==>
      && nodes[n].inclusive == Min(U64_MAX, PrefixWeight(walks, paths[n])
                                            + if |paths[n]| <= d && paths[n] <= w.stack then w.weight else 0)
      && nodes[n].self == Min(U64_MAX, ExactWeight(walks, paths[n]))
  }

  /** The nodes known part-way: those of earlier walks and the prefixes reached so far. */
  ghost predicate Knows(paths: seq<seq<nat>>, walks: seq<Walk>, w: Walk, d: nat) {
    && (forall path :: PrefixWeight(walks, path) > 0 ==> path in paths)
    && (forall n :: 0 < n < |paths| ==> PrefixWeight(walks, paths[n]) > 0 || (|paths[n]| <= d && paths[n] <= w.stack))
    && (forall k :: 0 <= k <= d <= |w.stack| ==> w.stack[..k] in paths)
  }

  /** The node vector after appending a child for `frame` under `parent`. */
  function WithChild(nodes: seq<Node>, parent: nat, frame: nat): seq<Node>
    requires parent < |nodes|
  {
    var more := nodes + [Node(Some(frame), Some(parent), [], nodes[parent].depth + 1, 0, 0)];
    more[parent := more[parent].(children := more[parent].children + [|nodes|])]
  }

  lemma WithChildIs(nodes: seq<Node>, parent: nat, frame: nat)
    requires parent < |nodes|
    ensures var next := WithChild(nodes, parent, frame);
      && |next| == |nodes| + 1
      && next[|nodes|] == Node(Some(frame), Some(parent), [], nodes[parent].depth + 1, 0, 0)
      && (forall n :: 0 <= n < |nodes| ==>
            next[n] == nodes[n].(children := nodes[n].children + if n == parent then [|nodes|] else []))
  {
  }

  /** A new edge keeps the shape. */
  lemma AddChild(nodes: seq<Node>, lookup: map<(nat, nat), nat>, paths: seq<seq<nat>>, parent: nat, frame: nat)
    requires ShapeOk(nodes, lookup, paths) && parent < |nodes| && (parent, frame) !in lookup
    ensures ShapeOk(WithChild(nodes, parent, frame), lookup[(parent, frame) := |nodes|], paths + [paths[parent] + [frame]])
  {
    hide WithChild, ChildrenOk;
    WithChildIs(nodes, parent, frame);
    var next, more := WithChild(nodes, parent, frame), paths + [paths[parent] + [frame]];
    forall n | 0 <= n < |next| ensures PathOk(next, more, n) {
      assert PathOk(nodes, paths, if n < |nodes| then n else parent);
    }
    forall p | 0 <= p < |next| ensures ChildrenOk(next, p) {
      AddChildLists(nodes, lookup, paths, next, parent, p);
    }
  }

  lemma AddChildLists(nodes: seq<Node>, lookup: map<(nat, nat), nat>, paths: seq<seq<nat>>, next: seq<Node>, parent: nat, p: nat)
    requires ShapeOk(nodes, lookup, paths) && parent < |nodes| && p <= |nodes|
    requires |next| == |nodes| + 1 && next[|nodes|].parent == Some(parent) && next[|nodes|].children == []
    requires forall n :: 0 <= n < |nodes| ==>
      next[n] == nodes[n].(children := nodes[n].children + if n == parent then [|nodes|] else [])
    ensures ChildrenOk(next, p)
  {
    if p < |nodes| {
      assert ChildrenOk(nodes, p);
    } else {
      forall c | 0 <= c < |nodes| ensures nodes[c].parent != Some(p) { assert PathOk(nodes, paths, c); }
    }
  }

  lemma Reweigh(nodes: seq<Node>, next: seq<Node>, lookup: map<(nat, nat), nat>, paths: seq<seq<nat>>)
    requires ShapeOk(nodes, lookup, paths) && |next| == |nodes|
    requires forall n :: 0 <= n < |nodes| ==> next[n] == nodes[n].(inclusive := next[n].inclusive, self := next[n].self)
    ensures ShapeOk(next, lookup, paths)
  {
    forall n | 0 <= n < |next| ensures PathOk(next, paths, n) && ChildrenOk(next, n) {
      assert PathOk(nodes, paths, n) && ChildrenOk(nodes, n);
    }
  }

  lemma {:induction false} ExactBelowPrefix(walks: seq<Walk>, path: seq<nat>)
    ensures ExactWeight(walks, path) <= PrefixWeight(walks, path)
  {
    if walks != [] { ExactBelowPrefix(walks[..|walks| - 1], path); }
  }

  /** A missing edge means a path no earlier walk has taken. */
  lemma FreshPath(nodes: seq<Node>, lookup: map<(nat, nat), nat>, paths: seq<seq<nat>>, parent: nat, frame: nat)
    requires ShapeOk(nodes, lookup, paths) && parent < |nodes| && (parent, frame) !in lookup
    ensures paths[parent] + [frame] !in paths
  {
    hide ChildrenOk;
    forall m | 0 <= m < |paths| ensures paths[m] != paths[parent] + [frame] {
      assert PathOk(nodes, paths, m);
      if m != 0 && paths[m] == paths[parent] + [frame] {
        var p := nodes[m].parent.value;
        assert paths[m][..|paths[parent]|] == paths[parent] && paths[m][..|paths[m]| - 1] == paths[p];
        assert paths[m][|paths[m]| - 1] == frame;
        PathsDistinct(nodes, lookup, paths, p, parent);
      }
    }
  }

  /** A new node starts with nothing and is reached next. */
  lemma AddReaching(nodes: seq<Node>, paths: seq<seq<nat>>, walks: seq<Walk>, w: Walk, d: nat, parent: nat)
    requires Reaching(nodes, paths, walks, w, d) && Knows(paths, walks, w, d)
    requires d < |w.stack| && parent < |paths| && paths[parent] == w.stack[..d]
    requires w.stack[..d + 1] !in paths
    ensures Reaching(WithChild(nodes, parent, w.stack[d]), paths + [w.stack[..d + 1]], walks, w, d)
    ensures forall path :: PrefixWeight(walks, path) > 0 ==> path in paths + [w.stack[..d + 1]]
  {
    hide WithChild;
    WithChildIs(nodes, parent, w.stack[d]);
    ExactBelowPrefix(walks, w.stack[..d + 1]);
  }

  function AddWeight(nodes: seq<Node>, n: nat, value: nat): seq<Node>
    requires n < |nodes|
  {
    nodes[n := nodes[n].(inclusive := SaturatingAdd(nodes[n].inclusive, value))]
  }

  /** Adding the weight at the node of the next prefix reaches one frame further. */
  lemma ReachOne(nodes: seq<Node>, lookup: map<(nat, nat), nat>, paths: seq<seq<nat>>, walks: seq<Walk>, w: Walk, d: nat, n: nat)
    requires ShapeOk(nodes, lookup, paths) && Reaching(nodes, paths, walks, w, d)
    requires d < |w.stack| && n < |nodes| && paths[n] == w.stack[..d + 1]
    ensures Reaching(AddWeight(nodes, n, w.weight), paths, walks, w, d + 1)
  {
    hide ChildrenOk, PrefixWeight, ExactWeight;
    var next := AddWeight(nodes, n, w.weight);
    forall m | 0 <= m < |nodes| && m != n
      ensures (|paths[m]| <= d + 1 && paths[m] <= w.stack) ==> |paths[m]| <= d
    {
      if |paths[m]| == d + 1 && paths[m] <= w.stack {
        assert paths[m] == paths[n];
        PathsDistinct(nodes, lookup, paths, m, n);
      }
    }
  }

  /** The walk has reached node `at` after `d` frames. */
  ghost predicate WalkAt(nodes: seq<Node>, lookup: map<(nat, nat), nat>, paths: seq<seq<nat>>, walks: seq<Walk>, w: Walk, d: nat, at: nat) {
    && ShapeOk(nodes, lookup, paths) && at < |nodes| && d <= |w.stack| && paths[at] == w.stack[..d]
    && Reaching(nodes, paths, walks, w, d) && Knows(paths, walks, w, d)
  }

  /** One frame of a walk: find or make the child, then add the weight. */
  method StepDown(nodes0: seq<Node>, lookup0: map<(nat, nat), nat>, ghost paths0: seq<seq<nat>>, ghost walks: seq<Walk>, w: Walk, d: nat, parent: nat)
    returns (nodes: seq<Node>, lookup: map<(nat, nat), nat>, ghost paths: seq<seq<nat>>, n: nat)
    requires d < |w.stack| && parent < |nodes0| && WalkAt(nodes0, lookup0, paths0, walks, w, d, parent)
    ensures WalkAt(nodes, lookup, paths, walks, w, d + 1, n) && n < |nodes|
  {
    hide PrefixWeight, ExactWeight, ShapeOk, Reaching, Knows;
    nodes, lookup, paths := nodes0, lookup0, paths0;
    ShapeFits(nodes, lookup, paths);
    var frame := w.stack[d];
    assert w.stack[..d + 1] == w.stack[..d] + [frame];
    if (parent, frame) in lookup {
      EdgePath(nodes, lookup, paths, parent, frame);
      n := lookup[(parent, frame)];
    } else {
      FreshPath(nodes, lookup, paths, parent, frame);
      AddChild(nodes, lookup, paths, parent, frame);
      AddReaching(nodes, paths, walks, w, d, parent);
      WithChildIs(nodes, parent, frame);
      KnowsChild(paths, walks, w, d);
      n := |nodes|;
      nodes := WithChild(nodes, parent, frame);
      lookup := lookup[(parent, frame) := n];
      paths := paths + [w.stack[..d + 1]];
    }
    KnowsNext(paths, walks, w, d, n);
    ReachOne(nodes, lookup, paths, walks, w, d, n);
    Reweigh(nodes, AddWeight(nodes, n, w.weight), lookup, paths);
    nodes := AddWeight(nodes, n, w.weight);
  }

  lemma ShapeFits(nodes: seq<Node>, lookup: map<(nat, nat), nat>, paths: seq<seq<nat>>)
    requires ShapeOk(nodes, lookup, paths)
    ensures |nodes| == |paths| > 0
  {
  }

  /** One sample: walk down its stack, making missing nodes and adding its weight on the way. */
  method AddWalk(nodes0: seq<Node>, lookup0: map<(nat, nat), nat>, ghost paths0: seq<seq<nat>>, ghost walks: seq<Walk>, w: Walk)
    returns (nodes: seq<Node>, lookup: map<(nat, nat), nat>, ghost paths: seq<seq<nat>>)
    requires ShapeOk(nodes0, lookup0, paths0) && CountsOk(nodes0, paths0, walks) && Complete(paths0, walks)
    requires |nodes0| > 0 && w.weight > 0
    ensures ShapeOk(nodes, lookup, paths) && CountsOk(nodes, paths, walks + [w]) && Complete(paths, walks + [w])
    ensures |nodes| > 0
  {
    hide PrefixWeight, ExactWeight, ShapeOk, Reaching, Knows, CountsOk, Complete;
    lookup, paths := lookup0, paths0;
    ShapeFits(nodes0, lookup, paths);
    RootKnown(nodes0, lookup0, paths0, walks, w);
    nodes := AddWeight(nodes0, 0, w.weight);
    Reweigh(nodes0, nodes, lookup, paths);
    var parent: nat := 0;
    for d := 0 to |w.stack|
      invariant parent < |nodes| && WalkAt(nodes, lookup, paths, walks, w, d, parent)
    {
      nodes, lookup, paths, parent := StepDown(nodes, lookup, paths, walks, w, d, parent);
    }
    assert w.stack[..|w.stack|] == w.stack;
    WalkDone(nodes, lookup, paths, walks, w, parent);
    ghost var before := nodes;
    nodes := nodes[parent := nodes[parent].(self := SaturatingAdd(nodes[parent].self, w.weight))];
    Reweigh(before, nodes, lookup, paths);
  }

  lemma EdgePath(nodes: seq<Node>, lookup: map<(nat, nat), nat>, paths: seq<seq<nat>>, parent: nat, frame: nat)
    requires ShapeOk(nodes, lookup, paths) && parent < |nodes| && (parent, frame) in lookup
    ensures var n := lookup[(parent, frame)]; 0 < n < |nodes| && paths[n] == paths[parent] + [frame]
  {
    assert PathOk(nodes, paths, lookup[(parent, frame)]);
  }

  lemma RootKnown(nodes: seq<Node>, lookup: map<(nat, nat), nat>, paths: seq<seq<nat>>, walks: seq<Walk>, w: Walk)
    requires |nodes| == |paths| > 0
    requires ShapeOk(nodes, lookup, paths) && CountsOk(nodes, paths, walks) && Complete(paths, walks)
    ensures paths[0] == w.stack[..0] && Knows(paths, walks, w, 0)
    ensures Reaching(AddWeight(nodes, 0, w.weight), paths, walks, w, 0)
  {
    hide ChildrenOk, PrefixWeight, ExactWeight;
    assert PathOk(nodes, paths, 0);
    forall n | 0 < n < |nodes| ensures |paths[n]| > 0 { assert PathOk(nodes, paths, n); }
  }

  lemma KnowsChild(paths: seq<seq<nat>>, walks: seq<Walk>, w: Walk, d: nat)
    requires Knows(paths, walks, w, d) && d < |w.stack|
    ensures Knows(paths + [w.stack[..d + 1]], walks, w, d + 1)
  {
    hide PrefixWeight;
    var more := paths + [w.stack[..d + 1]];
    forall path | PrefixWeight(walks, path) > 0 ensures path in more { assert path in paths; }
    forall k | 0 <= k <= d + 1 ensures w.stack[..k] in more {
      if k <= d { assert w.stack[..k] in paths; } else { assert more[|paths|] == w.stack[..k]; }
    }
  }

  lemma KnowsNext(paths: seq<seq<nat>>, walks: seq<Walk>, w: Walk, d: nat, n: nat)
    requires Knows(paths, walks, w, d) || Knows(paths, walks, w, d + 1)
    requires d < |w.stack| && n < |paths| && paths[n] == w.stack[..d + 1]
    ensures Knows(paths, walks, w, d + 1)
  {
    hide PrefixWeight;
    forall k | 0 <= k <= d + 1 ensures w.stack[..k] in paths {
      if k == d + 1 { assert paths[n] in paths; }
    }
  }

  lemma WeightSnoc(walks: seq<Walk>, w: Walk, path: seq<nat>)
    ensures PrefixWeight(walks + [w], path) == PrefixWeight(walks, path) + if path <= w.stack then w.weight else 0
    ensures ExactWeight(walks + [w], path) == ExactWeight(walks, path) + if path == w.stack then w.weight else 0
  {
    assert (walks + [w])[..|walks|] == walks;
  }

  /** At the end of the stack the walk is fully counted. */
  lemma WalkDone(nodes: seq<Node>, lookup: map<(nat, nat), nat>, paths: seq<seq<nat>>, walks: seq<Walk>, w: Walk, leaf: nat)
    requires ShapeOk(nodes, lookup, paths) && Reaching(nodes, paths, walks, w, |w.stack|)
    requires Knows(paths, walks, w, |w.stack|) && leaf < |nodes| && paths[leaf] == w.stack && w.weight > 0
    ensures CountsOk(nodes[leaf := nodes[leaf].(self := SaturatingAdd(nodes[leaf].self, w.weight))], paths, walks + [w])
    ensures Complete(paths, walks + [w])
  {
    hide ChildrenOk, PrefixWeight, ExactWeight;
    forall n | 0 <= n < |nodes| ensures n != leaf ==> paths[n] != w.stack {
      if paths[n] == w.stack { PathsDistinct(nodes, lookup, paths, n, leaf); }
    }
    forall n | 0 <= n < |nodes|
      ensures PrefixWeight(walks + [w], paths[n]) == PrefixWeight(walks, paths[n]) + if paths[n] <= w.stack then w.weight else 0
      ensures ExactWeight(walks + [w], paths[n]) == ExactWeight(walks, paths[n]) + if n == leaf then w.weight else 0
    {
      WeightSnoc(walks, w, paths[n]);
    }
    forall path | PrefixWeight(walks + [w], path) > 0 ensures path in paths {
      WeightSnoc(walks, w, path);
      if path <= w.stack { assert path == w.stack[..|path|]; }
    }
  }

  /** `CallTree::build_weighted` over the accepted samples in any order. */
  method BuildTree(walks: seq<Walk>)
    returns (nodes: seq<Node>, ghost lookup: map<(nat, nat), nat>, ghost paths: seq<seq<nat>>)
    ensures ShapeOk(nodes, lookup, paths) && CountsOk(nodes, paths, walks) && Complete(paths, walks)
  {
    hide ShapeOk, CountsOk, Complete;
    nodes, paths := [Root()], [[]];
    var edges: map<(nat, nat), nat> := map[];
    EmptyTree();
    for i := 0 to |walks|
      invariant |nodes| > 0
      invariant ShapeOk(nodes, edges, paths) && CountsOk(nodes, paths, walks[..i]) && Complete(paths, walks[..i])
    {
      assert walks[..i + 1] == walks[..i] + [walks[i]];
      if walks[i].weight == 0 {
        WeightlessStep(nodes, paths, walks[..i], walks[i]);
      } else {
        nodes, edges, paths := AddWalk(nodes, edges, paths, walks[..i], walks[i]);
      }
    }
    assert walks[..|walks|] == walks;
    lookup := edges;
  }

  lemma EmptyTree()
    ensures ShapeOk([Root()], map[], [[]]) && CountsOk([Root()], [[]], []) && Complete([[]], [])
  {
    assert PathOk([Root()], [[]], 0);
  }

  lemma WeightlessStep(nodes: seq<Node>, paths: seq<seq<nat>>, walks: seq<Walk>, w: Walk)
    requires CountsOk(nodes, paths, walks) && Complete(paths, walks) && w.weight == 0
    ensures CountsOk(nodes, paths, walks + [w]) && Complete(paths, walks + [w])
  {
    forall path ensures PrefixWeight(walks + [w], path) == PrefixWeight(walks, path)
                     && ExactWeight(walks + [w], path) == ExactWeight(walks, path) {
      WeightSnoc(walks, w, path);
    }
  }

  // ---- the tree read from its nodes ---------------------------------------------------------------------------

  predicate ParentsBelow(nodes: seq<Node>) {
    forall n :: 0 <= n < |nodes| && nodes[n].parent.Some? ==> nodes[n].parent.value < n && nodes[n].frame.Some?
  }

  /** The frames from the root to a node, read by following the parents. */
  function PathOf(nodes: seq<Node>, n: nat): seq<nat>
    requires ParentsBelow(nodes) && n < |nodes|
  {
    if nodes[n].parent.None? then [] else PathOf(nodes, nodes[n].parent.value) + [nodes[n].frame.value]
  }

  /** Each node counts exactly the samples its own path is a prefix of, and those equal to it; each prefix
      that carries weight has exactly one node, and besides these only the root has one. */
  ghost predicate Represents(nodes: seq<Node>, walks: seq<Walk>) {
    && |nodes| > 0 && nodes[0].frame.None? && ParentsBelow(nodes)
    && (forall n :: 0 <= n < |nodes| ==>
          && nodes[n].inclusive == Min(U64_MAX, PrefixWeight(walks, PathOf(nodes, n)))
          && nodes[n].self == Min(U64_MAX, ExactWeight(walks, PathOf(nodes, n)))
          && nodes[n].depth == |PathOf(nodes, n)| && ChildrenOk(nodes, n))
    && (forall a, b :: 0 <= a < b < |nodes| ==> PathOf(nodes, a) != PathOf(nodes, b))
    && (forall path :: PrefixWeight(walks, path) > 0 ==> HasNode(nodes, path))
    && (forall n :: 0 < n < |nodes| ==> PrefixWeight(walks, PathOf(nodes, n)) > 0)
  }

  ghost predicate HasNode(nodes: seq<Node>, path: seq<nat>)
    requires ParentsBelow(nodes)
  {
    exists n :: 0 <= n < |nodes| && PathOf(nodes, n) == path
  }

  lemma {:induction false} PathIs(nodes: seq<Node>, paths: seq<seq<nat>>, n: nat)
    requires PathsOk(nodes, paths) && n < |nodes|
    ensures ParentsBelow(nodes) && PathOf(nodes, n) == paths[n]
  {
    assert ParentsBelow(nodes) by {
      forall m | 0 <= m < |nodes| && nodes[m].parent.Some? ensures nodes[m].parent.value < m && nodes[m].frame.Some? {
        assert PathOk(nodes, paths, m);
      }
    }
    assert PathOk(nodes, paths, n);
    if n > 0 { PathIs(nodes, paths, nodes[n].parent.value); }
  }

  lemma TreeRepresents(nodes: seq<Node>, lookup: map<(nat, nat), nat>, paths: seq<seq<nat>>, walks: seq<Walk>)
    requires ShapeOk(nodes, lookup, paths) && CountsOk(nodes, paths, walks) && Complete(paths, walks)
    ensures Represents(nodes, walks)
  {
    hide PrefixWeight, ExactWeight, ChildrenOk, PathOf, PathOk, LookupOk;
    forall n | 0 <= n < |nodes| ensures ParentsBelow(nodes) && PathOf(nodes, n) == paths[n] && nodes[n].depth == |paths[n]| {
      PathIs(nodes, paths, n);
      DepthIs(nodes, paths, n);
    }
    forall a, b | 0 <= a < b < |nodes| ensures PathOf(nodes, a) != PathOf(nodes, b) {
      if paths[a] == paths[b] { PathsDistinct(nodes, lookup, paths, a, b); }
    }
    RootIs(nodes, paths);
    forall path | PrefixWeight(walks, path) > 0 ensures HasNode(nodes, path) {
      var n :| 0 <= n < |paths| && paths[n] == path;
      assert PathOf(nodes, n) == path;
    }
  }

  lemma DepthIs(nodes: seq<Node>, paths: seq<seq<nat>>, n: nat)
    requires PathsOk(nodes, paths) && n < |nodes|
    ensures nodes[n].depth == |paths[n]|
  {
    assert PathOk(nodes, paths, n);
  }

  lemma RootIs(nodes: seq<Node>, paths: seq<seq<nat>>)
    requires PathsOk(nodes, paths)
    ensures nodes[0].frame.None?
  {
    assert PathOk(nodes, paths, 0);
  }

  /** The paths of the first `k` nodes. */
  function PathsOf(nodes: seq<Node>, k: nat): (r: seq<seq<nat>>)
    requires ParentsBelow(nodes) && k <= |nodes|
    ensures |r| == k && forall n :: 0 <= n < k ==> r[n] == PathOf(nodes, n)
  {
    if k == 0 then [] else PathsOf(nodes, k - 1) + [PathOf(nodes, k - 1)]
  }

  function EdgeOf(node: Node): (nat, nat)
    requires node.parent.Some? && node.frame.Some?
  {
    (node.parent.value, node.frame.value)
  }

  /** Every node but the root has a parent, and no two have the same edge. */
  lemma EdgesDistinct(nodes: seq<Node>, walks: seq<Walk>)
    requires Represents(nodes, walks)
    ensures nodes[0].parent.None?
    ensures forall n :: 0 < n < |nodes| ==> nodes[n].parent.Some? && nodes[n].frame.Some?
    ensures forall a, b :: 0 < a < b < |nodes| ==> EdgeOf(nodes[a]) != EdgeOf(nodes[b])
  {
    hide PrefixWeight, ExactWeight, ChildrenOk;
    forall n | 0 < n < |nodes| ensures nodes[n].parent.Some? && nodes[n].frame.Some? {
      assert PathOf(nodes, 0) != PathOf(nodes, n);
    }
    forall a, b | 0 < a < b < |nodes| ensures EdgeOf(nodes[a]) != EdgeOf(nodes[b]) {
      assert PathOf(nodes, a) != PathOf(nodes, b);
    }
  }

  lemma {:induction false} EdgeMap(nodes: seq<Node>, k: nat) returns (lookup: map<(nat, nat), nat>)
    requires k <= |nodes|
    requires forall n :: 0 < n < |nodes| ==> nodes[n].parent.Some? && nodes[n].frame.Some?
    requires forall a, b :: 0 < a < b < |nodes| ==> EdgeOf(nodes[a]) != EdgeOf(nodes[b])
    ensures forall key :: key in lookup ==> 0 < lookup[key] < k && EdgeOf(nodes[lookup[key]]) == key
    ensures forall n :: 0 < n < k ==> EdgeOf(nodes[n]) in lookup && lookup[EdgeOf(nodes[n])] == n
  {
    if k <= 1 {
      lookup := map[];
    } else {
      var before := EdgeMap(nodes, k - 1);
      lookup := before[EdgeOf(nodes[k - 1]) := k - 1];
    }
  }

  lemma PathsOfNodes(nodes: seq<Node>, walks: seq<Walk>)
    requires Represents(nodes, walks)
    ensures PathsOk(nodes, PathsOf(nodes, |nodes|)) && CountsOk(nodes, PathsOf(nodes, |nodes|), walks)
  {
    hide PrefixWeight, ExactWeight, ChildrenOk, PathOf, PathsOf, HasNode;
    EdgesDistinct(nodes, walks);
    var paths := PathsOf(nodes, |nodes|);
    forall n | 0 <= n < |nodes| ensures PathOk(nodes, paths, n) {
      PathStep(nodes, n);
      assert paths[n] == PathOf(nodes, n);
    }
  }

  lemma CompleteOfNodes(nodes: seq<Node>, walks: seq<Walk>)
    requires Represents(nodes, walks)
    ensures Complete(PathsOf(nodes, |nodes|), walks)
  {
    hide PrefixWeight, ExactWeight, ChildrenOk, PathOf, PathsOf;
    var paths := PathsOf(nodes, |nodes|);
    forall path | PrefixWeight(walks, path) > 0 ensures path in paths {
      assert HasNode(nodes, path);
      var n :| 0 <= n < |nodes| && PathOf(nodes, n) == path;
      assert paths[n] == path;
    }
  }

  /** What the nodes say of themselves is what the building loop kept. */
  lemma ShapeOfNodes(nodes: seq<Node>, walks: seq<Walk>) returns (lookup: map<(nat, nat), nat>)
    requires Represents(nodes, walks)
    ensures var paths := PathsOf(nodes, |nodes|);
      ShapeOk(nodes, lookup, paths) && CountsOk(nodes, paths, walks) && Complete(paths, walks)
  {
    hide PrefixWeight, ExactWeight, ChildrenOk, PathOf, PathsOf, PathsOk, CountsOk, Complete, HasNode;
    PathsOfNodes(nodes, walks);
    CompleteOfNodes(nodes, walks);
    EdgesDistinct(nodes, walks);
    lookup := EdgeMap(nodes, |nodes|);
    assert LookupOk(nodes, lookup);
  }

  lemma PathStep(nodes: seq<Node>, n: nat)
    requires ParentsBelow(nodes) && n < |nodes|
    ensures PathOf(nodes, n)
         == if nodes[n].parent.None? then [] else PathOf(nodes, nodes[n].parent.value) + [nodes[n].frame.value]
  {
  }

  /** The tree as its caller sees it. */
  method Build(walks: seq<Walk>) returns (nodes: seq<Node>)
    ensures Represents(nodes, walks)
  {
    ghost var lookup, paths;
    nodes, lookup, paths := BuildTree(walks);
    TreeRepresents(nodes, lookup, paths, walks);
  }
}
