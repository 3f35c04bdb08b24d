/** Per-function sample counts, and their agreement with the call tree. */
module FunctionTable {
  import opened Basics
  import opened CallTree

  // ---- counts -------------------------------------------------------------------------------------------------

  /** Samples whose stack contains the function anywhere, each counted once. */
  function Containing(stacks: seq<seq<nat>>, f: nat): nat {
    if stacks == [] then 0
    else Containing(stacks[..|stacks| - 1], f) + if f in stacks[|stacks| - 1] then 1 else 0
  }

  predicate EndsIn(stack: seq<nat>, f: nat) { |stack| > 0 && stack[|stack| - 1] == f }

  /** Samples whose innermost frame is the function. */
  function Ending(stacks: seq<seq<nat>>, f: nat): nat {
    if stacks == [] then 0
    else Ending(stacks[..|stacks| - 1], f) + if EndsIn(stacks[|stacks| - 1], f) then 1 else 0
  }

  /** The frames of a stack without repetition, as sorting and deduplicating leaves them. */
  function Distinct(stack: seq<nat>): (d: seq<nat>)
    ensures forall f :: f in d <==> f in stack
    ensures forall a, b :: 0 <= a < b < |d| ==> d[a] != d[b]
  {
    if stack == [] then []
    else if stack[0] in stack[1..] then Distinct(stack[1..])
    else [stack[0]] + Distinct(stack[1..])
  }

  function Entry(m: map<nat, nat>, f: nat): nat { if f in m then m[f] else 0 }

  /** A count map: exactly the counted keys, each with a positive count. */
  ghost predicate CountsContaining(m: map<nat, nat>, stacks: seq<seq<nat>>) {
    forall f: nat :: Entry(m, f) == Containing(stacks, f) && (f in m <==> Containing(stacks, f) > 0)
  }

  ghost predicate CountsEnding(m: map<nat, nat>, stacks: seq<seq<nat>>) {
    forall f: nat :: Entry(m, f) == Ending(stacks, f) && (f in m <==> Ending(stacks, f) > 0)
  }

  /** The counting loops of `FunctionAnalysis::build`. */
  method BuildFunctions(stacks: seq<seq<nat>>)
    returns (total: nat, inclusive: map<nat, nat>, self: map<nat, nat>)
    ensures total == Min(U64_MAX, |stacks|)
    ensures CountsContaining(inclusive, stacks) && CountsEnding(self, stacks)
  {
    total, inclusive, self := 0, map[], map[];
    for i := 0 to |stacks|
      invariant total == Min(U64_MAX, i)
      invariant CountsContaining(inclusive, stacks[..i]) && CountsEnding(self, stacks[..i])
    {
      var stack := stacks[i];
      CountSnoc(stacks[..i], stack);
      assert stacks[..i + 1] == stacks[..i] + [stack];
      total := SaturatingAdd(total, 1);
      inclusive := CountFrames(inclusive, stacks[..i], stack);
      if |stack| > 0 {
        var leaf := stack[|stack| - 1];
        self := self[leaf := Entry(self, leaf) + 1];
      }
    }
    assert stacks[..|stacks|] == stacks;
  }

  method CountFrames(before: map<nat, nat>, ghost done: seq<seq<nat>>, stack: seq<nat>) returns (m: map<nat, nat>)
    requires CountsContaining(before, done)
    ensures CountsContaining(m, done + [stack])
  {
    m := before;
    var unique := Distinct(stack);
    for k := 0 to |unique|
      invariant forall f: nat :: Entry(m, f) == Containing(done, f) + if f in unique[..k] then 1 else 0
      invariant forall f: nat :: f in m <==> Entry(m, f) > 0
    {
      assert unique[..k + 1] == unique[..k] + [unique[k]];
      m := m[unique[k] := Entry(m, unique[k]) + 1];
    }
    assert unique[..|unique|] == unique;
    CountSnoc(done, stack);
  }

  lemma CountSnoc(stacks: seq<seq<nat>>, stack: seq<nat>)
    ensures forall f: nat :: Containing(stacks + [stack], f) == Containing(stacks, f) + if f in stack then 1 else 0
    ensures forall f: nat :: Ending(stacks + [stack], f) == Ending(stacks, f) + if EndsIn(stack, f) then 1 else 0
  {
    assert (stacks + [stack])[..|stacks|] == stacks;
  }

  // ---- sums over nodes ----------------------------------------------------------------------------------------

  ghost function SumPrefix(walks: seq<Walk>, list: seq<seq<nat>>): nat {
    if list == [] then 0 else PrefixWeight(walks, list[0]) + SumPrefix(walks, list[1..])
  }

  ghost function SumExact(walks: seq<Walk>, list: seq<seq<nat>>): nat {
    if list == [] then 0 else ExactWeight(walks, list[0]) + SumExact(walks, list[1..])
  }

  /** At most one listed path starts the stack. */
  ghost predicate OneHit(list: seq<seq<nat>>, stack: seq<nat>) {
    forall a, b :: 0 <= a < b < |list| ==> !(list[a] <= stack && list[b] <= stack)
  }

  ghost predicate Hit(list: seq<seq<nat>>, stack: seq<nat>) {
    exists k :: 0 <= k < |list| && list[k] <= stack
  }

  lemma {:induction false} SumPrefixSnoc(walks: seq<Walk>, w: Walk, list: seq<seq<nat>>)
    requires OneHit(list, w.stack)
    ensures SumPrefix(walks + [w], list) == SumPrefix(walks, list) + if Hit(list, w.stack) then w.weight else 0
  {
    hide PrefixWeight, ExactWeight;
    if list != [] {
      WeightSnoc(walks, w, list[0]);
      var rest := list[1..];
      assert forall k :: 0 <= k < |rest| ==> rest[k] == list[k + 1];
      SumPrefixSnoc(walks, w, rest);
      if Hit(rest, w.stack) {
        var k :| 0 <= k < |rest| && rest[k] <= w.stack;
        assert list[k + 1] <= w.stack;
      }
    }
  }

  ghost predicate NoRepeat(list: seq<seq<nat>>) {
    forall a, b :: 0 <= a < b < |list| ==> list[a] != list[b]
  }

  lemma {:induction false} SumExactSnoc(walks: seq<Walk>, w: Walk, list: seq<seq<nat>>)
    requires NoRepeat(list)
    ensures SumExact(walks + [w], list) == SumExact(walks, list) + if w.stack in list then w.weight else 0
  {
    hide PrefixWeight, ExactWeight;
    if list != [] {
      WeightSnoc(walks, w, list[0]);
      SumExactSnoc(walks, w, list[1..]);
      assert list == [list[0]] + list[1..];
      assert list[0] !in list[1..];
    }
  }

  lemma {:induction false} SumOfNothing(list: seq<seq<nat>>)
    ensures SumPrefix([], list) == 0 && SumExact([], list) == 0
  {
    if list != [] { SumOfNothing(list[1..]); }
  }

  // ---- balance ------------------------------------------------------------------------------------------------

  /** Every prefix of every weighty walk is among the paths. */
  ghost predicate Closed(walks: seq<Walk>, paths: seq<seq<nat>>) {
    forall i :: 0 <= i < |walks| && walks[i].weight > 0 ==>
      forall k :: 0 <= k <= |walks[i].stack| ==> walks[i].stack[..k] in paths
  }

  lemma {:induction false} WeightAtLeast(walks: seq<Walk>, i: nat, path: seq<nat>)
    requires i < |walks| && path <= walks[i].stack
    ensures PrefixWeight(walks, path) >= walks[i].weight
  {
    if i < |walks| - 1 { WeightAtLeast(walks[..|walks| - 1], i, path); }
  }

  lemma CompleteIsClosed(walks: seq<Walk>, paths: seq<seq<nat>>)
    requires Complete(paths, walks)
    ensures Closed(walks, paths)
  {
    forall i | 0 <= i < |walks| && walks[i].weight > 0
      ensures forall k :: 0 <= k <= |walks[i].stack| ==> walks[i].stack[..k] in paths
    {
      forall k | 0 <= k <= |walks[i].stack| ensures walks[i].stack[..k] in paths {
        WeightAtLeast(walks, i, walks[i].stack[..k]);
      }
    }
  }

  /** The paths of the listed nodes. */
  ghost function PathsAt(paths: seq<seq<nat>>, list: seq<nat>): (r: seq<seq<nat>>)
    requires forall k :: 0 <= k < |list| ==> list[k] < |paths|
    ensures |r| == |list| && forall k :: 0 <= k < |list| ==> r[k] == paths[list[k]]
  {
    if list == [] then [] else [paths[list[0]]] + PathsAt(paths, list[1..])
  }

  ghost function ChildPaths(nodes: seq<Node>, paths: seq<seq<nat>>, n: nat): seq<seq<nat>>
    requires n < |nodes| == |paths| && ChildrenOk(nodes, n)
  {
    PathsAt(paths, nodes[n].children)
  }

  /** A walk through a node ends there or goes on to exactly one child. */
  lemma OneChild(nodes: seq<Node>, lookup: map<(nat, nat), nat>, paths: seq<seq<nat>>, n: nat, w: Walk)
    requires ShapeOk(nodes, lookup, paths) && n < |nodes| && ChildrenOk(nodes, n) && w.weight > 0
    requires forall k :: 0 <= k <= |w.stack| ==> w.stack[..k] in paths
    ensures var list := ChildPaths(nodes, paths, n);
      OneHit(list, w.stack) && (Hit(list, w.stack) <==> paths[n] <= w.stack && paths[n] != w.stack)
  {
    var list := ChildPaths(nodes, paths, n);
    forall k | 0 <= k < |list| ensures |list[k]| == |paths[n]| + 1 && paths[n] <= list[k] {
      var c := nodes[n].children[k];
      assert c in nodes[n].children;
      assert PathOk(nodes, paths, c);
    }
    forall a, b | 0 <= a < b < |list| && list[a] <= w.stack && list[b] <= w.stack ensures false {
      PathsDistinct(nodes, lookup, paths, nodes[n].children[a], nodes[n].children[b]);
    }
    if paths[n] <= w.stack && paths[n] != w.stack {
      var k := |paths[n]|;
      var next := w.stack[..k + 1];
      assert next in paths;
      var c :| 0 <= c < |paths| && paths[c] == next;
      assert PathOk(nodes, paths, c);
      var p := nodes[c].parent.value;
      assert paths[c][..k] == paths[n] && paths[c][..|paths[c]| - 1] == paths[p];
      PathsDistinct(nodes, lookup, paths, p, n);
      assert c in nodes[n].children;
      var m :| 0 <= m < |nodes[n].children| && nodes[n].children[m] == c;
      assert list[m] <= w.stack;
    }
  }

  /** Conservation at every node: what passes through a node either ends there or enters one child. */
  lemma {:induction false} TreeBalance(walks: seq<Walk>, nodes: seq<Node>, lookup: map<(nat, nat), nat>, paths: seq<seq<nat>>, n: nat)
    requires ShapeOk(nodes, lookup, paths) && Closed(walks, paths) && n < |nodes| && ChildrenOk(nodes, n)
    ensures PrefixWeight(walks, paths[n]) == ExactWeight(walks, paths[n]) + SumPrefix(walks, ChildPaths(nodes, paths, n))
  {
    hide ShapeOk, ChildrenOk;
    ShapeFits(nodes, lookup, paths);
    var list := ChildPaths(nodes, paths, n);
    if walks == [] {
      SumOfNothing(list);
    } else {
      var before, w := walks[..|walks| - 1], walks[|walks| - 1];
      assert walks == before + [w];
      assert Closed(before, paths) by {
        forall i | 0 <= i < |before| && before[i].weight > 0
          ensures forall k :: 0 <= k <= |before[i].stack| ==> before[i].stack[..k] in paths
        {
          assert before[i] == walks[i];
        }
      }
      TreeBalance(before, nodes, lookup, paths, n);
      if w.weight > 0 {
        OneChild(nodes, lookup, paths, n, w);
        SumPrefixSnoc(before, w, list);
      } else {
        SumWeightless(before, w, list);
      }
    }
  }

  lemma {:induction false} SumWeightless(walks: seq<Walk>, w: Walk, list: seq<seq<nat>>)
    requires w.weight == 0
    ensures SumPrefix(walks + [w], list) == SumPrefix(walks, list)
  {
    if list != [] {
      WeightSnoc(walks, w, list[0]);
      SumWeightless(walks, w, list[1..]);
    }
  }

  // ---- the table and the tree agree ---------------------------------------------------------------------------

  function Reversed(stack: seq<nat>): seq<nat> {
    if stack == [] then [] else Reversed(stack[1..]) + [stack[0]]
  }

  lemma {:induction false} ReversedEnds(stack: seq<nat>)
    ensures |Reversed(stack)| == |stack|
    ensures stack != [] ==> Reversed(stack)[0] == stack[|stack| - 1]
  {
    if stack != [] { ReversedEnds(stack[1..]); }
  }

  /** The samples as the tree walks them with unit weights, outermost or innermost frame first. */
  function UnitWalks(stacks: seq<seq<nat>>, inverted: bool): seq<Walk> {
    if stacks == [] then []
    else
      var stack := stacks[|stacks| - 1];
      UnitWalks(stacks[..|stacks| - 1], inverted) + [Walk(if inverted then Reversed(stack) else stack, 1)]
  }

  lemma {:induction false} UnitWalksAt(stacks: seq<seq<nat>>, inverted: bool)
    ensures |UnitWalks(stacks, inverted)| == |stacks|
    ensures forall i :: 0 <= i < |stacks| ==>
      UnitWalks(stacks, inverted)[i] == Walk(if inverted then Reversed(stacks[i]) else stacks[i], 1)
  {
    if stacks != [] { UnitWalksAt(stacks[..|stacks| - 1], inverted); }
  }

  /** The path ends in `f` and visits it nowhere before: recursion is counted at its outermost call. */
  predicate Outermost(path: seq<nat>, f: nat) {
    EndsIn(path, f) && f !in path[..|path| - 1]
  }

  function OutermostPaths(paths: seq<seq<nat>>, f: nat): seq<seq<nat>> {
    if paths == [] then [] else (if Outermost(paths[0], f) then [paths[0]] else []) + OutermostPaths(paths[1..], f)
  }

  function EndingPaths(paths: seq<seq<nat>>, f: nat): seq<seq<nat>> {
    if paths == [] then [] else (if EndsIn(paths[0], f) then [paths[0]] else []) + EndingPaths(paths[1..], f)
  }

  lemma {:induction false} OutermostExact(paths: seq<seq<nat>>, f: nat)
    requires NoRepeat(paths)
    ensures forall p :: p in OutermostPaths(paths, f) <==> p in paths && Outermost(p, f)
    ensures NoRepeat(OutermostPaths(paths, f))
  {
    if paths != [] {
      assert paths == [paths[0]] + paths[1..] && paths[0] !in paths[1..];
      assert NoRepeat(paths[1..]);
      OutermostExact(paths[1..], f);
    }
  }

  lemma {:induction false} EndingExact(paths: seq<seq<nat>>, f: nat)
    requires NoRepeat(paths)
    ensures forall p :: p in EndingPaths(paths, f) <==> p in paths && EndsIn(p, f)
    ensures NoRepeat(EndingPaths(paths, f))
  {
    if paths != [] {
      assert paths == [paths[0]] + paths[1..] && paths[0] !in paths[1..];
      assert NoRepeat(paths[1..]);
      EndingExact(paths[1..], f);
    }
  }

  /** Where a frame first occurs. */
  function FirstOf(stack: seq<nat>, f: nat): (k: nat)
    requires f in stack
    ensures k < |stack| && stack[k] == f && f !in stack[..k]
  {
    if stack[0] == f then 0 else
      var k := FirstOf(stack[1..], f);
      assert stack[..k + 1] == [stack[0]] + stack[1..][..k];
      k + 1
  }

  /** A prefix that is outermost for `f` ends where `f` first occurs. */
  lemma OutermostAtFirst(path: seq<nat>, stack: seq<nat>, f: nat)
    requires path <= stack && Outermost(path, f)
    ensures f in stack && path == stack[..FirstOf(stack, f) + 1]
  {
    var n := |path| - 1;
    assert stack[n] == f;
    var k := FirstOf(stack, f);
    assert forall i :: 0 <= i < n ==> stack[i] == path[..n][i];
    assert forall i :: 0 <= i < k ==> stack[i] == stack[..k][i];
  }

  /** A sample passes through exactly one outermost node of each function it contains. */
  lemma OneOutermost(paths: seq<seq<nat>>, stack: seq<nat>, f: nat)
    requires NoRepeat(paths) && forall k :: 0 <= k <= |stack| ==> stack[..k] in paths
    ensures var list := OutermostPaths(paths, f); OneHit(list, stack) && (Hit(list, stack) <==> f in stack)
  {
    hide OutermostPaths;
    OutermostExact(paths, f);
    var list := OutermostPaths(paths, f);
    forall k | 0 <= k < |list| && list[k] <= stack ensures f in stack && list[k] == stack[..FirstOf(stack, f) + 1] {
      assert list[k] in list;
      OutermostAtFirst(list[k], stack, f);
    }
    if f in stack {
      var k := FirstOf(stack, f);
      var p := stack[..k + 1];
      assert p[..k] == stack[..k] && p in paths && Outermost(p, f) && p in list;
      var m :| 0 <= m < |list| && list[m] == p;
    }
  }

  /** A function's inclusive count is the sum of the weights of its outermost nodes. */
  lemma {:induction false} InclusiveAgrees(stacks: seq<seq<nat>>, paths: seq<seq<nat>>, f: nat)
    requires NoRepeat(paths) && Closed(UnitWalks(stacks, false), paths)
    ensures SumPrefix(UnitWalks(stacks, false), OutermostPaths(paths, f)) == Containing(stacks, f)
  {
    var list := OutermostPaths(paths, f);
    if stacks == [] {
      SumOfNothing(list);
    } else {
      var before, stack := stacks[..|stacks| - 1], stacks[|stacks| - 1];
      ClosedSplit(stacks, false, paths);
      InclusiveAgrees(before, paths, f);
      OneOutermost(paths, stack, f);
      SumPrefixSnoc(UnitWalks(before, false), Walk(stack, 1), list);
    }
  }

  lemma ClosedSplit(stacks: seq<seq<nat>>, inverted: bool, paths: seq<seq<nat>>)
    requires stacks != [] && Closed(UnitWalks(stacks, inverted), paths)
    ensures var stack := stacks[|stacks| - 1];
      var walked := if inverted then Reversed(stack) else stack;
      && Closed(UnitWalks(stacks[..|stacks| - 1], inverted), paths)
      && forall k :: 0 <= k <= |walked| ==> walked[..k] in paths
  {
    var before := UnitWalks(stacks[..|stacks| - 1], inverted);
    var walks := UnitWalks(stacks, inverted);
    assert walks[|walks| - 1].weight == 1;
    forall i | 0 <= i < |before| && before[i].weight > 0
      ensures forall k :: 0 <= k <= |before[i].stack| ==> before[i].stack[..k] in paths
    {
      assert before[i] == walks[i];
    }
  }

  /** A function's self count is the sum of the exact weights of its nodes. */
  lemma {:induction false} SelfAgrees(stacks: seq<seq<nat>>, paths: seq<seq<nat>>, f: nat)
    requires NoRepeat(paths) && Closed(UnitWalks(stacks, false), paths)
    ensures SumExact(UnitWalks(stacks, false), EndingPaths(paths, f)) == Ending(stacks, f)
  {
    hide EndingPaths;
    var list := EndingPaths(paths, f);
    if stacks == [] {
      SumOfNothing(list);
    } else {
      var before, stack := stacks[..|stacks| - 1], stacks[|stacks| - 1];
      ClosedSplit(stacks, false, paths);
      SelfAgrees(before, paths, f);
      EndingExact(paths, f);
      assert stack[..|stack|] == stack;
      SumExactSnoc(UnitWalks(before, false), Walk(stack, 1), list);
    }
  }

  /** The same self count is the weight of the depth-one node of the inverted tree. */
  lemma {:induction false} InvertedAgrees(stacks: seq<seq<nat>>, f: nat)
    ensures PrefixWeight(UnitWalks(stacks, true), [f]) == Ending(stacks, f)
  {
    if stacks != [] {
      var before, stack := stacks[..|stacks| - 1], stacks[|stacks| - 1];
      InvertedAgrees(before, f);
      ReversedEnds(stack);
      WeightSnoc(UnitWalks(before, true), Walk(Reversed(stack), 1), [f]);
    }
  }

  /** Counts do not depend on the order of the samples, which the tree sorts first. */
  lemma {:induction false} CountsPermute(a: seq<seq<nat>>, b: seq<seq<nat>>, f: nat)
    requires multiset(a) == multiset(b)
    ensures Containing(a, f) == Containing(b, f) && Ending(a, f) == Ending(b, f)
    decreases |a|
  {
    if a == [] {
      assert |multiset(b)| == 0;
    } else {
      var x, front := a[|a| - 1], a[..|a| - 1];
      var left, right := RemoveOne(front, x, a, b);
      CountsPermute(front, left + right, f);
      CountInsert(left, x, right, f);
      CountSnoc(front, x);
    }
  }

  /** Taking the last sample out of both arrangements leaves arrangements of the same samples. */
  lemma RemoveOne(front: seq<seq<nat>>, x: seq<nat>, a: seq<seq<nat>>, b: seq<seq<nat>>)
    returns (left: seq<seq<nat>>, right: seq<seq<nat>>)
    requires a != [] && front == a[..|a| - 1] && x == a[|a| - 1] && multiset(a) == multiset(b)
    ensures b == left + [x] + right && a == front + [x] && multiset(front) == multiset(left + right)
  {
    assert a == front + [x];
    assert x in multiset(b);
    var i :| 0 <= i < |b| && b[i] == x;
    left, right := b[..i], b[i + 1..];
    assert b == left + [x] + right;
    SplitBag(left, x, right);
    Cancel(multiset(front), multiset(left + right), x);
  }

  lemma SplitBag<T>(left: seq<T>, x: T, right: seq<T>)
    ensures multiset(left + [x] + right) == multiset(left + right) + multiset{x}
  {
    assert multiset(left + [x] + right) == multiset(left + [x]) + multiset(right);
  }

  lemma Cancel<T>(m: multiset<T>, n: multiset<T>, x: T)
    requires m + multiset{x} == n + multiset{x}
    ensures m == n
  {
    assert m == m + multiset{x} - multiset{x};
    assert n == n + multiset{x} - multiset{x};
  }

  lemma {:induction false} CountInsert(left: seq<seq<nat>>, x: seq<nat>, right: seq<seq<nat>>, f: nat)
    ensures Containing(left + [x] + right, f) == Containing(left + right, f) + if f in x then 1 else 0
    ensures Ending(left + [x] + right, f) == Ending(left + right, f) + if EndsIn(x, f) then 1 else 0
  {
    if right == [] {
      assert left + [x] + right == left + [x] && left + right == left;
      CountSnoc(left, x);
    } else {
      var front, last := right[..|right| - 1], right[|right| - 1];
      CountInsert(left, x, front, f);
      assert left + [x] + right == left + [x] + front + [last] && left + right == left + front + [last];
      CountSnoc(left + [x] + front, last);
      CountSnoc(left + front, last);
    }
  }

  /** Everything at once: for any accepted samples, whatever order the tree and the table read them in. */
  lemma TableAndTreeAgree(stacks: seq<seq<nat>>, sorted: seq<seq<nat>>, nodes: seq<Node>,
                          lookup: map<(nat, nat), nat>, paths: seq<seq<nat>>, f: nat)
    requires multiset(sorted) == multiset(stacks)
    requires ShapeOk(nodes, lookup, paths) && Complete(paths, UnitWalks(sorted, false))
    ensures Containing(stacks, f) == SumPrefix(UnitWalks(sorted, false), OutermostPaths(paths, f))
    ensures Ending(stacks, f) == SumExact(UnitWalks(sorted, false), EndingPaths(paths, f))
    ensures Ending(stacks, f) == PrefixWeight(UnitWalks(sorted, true), [f])
  {
    CompleteIsClosed(UnitWalks(sorted, false), paths);
    ShapeFits(nodes, lookup, paths);
    forall a, b | 0 <= a < b < |paths| ensures paths[a] != paths[b] {
      if paths[a] == paths[b] { PathsDistinct(nodes, lookup, paths, a, b); }
    }
    CountsPermute(sorted, stacks, f);
    InclusiveAgrees(sorted, paths, f);
    SelfAgrees(sorted, paths, f);
    InvertedAgrees(sorted, f);
  }

  // ---- the same, read off the nodes -----------------------------------------------------------------------------

  lemma {:induction false} PrefixAtMostTotal(walks: seq<Walk>, path: seq<nat>)
    ensures ExactWeight(walks, path) <= PrefixWeight(walks, path) <= PrefixWeight(walks, [])
  {
    if walks != [] { PrefixAtMostTotal(walks[..|walks| - 1], path); }
  }

  /** Without overflow a node's fields are the plain weights. */
  lemma PlainCounts(walks: seq<Walk>, nodes: seq<Node>, paths: seq<seq<nat>>)
    requires CountsOk(nodes, paths, walks) && PrefixWeight(walks, []) <= U64_MAX
    ensures forall n :: 0 <= n < |nodes| ==>
      nodes[n].inclusive == PrefixWeight(walks, paths[n]) && nodes[n].self == ExactWeight(walks, paths[n])
  {
    forall n | 0 <= n < |nodes|
      ensures nodes[n].inclusive == PrefixWeight(walks, paths[n]) && nodes[n].self == ExactWeight(walks, paths[n])
    {
      PrefixAtMostTotal(walks, paths[n]);
    }
  }

  ghost function InclusiveOf(nodes: seq<Node>, list: seq<nat>): nat
    requires forall k :: 0 <= k < |list| ==> list[k] < |nodes|
  {
    if list == [] then 0 else nodes[list[0]].inclusive + InclusiveOf(nodes, list[1..])
  }

  lemma {:induction false} InclusiveIsPrefix(walks: seq<Walk>, nodes: seq<Node>, paths: seq<seq<nat>>, list: seq<nat>)
    requires |nodes| == |paths| && forall k :: 0 <= k < |list| ==> list[k] < |nodes|
    requires forall n :: 0 <= n < |nodes| ==> nodes[n].inclusive == PrefixWeight(walks, paths[n])
    ensures InclusiveOf(nodes, list) == SumPrefix(walks, PathsAt(paths, list))
  {
    if list != [] {
      InclusiveIsPrefix(walks, nodes, paths, list[1..]);
      assert PathsAt(paths, list)[1..] == PathsAt(paths, list[1..]);
    }
  }

  /** Without overflow every node shows its self samples plus those of its children. */
  lemma ShapeBalance(walks: seq<Walk>, nodes: seq<Node>, lookup: map<(nat, nat), nat>, paths: seq<seq<nat>>, n: nat)
    requires ShapeOk(nodes, lookup, paths) && CountsOk(nodes, paths, walks) && Complete(paths, walks)
    requires PrefixWeight(walks, []) <= U64_MAX && n < |nodes| && ChildrenOk(nodes, n)
    ensures nodes[n].inclusive == nodes[n].self + InclusiveOf(nodes, nodes[n].children)
  {
    hide ShapeOk, Complete;
    PlainCounts(walks, nodes, paths);
    CompleteIsClosed(walks, paths);
    TreeBalance(walks, nodes, lookup, paths, n);
    InclusiveIsPrefix(walks, nodes, paths, nodes[n].children);
  }

  /** At every node the inclusive count is the self count and the children's inclusive counts, as long as the
      total weight fits a word. */
  lemma NodeBalance(walks: seq<Walk>, nodes: seq<Node>, n: nat)
    requires Represents(nodes, walks) && PrefixWeight(walks, []) <= U64_MAX && n < |nodes|
    ensures ChildrenOk(nodes, n) && nodes[n].inclusive == nodes[n].self + InclusiveOf(nodes, nodes[n].children)
  {
    hide PrefixWeight, CountsOk, Complete, PathOf;
    var lookup := ShapeOfNodes(nodes, walks);
    ShapeBalance(walks, nodes, lookup, PathsOf(nodes, |nodes|), n);
  }

  /** The outermost nodes of a function. */
  ghost function OutermostTotal(nodes: seq<Node>, paths: seq<seq<nat>>, f: nat): nat
    requires |nodes| == |paths|
  {
    if nodes == [] then 0
    else (if Outermost(paths[0], f) then nodes[0].inclusive else 0) + OutermostTotal(nodes[1..], paths[1..], f)
  }

  lemma {:induction false} OutermostTotalIs(walks: seq<Walk>, nodes: seq<Node>, paths: seq<seq<nat>>, f: nat)
    requires |nodes| == |paths|
    requires forall n :: 0 <= n < |nodes| ==> nodes[n].inclusive == PrefixWeight(walks, paths[n])
    ensures OutermostTotal(nodes, paths, f) == SumPrefix(walks, OutermostPaths(paths, f))
  {
    if nodes != [] {
      OutermostTotalIs(walks, nodes[1..], paths[1..], f);
      var rest := OutermostPaths(paths[1..], f);
      if Outermost(paths[0], f) {
        assert ([paths[0]] + rest)[1..] == rest;
      } else {
        assert [] + rest == rest;
      }
    }
  }

  /** The self counts of all nodes of a function. */
  ghost function SelfTotal(nodes: seq<Node>, paths: seq<seq<nat>>, f: nat): nat
    requires |nodes| == |paths|
  {
    if nodes == [] then 0
    else (if EndsIn(paths[0], f) then nodes[0].self else 0) + SelfTotal(nodes[1..], paths[1..], f)
  }

  lemma {:induction false} SelfTotalIs(walks: seq<Walk>, nodes: seq<Node>, paths: seq<seq<nat>>, f: nat)
    requires |nodes| == |paths|
    requires forall n :: 0 <= n < |nodes| ==> nodes[n].self == ExactWeight(walks, paths[n])
    ensures SelfTotal(nodes, paths, f) == SumExact(walks, EndingPaths(paths, f))
  {
    if nodes != [] {
      SelfTotalIs(walks, nodes[1..], paths[1..], f);
      var rest := EndingPaths(paths[1..], f);
      if EndsIn(paths[0], f) {
        assert ([paths[0]] + rest)[1..] == rest;
      } else {
        assert [] + rest == rest;
      }
    }
  }

  lemma {:induction false} UnitTotal(stacks: seq<seq<nat>>, inverted: bool)
    ensures PrefixWeight(UnitWalks(stacks, inverted), []) == |stacks|
  {
    if stacks != [] {
      var before := UnitWalks(stacks[..|stacks| - 1], inverted);
      UnitTotal(stacks[..|stacks| - 1], inverted);
      WeightSnoc(before, UnitWalks(stacks, inverted)[|UnitWalks(stacks, inverted)| - 1], []);
    }
  }

  lemma ShapeShowsTable(stacks: seq<seq<nat>>, sorted: seq<seq<nat>>, nodes: seq<Node>,
                       lookup: map<(nat, nat), nat>, paths: seq<seq<nat>>,
                       inverted: seq<Node>, invertedPaths: seq<seq<nat>>, f: nat)
    requires multiset(sorted) == multiset(stacks) && |sorted| <= U64_MAX
    requires ShapeOk(nodes, lookup, paths)
    requires CountsOk(nodes, paths, UnitWalks(sorted, false)) && Complete(paths, UnitWalks(sorted, false))
    requires CountsOk(inverted, invertedPaths, UnitWalks(sorted, true)) && Complete(invertedPaths, UnitWalks(sorted, true))
    ensures |nodes| == |paths| && Containing(stacks, f) == OutermostTotal(nodes, paths, f)
    ensures Ending(stacks, f) == SelfTotal(nodes, paths, f)
    ensures forall n :: 0 <= n < |inverted| && invertedPaths[n] == [f] ==> inverted[n].inclusive == Ending(stacks, f)
    ensures Ending(stacks, f) > 0 ==> [f] in invertedPaths
  {
    hide ShapeOk;
    TableAndTreeAgree(stacks, sorted, nodes, lookup, paths, f);
    UnitTotal(sorted, false);
    UnitTotal(sorted, true);
    PlainCounts(UnitWalks(sorted, false), nodes, paths);
    PlainCounts(UnitWalks(sorted, true), inverted, invertedPaths);
    OutermostTotalIs(UnitWalks(sorted, false), nodes, paths, f);
    SelfTotalIs(UnitWalks(sorted, false), nodes, paths, f);
  }

  lemma ParentsOf(nodes: seq<Node>, walks: seq<Walk>)
    requires Represents(nodes, walks)
    ensures ParentsBelow(nodes)
  {
  }

  /** A depth-one node read from the tree is one in the listing of paths. */
  lemma DepthOne(nodes: seq<Node>, f: nat, value: nat)
    requires ParentsBelow(nodes)
    requires var paths := PathsOf(nodes, |nodes|);
      forall n :: 0 <= n < |nodes| && paths[n] == [f] ==> nodes[n].inclusive == value
    ensures forall n :: 0 <= n < |nodes| && PathOf(nodes, n) == [f] ==> nodes[n].inclusive == value
    ensures [f] in PathsOf(nodes, |nodes|) ==> HasNode(nodes, [f])
  {
    hide PathOf, PathsOf;
    var paths := PathsOf(nodes, |nodes|);
    forall n | 0 <= n < |nodes| && PathOf(nodes, n) == [f] ensures nodes[n].inclusive == value {
      assert paths[n] == [f];
    }
    if [f] in paths {
      var n :| 0 <= n < |paths| && paths[n] == [f];
      assert PathOf(nodes, n) == [f];
    }
  }

  /** Read off the nodes: a function's inclusive count is the inclusive total over its outermost nodes, and
      its self count is the self total over all its nodes and also the inclusive count of its depth-one node
      in the inverted tree, if it has one. */
  lemma NodesShowTable(stacks: seq<seq<nat>>, sorted: seq<seq<nat>>, nodes: seq<Node>, inverted: seq<Node>, f: nat)
    requires multiset(sorted) == multiset(stacks) && |sorted| <= U64_MAX
    requires Represents(nodes, UnitWalks(sorted, false)) && Represents(inverted, UnitWalks(sorted, true))
    ensures Containing(stacks, f) == OutermostTotal(nodes, PathsOf(nodes, |nodes|), f)
    ensures Ending(stacks, f) == SelfTotal(nodes, PathsOf(nodes, |nodes|), f)
    ensures forall n :: 0 <= n < |inverted| && PathOf(inverted, n) == [f] ==> inverted[n].inclusive == Ending(stacks, f)
    ensures Ending(stacks, f) > 0 ==> HasNode(inverted, [f])
  {
    ParentsOf(nodes, UnitWalks(sorted, false));
    ParentsOf(inverted, UnitWalks(sorted, true));
    hide PathOf, PathsOf, ShapeOk, CountsOk, Complete, Containing, Ending, OutermostTotal, SelfTotal, Represents,
      UnitWalks, HasNode, ParentsBelow;
    var lookup := ShapeOfNodes(nodes, UnitWalks(sorted, false));
    var backLookup := ShapeOfNodes(inverted, UnitWalks(sorted, true));
    ShapeShowsTable(stacks, sorted, nodes, lookup, PathsOf(nodes, |nodes|), inverted, PathsOf(inverted, |inverted|), f);
    DepthOne(inverted, f, Ending(stacks, f));
  }
}
