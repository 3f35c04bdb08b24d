/** Top-down scenarios: validation of coherent counter groups and evaluation of metrics in order. */
module TopDown {
  import opened Basics
  import opened FormulaSyntax
  import opened FormulaParser
  import opened FormulaTheorems

  datatype Group = Group(name: string, events: seq<string>)

  datatype Metric = Metric(name: string, formula: string, group: Option<string>)

  datatype Scenario = Scenario(events: seq<string>, groups: seq<Group>, metrics: seq<Metric>)

  // ---- variables of a formula ---------------------------------------------------------------------------------

  function Variables(e: Expr): set<string>
    decreases e
  {
    match e
    case Variable(n) => {n}
    case Binary(_, l, r) => Variables(l) + Variables(r)
    case Call(_, args) => AllVariables(args)
    case _ => {}
  }

  function AllVariables(es: seq<Expr>): set<string>
    decreases es
  {
    if es == [] then {} else Variables(es[0]) + AllVariables(es[1..])
  }

  /** Inserts the variables of a formula into a set. */
  method CollectVariables(e: Expr, before: set<string>) returns (vars: set<string>)
    ensures vars == before + Variables(e)
    decreases e
  {
    match e {
      case Variable(n) => vars := before + {n};
      case Binary(_, l, r) =>
        vars := CollectVariables(l, before);
        vars := CollectVariables(r, vars);
      case Call(_, args) =>
        vars := before;
        for i := 0 to |args|
          invariant vars + AllVariables(args[i..]) == before + AllVariables(args)
        {
          assert args[i..][0] == args[i] && args[i..][1..] == args[i + 1..];
          vars := CollectVariables(args[i], vars);
        }
      case Constant(_) => vars := before;
      case Num(_) => vars := before;
    }
  }

  /** The variables a metric's formula names; none if it does not parse. */
  function VariablesOf(m: Metric): set<string> {
    match Parse(m.formula)
    case Failed(_) => {}
    case Parsed(e, _) => Variables(e)
  }

  // ---- validation ---------------------------------------------------------------------------------------------

  datatype Problem =
    | NoGroups
    | EmptyGroup(group: nat)
    | UndeclaredEvent(group: nat, event: string)
    | NoGroupNamed(metric: nat)
    | UnknownGroup(metric: nat)
    | BadFormula(metric: nat)
    | OutsideGroup(metric: nat, variable: string)

  datatype Verdict = Resolved(groups: seq<seq<string>>) | Rejected(problem: Problem)

  /** The first group with a name. */
  function FindGroup(groups: seq<Group>, name: string): (r: Option<nat>)
    ensures r.Some? ==> r.value < |groups| && groups[r.value].name == name
    ensures r.Some? ==> forall i :: 0 <= i < r.value ==> groups[i].name != name
    ensures r.None? ==> forall i :: 0 <= i < |groups| ==> groups[i].name != name
  {
    if groups == [] then None
    else if groups[0].name == name then Some(0)
    else
      match FindGroup(groups[1..], name)
      case None =>
        assert forall i :: 1 <= i < |groups| ==> groups[i] == groups[1..][i - 1];
        None
      case Some(i) =>
        assert forall j :: 1 <= j < |groups| ==> groups[j] == groups[1..][j - 1];
        Some(i + 1)
  }

  predicate IsMetric(sc: Scenario, name: string) {
    exists i :: 0 <= i < |sc.metrics| && sc.metrics[i].name == name
  }

  predicate GroupOk(sc: Scenario, g: Group) {
    g.events != [] && forall i :: 0 <= i < |g.events| ==> g.events[i] in sc.events
  }

  /** The events of the group a metric names. */
  function GroupEvents(sc: Scenario, m: Metric): seq<string> {
    if m.group.None? then []
    else
      match FindGroup(sc.groups, m.group.value)
      case None => []
      case Some(g) => sc.groups[g].events
  }

  predicate MetricOk(sc: Scenario, m: Metric) {
    && m.group.Some? && FindGroup(sc.groups, m.group.value).Some?
    && Parse(m.formula).Parsed?
    && forall x <- VariablesOf(m) :: IsMetric(sc, x) || x in GroupEvents(sc, m)
  }

  /** There are groups, they hold declared events, and every metric takes its events from its own group. */
  predicate Coherent(sc: Scenario) {
    && sc.groups != []
    && (forall g :: 0 <= g < |sc.groups| ==> GroupOk(sc, sc.groups[g]))
    && (forall i :: 0 <= i < |sc.metrics| ==> MetricOk(sc, sc.metrics[i]))
  }

  /** The reported problem is really there. */
  predicate Present(sc: Scenario, p: Problem) {
    match p
    case NoGroups => sc.groups == []
    case EmptyGroup(g) => g < |sc.groups| && sc.groups[g].events == []
    case UndeclaredEvent(g, e) => g < |sc.groups| && e in sc.groups[g].events && e !in sc.events
    case NoGroupNamed(i) => i < |sc.metrics| && sc.metrics[i].group.None?
    case UnknownGroup(i) =>
      && i < |sc.metrics| && sc.metrics[i].group.Some?
      && FindGroup(sc.groups, sc.metrics[i].group.value).None?
    case BadFormula(i) =>
      && i < |sc.metrics| && sc.metrics[i].group.Some? && FindGroup(sc.groups, sc.metrics[i].group.value).Some?
      && Parse(sc.metrics[i].formula).Failed?
    case OutsideGroup(i, x) =>
      && i < |sc.metrics| && sc.metrics[i].group.Some? && FindGroup(sc.groups, sc.metrics[i].group.value).Some?
      && x in VariablesOf(sc.metrics[i])
      && !IsMetric(sc, x) && x !in GroupEvents(sc, sc.metrics[i])
  }

  lemma PresentBreaks(sc: Scenario, p: Problem)
    requires Present(sc, p)
    ensures !Coherent(sc)
  {
    hide Parse, FindGroup, IsMetric, VariablesOf, GroupEvents;
  }

  /** The problem is the first one there: groups are looked at before metrics, both in order. */
  predicate NothingEarlier(sc: Scenario, p: Problem) {
    match p
    case NoGroups => true
    case EmptyGroup(g) => GroupsOk(sc, g)
    case UndeclaredEvent(g, _) => GroupsOk(sc, g)
    case NoGroupNamed(i) => GroupsOk(sc, |sc.groups|) && MetricsOk(sc, i)
    case UnknownGroup(i) => GroupsOk(sc, |sc.groups|) && MetricsOk(sc, i)
    case BadFormula(i) => GroupsOk(sc, |sc.groups|) && MetricsOk(sc, i)
    case OutsideGroup(i, _) => GroupsOk(sc, |sc.groups|) && MetricsOk(sc, i)
  }

  predicate GroupsOk(sc: Scenario, n: nat) { forall h :: 0 <= h < n && h < |sc.groups| ==> GroupOk(sc, sc.groups[h]) }

  predicate MetricsOk(sc: Scenario, n: nat) { forall h :: 0 <= h < n && h < |sc.metrics| ==> MetricOk(sc, sc.metrics[h]) }

  /** Accepts exactly the coherent scenarios, with their groups kept apart and in order; a rejection names the
      first problem there is. */
  method CounterGroups(sc: Scenario) returns (r: Verdict)
    ensures r.Resolved? <==> Coherent(sc)
    ensures r.Resolved? ==> |r.groups| == |sc.groups| && forall g :: 0 <= g < |sc.groups| ==> r.groups[g] == sc.groups[g].events
    ensures r.Rejected? ==> Present(sc, r.problem) && NothingEarlier(sc, r.problem)
  {
    hide MetricOk, Present;
    if sc.groups == [] {
      ProblemIs(sc, NoGroups);
      return Rejected(NoGroups);
    }
    var resolved: seq<seq<string>> := [];
    for g := 0 to |sc.groups|
      invariant |resolved| == g && forall h :: 0 <= h < g ==> resolved[h] == sc.groups[h].events
      invariant forall h :: 0 <= h < g ==> GroupOk(sc, sc.groups[h])
    {
      var problem := CheckGroup(sc, g);
      if problem.Some? {
        PresentBreaks(sc, problem.value);
        return Rejected(problem.value);
      }
      resolved := resolved + [sc.groups[g].events];
    }
    for i := 0 to |sc.metrics|
      invariant forall h :: 0 <= h < i ==> MetricOk(sc, sc.metrics[h])
    {
      var problem := CheckMetric(sc, i);
      if problem.Some? {
        PresentBreaks(sc, problem.value);
        return Rejected(problem.value);
      }
    }
    r := Resolved(resolved);
  }

  lemma ProblemIs(sc: Scenario, p: Problem)
    ensures p.NoGroups? && sc.groups == [] ==> Present(sc, p) && !Coherent(sc)
  {
  }

  method CheckGroup(sc: Scenario, g: nat) returns (p: Option<Problem>)
    requires g < |sc.groups|
    ensures p.None? <==> GroupOk(sc, sc.groups[g])
    ensures p.Some? ==> Present(sc, p.value) && (p.value == EmptyGroup(g) || (p.value.UndeclaredEvent? && p.value.group == g))
  {
    var events := sc.groups[g].events;
    if events == [] {
      return Some(EmptyGroup(g));
    }
    for i := 0 to |events|
      invariant forall h :: 0 <= h < i ==> events[h] in sc.events
    {
      if events[i] !in sc.events {
        return Some(UndeclaredEvent(g, events[i]));
      }
    }
    p := None;
  }

  predicate IsMetricProblem(p: Problem, i: nat) {
    match p
    case NoGroupNamed(j) => j == i
    case UnknownGroup(j) => j == i
    case BadFormula(j) => j == i
    case OutsideGroup(j, _) => j == i
    case _ => false
  }

  method CheckMetric(sc: Scenario, i: nat) returns (p: Option<Problem>)
    requires i < |sc.metrics|
    ensures p.None? <==> MetricOk(sc, sc.metrics[i])
    ensures p.Some? ==> Present(sc, p.value) && IsMetricProblem(p.value, i)
  {
    hide Parse, IsMetric;
    var m := sc.metrics[i];
    if m.group.None? {
      return Some(NoGroupNamed(i));
    }
    var group := FindGroup(sc.groups, m.group.value);
    if group.None? {
      return Some(UnknownGroup(i));
    }
    var parsed := Parse(m.formula);
    if parsed.Failed? {
      return Some(BadFormula(i));
    }
    var variables := CollectVariables(parsed.expr, {});
    assert variables == VariablesOf(m);
    var rest := variables;
    while rest != {}
      invariant rest <= variables
      invariant forall x <- variables - rest :: IsMetric(sc, x) || x in GroupEvents(sc, m)
      decreases |rest|
    {
      var x :| x in rest;
      if !IsMetric(sc, x) && x !in sc.groups[group.value].events {
        return Some(OutsideGroup(i, x));
      }
      rest := rest - {x};
    }
    p := None;
  }

  // ---- evaluation ---------------------------------------------------------------------------------------------

  /** The arithmetic a formula is evaluated with, left open so that it also covers floating point. */
  datatype Arith<!V> = Arith(
    number: string -> V, binary: (Op, V, V) -> V, least: (V, V) -> V, greatest: (V, V) -> V,
    magnitude: V -> V, isZero: V -> bool)

  function LowerChar(c: char): char {
    if 'A' <= c <= 'Z' then (c as int + 32) as char else c
  }

  function Lower(s: string): string {
    if s == "" then "" else [LowerChar(s[0])] + Lower(s[1..])
  }

  function CallValue<V>(a: Arith<V>, name: string, args: seq<V>): Option<V> {
    var f := Lower(name);
    if f == "min" && |args| == 2 then Some(a.least(args[0], args[1]))
    else if f == "max" && |args| == 2 then Some(a.greatest(args[0], args[1]))
    else if f == "abs" && |args| == 1 then Some(a.magnitude(args[0]))
    else if f == "if" && |args| == 3 then Some(if !a.isZero(args[0]) then args[1] else args[2])
    else None
  }

  function Get<V>(m: map<string, V>, k: string): Option<V> { if k in m then Some(m[k]) else None }

  function Eval<V>(a: Arith<V>, e: Expr, values: map<string, V>, constants: map<string, V>): Option<V>
    decreases e
  {
    match e
    case Variable(n) => Get(values, n)
    case Constant(n) => Get(constants, n)
    case Num(x) => Some(a.number(x))
    case Binary(op, l, r) =>
      var left, right := Eval(a, l, values, constants), Eval(a, r, values, constants);
      if left.None? || right.None? then None else Some(a.binary(op, left.value, right.value))
    case Call(n, args) =>
      var vs := EvalAll(a, args, values, constants);
      if vs.None? then None else CallValue(a, n, vs.value)
  }

  function EvalAll<V>(a: Arith<V>, es: seq<Expr>, values: map<string, V>, constants: map<string, V>): Option<seq<V>>
    decreases es
  {
    if es == [] then Some([])
    else
      var first, rest := Eval(a, es[0], values, constants), EvalAll(a, es[1..], values, constants);
      if first.None? || rest.None? then None else Some([first.value] + rest.value)
  }

  function EvalFormula<V>(a: Arith<V>, formula: string, values: map<string, V>, constants: map<string, V>): Option<V> {
    match Parse(formula)
    case Failed(_) => None
    case Parsed(e, _) => Eval(a, e, values, constants)
  }

  /** The values a metric of index `n` is evaluated with: the measured ones, overwritten by the metrics
      before it that evaluate. */
  function ValuesAt<V>(a: Arith<V>, metrics: seq<Metric>, start: map<string, V>, constants: map<string, V>, n: nat): map<string, V>
    requires n <= |metrics|
  {
    if n == 0 then start
    else
      var before := ValuesAt(a, metrics, start, constants, n - 1);
      match EvalFormula(a, metrics[n - 1].formula, before, constants)
      case None => before
      case Some(v) => before[metrics[n - 1].name := v]
  }

  /** What metric `i` evaluates to, if it does. */
  function Outcome<V>(a: Arith<V>, metrics: seq<Metric>, start: map<string, V>, constants: map<string, V>, i: nat): Option<V>
    requires i < |metrics|
  {
    EvalFormula(a, metrics[i].formula, ValuesAt(a, metrics, start, constants, i), constants)
  }

  function Depth(name: string): nat { 1 + Dots(name) }

  /** The metrics that evaluate and are shallow enough, in declaration order. */
  function RowsAt<V>(a: Arith<V>, metrics: seq<Metric>, start: map<string, V>, constants: map<string, V>, level: nat, n: nat): seq<(nat, V)>
    requires n <= |metrics|
  {
    if n == 0 then []
    else
      RowsAt(a, metrics, start, constants, level, n - 1)
      + (match Outcome(a, metrics, start, constants, n - 1)
         case None => []
         case Some(v) => if Depth(metrics[n - 1].name) <= level then [(n - 1, v)] else [])
  }

  method EvaluateScenario<V>(a: Arith<V>, sc: Scenario, start: map<string, V>, constants: map<string, V>, level: nat)
    returns (values: map<string, V>, rows: seq<(nat, V)>)
    ensures values == ValuesAt(a, sc.metrics, start, constants, |sc.metrics|)
    ensures rows == RowsAt(a, sc.metrics, start, constants, level, |sc.metrics|)
  {
    hide EvalFormula, Dots;
    values, rows := start, [];
    for i := 0 to |sc.metrics|
      invariant values == ValuesAt(a, sc.metrics, start, constants, i)
      invariant rows == RowsAt(a, sc.metrics, start, constants, level, i)
    {
      var metric := sc.metrics[i];
      var value := EvalFormula(a, metric.formula, values, constants);
      if value.None? {
        continue;
      }
      values := values[metric.name := value.value];
      if Depth(metric.name) <= level {
        rows := rows + [(i, value.value)];
      }
    }
  }

  /** Metric `i` evaluates to `v` and is shallow enough to be shown. */
  ghost predicate Shown<V>(a: Arith<V>, metrics: seq<Metric>, start: map<string, V>, constants: map<string, V>, level: nat, i: nat, v: V) {
    i < |metrics| && Outcome(a, metrics, start, constants, i) == Some(v) && Depth(metrics[i].name) <= level
  }

  /** The rows are the outcomes of exactly the shallow metrics that evaluate, each once and in order. */
  lemma {:induction false} RowsExact<V(!new)>(a: Arith<V>, metrics: seq<Metric>, start: map<string, V>, constants: map<string, V>, level: nat, n: nat)
    requires n <= |metrics|
    ensures var rows := RowsAt(a, metrics, start, constants, level, n);
      && (forall i: nat, v :: (i, v) in rows <==> i < n && Shown(a, metrics, start, constants, level, i, v))
      && (forall k, l :: 0 <= k < l < |rows| ==> rows[k].0 < rows[l].0)
    decreases n
  {
    hide Outcome, Dots;
    if n > 0 {
      RowsExact(a, metrics, start, constants, level, n - 1);
      var before, rows := RowsAt(a, metrics, start, constants, level, n - 1), RowsAt(a, metrics, start, constants, level, n);
      forall k, l | 0 <= k < l < |rows| ensures rows[k].0 < rows[l].0 {
        assert rows[k] == before[k];
        assert (before[k].0, before[k].1) in before;
      }
    }
  }

  // ---- what a metric depends on -------------------------------------------------------------------------------

  /** The two maps give the same answer for every listed name. */
  ghost predicate Agree<V(!new)>(m: map<string, V>, n: map<string, V>, names: set<string>) {
    forall x <- names :: Get(m, x) == Get(n, x)
  }

  lemma {:induction false} EvalAgrees<V(!new)>(a: Arith<V>, e: Expr, m: map<string, V>, n: map<string, V>, constants: map<string, V>)
    requires Agree(m, n, Variables(e))
    ensures Eval(a, e, m, constants) == Eval(a, e, n, constants)
    decreases e
  {
    match e
    case Variable(x) => assert x in Variables(e);
    case Binary(_, l, r) =>
      EvalAgrees(a, l, m, n, constants);
      EvalAgrees(a, r, m, n, constants);
    case Call(_, args) => EvalAllAgrees(a, args, m, n, constants);
    case _ =>
  }

  lemma {:induction false} EvalAllAgrees<V(!new)>(a: Arith<V>, es: seq<Expr>, m: map<string, V>, n: map<string, V>, constants: map<string, V>)
    requires Agree(m, n, AllVariables(es))
    ensures EvalAll(a, es, m, constants) == EvalAll(a, es, n, constants)
    decreases es
  {
    if es != [] {
      EvalAgrees(a, es[0], m, n, constants);
      EvalAllAgrees(a, es[1..], m, n, constants);
    }
  }

  /** The names a metric transitively reads: its own variables and those of the earlier metrics it names. */
  function Reach(metrics: seq<Metric>, i: nat): set<string>
    requires i < |metrics|
    decreases i, 1, 0
  {
    VariablesOf(metrics[i]) + ReachBelow(metrics, i, i)
  }

  function ReachBelow(metrics: seq<Metric>, i: nat, k: nat): set<string>
    requires k <= i < |metrics|
    decreases i, 0, k
  {
    if k == 0 then {}
    else
      ReachBelow(metrics, i, k - 1)
      + (if metrics[k - 1].name in VariablesOf(metrics[i]) then Reach(metrics, k - 1) else {})
  }

  lemma {:induction false} ReachIncludes(metrics: seq<Metric>, i: nat, j: nat, k: nat)
    requires j < k <= i < |metrics| && metrics[j].name in VariablesOf(metrics[i])
    ensures Reach(metrics, j) <= ReachBelow(metrics, i, k)
    decreases k
  {
    hide VariablesOf, Reach;
    if j < k - 1 { ReachIncludes(metrics, i, j, k - 1); }
  }

  /** A metric's outcome depends on the measured values of the names it reaches and on nothing else. */
  lemma {:induction false} OutcomeDepends<V(!new)>(a: Arith<V>, metrics: seq<Metric>, m: map<string, V>, n: map<string, V>, constants: map<string, V>, i: nat)
    requires i < |metrics| && Agree(m, n, Reach(metrics, i))
    ensures Outcome(a, metrics, m, constants, i) == Outcome(a, metrics, n, constants, i)
    decreases i, 1, 0
  {
    hide Parse, Variables, Eval, ValuesAt;
    var left, right := ValuesAt(a, metrics, m, constants, i), ValuesAt(a, metrics, n, constants, i);
    match Parse(metrics[i].formula)
    case Failed(_) =>
    case Parsed(e, _) =>
      forall x | x in Variables(e) ensures Get(left, x) == Get(right, x) {
        ValueDepends(a, metrics, m, n, constants, i, i, x);
      }
      EvalAgrees(a, e, left, right, constants);
  }

  lemma {:induction false} ValueDepends<V(!new)>(a: Arith<V>, metrics: seq<Metric>, m: map<string, V>, n: map<string, V>, constants: map<string, V>, i: nat, k: nat, x: string)
    requires k <= i < |metrics| && Agree(m, n, Reach(metrics, i)) && x in VariablesOf(metrics[i])
    ensures Get(ValuesAt(a, metrics, m, constants, k), x) == Get(ValuesAt(a, metrics, n, constants, k), x)
    decreases i, 0, k
  {
    hide EvalFormula, VariablesOf;
    if k == 0 {
      assert x in Reach(metrics, i);
    } else {
      ValueDepends(a, metrics, m, n, constants, i, k - 1, x);
      if metrics[k - 1].name == x {
        ReachIncludes(metrics, i, k - 1, i);
        assert Agree(m, n, Reach(metrics, k - 1));
        OutcomeDepends(a, metrics, m, n, constants, k - 1);
        assert Outcome(a, metrics, m, constants, k - 1) == Outcome(a, metrics, n, constants, k - 1);
      }
    }
  }

  // ---- coherence ----------------------------------------------------------------------------------------------

  function Range(s: seq<string>): set<string> { set x | x in s }

  /** The events of a metric's own group and of the groups of the earlier metrics it transitively names. */
  function Support(sc: Scenario, i: nat): set<string>
    requires i < |sc.metrics|
    decreases i, 1, 0
  {
    Range(GroupEvents(sc, sc.metrics[i])) + SupportBelow(sc, i, i)
  }

  function SupportBelow(sc: Scenario, i: nat, k: nat): set<string>
    requires k <= i < |sc.metrics|
    decreases i, 0, k
  {
    if k == 0 then {}
    else
      SupportBelow(sc, i, k - 1)
      + (if sc.metrics[k - 1].name in VariablesOf(sc.metrics[i]) then Support(sc, k - 1) else {})
  }

  /** In a coherent scenario a metric reaches only metric names and the events of its support. */
  lemma {:induction false} ReachSupported(sc: Scenario, i: nat, x: string)
    requires Coherent(sc) && i < |sc.metrics| && x in Reach(sc.metrics, i)
    ensures IsMetric(sc, x) || x in Support(sc, i)
    decreases i, 1, 0
  {
    hide VariablesOf, IsMetric, GroupOk, GroupEvents;
    assert MetricOk(sc, sc.metrics[i]);
    if x !in VariablesOf(sc.metrics[i]) { BelowSupported(sc, i, i, x); }
  }

  lemma {:induction false} BelowSupported(sc: Scenario, i: nat, k: nat, x: string)
    requires Coherent(sc) && k <= i < |sc.metrics| && x in ReachBelow(sc.metrics, i, k)
    ensures IsMetric(sc, x) || x in SupportBelow(sc, i, k)
    decreases i, 0, k
  {
    hide VariablesOf, IsMetric, Coherent;
    if x in ReachBelow(sc.metrics, i, k - 1) {
      BelowSupported(sc, i, k - 1, x);
    } else {
      ReachSupported(sc, k - 1, x);
    }
  }

  /** Every name the metric reaches is an event of its support, or a name nothing was measured under: only
      names the metric reaches matter. */
  ghost predicate Sheltered<V>(sc: Scenario, values: map<string, V>, i: nat)
    requires i < |sc.metrics|
  {
    forall x <- Reach(sc.metrics, i) :: x in Support(sc, i) || x !in values
  }

  /** A metric whose reached names are sheltered depends only on constants and on its support, whether or not
      the scenario is coherent. */
  lemma SupportDecides<V(!new)>(a: Arith<V>, sc: Scenario, m: map<string, V>, n: map<string, V>, constants: map<string, V>, i: nat)
    requires i < |sc.metrics| && Sheltered(sc, m, i) && Sheltered(sc, n, i) && Agree(m, n, Support(sc, i))
    ensures Outcome(a, sc.metrics, m, constants, i) == Outcome(a, sc.metrics, n, constants, i)
  {
    hide Outcome, Reach, Support;
    OutcomeDepends(a, sc.metrics, m, n, constants, i);
  }

  /** No measured value carries the name of a metric. */
  ghost predicate NamesApart<V>(sc: Scenario, values: map<string, V>) {
    forall x <- values :: !IsMetric(sc, x)
  }

  /** Coherence and names apart shelter every metric. */
  lemma ApartShelters<V(!new)>(sc: Scenario, values: map<string, V>, i: nat)
    requires Coherent(sc) && i < |sc.metrics| && NamesApart(sc, values)
    ensures Sheltered(sc, values, i)
  {
    hide Coherent, Reach, Support, IsMetric;
    forall x | x in Reach(sc.metrics, i) ensures x in Support(sc, i) || x !in values { ReachSupported(sc, i, x); }
  }

  /** Group coherence: in an accepted scenario whose metric names are not event names, whether a metric
      evaluates and to what depends only on constants and on events of its own group and of the groups of
      the metrics it transitively names. */
  lemma GroupCoherence<V(!new)>(a: Arith<V>, sc: Scenario, m: map<string, V>, n: map<string, V>, constants: map<string, V>, i: nat)
    requires Coherent(sc) && i < |sc.metrics| && NamesApart(sc, m) && NamesApart(sc, n)
    requires Agree(m, n, Support(sc, i))
    ensures Outcome(a, sc.metrics, m, constants, i) == Outcome(a, sc.metrics, n, constants, i)
  {
    hide Coherent, Outcome, Sheltered, NamesApart, Support;
    ApartShelters(sc, m, i);
    ApartShelters(sc, n, i);
    SupportDecides(a, sc, m, n, constants, i);
  }

  /** A scenario that validation accepts although a metric's name is also an event of another group. */
  function Shadowing(): Scenario {
    Scenario(["a", "b"], [Group("first", ["a"]), Group("second", ["b"])],
             [Metric("x", "b", Some("first")), Metric("b", "b", Some("second"))])
  }

  lemma ParsesB()
    ensures Parse("b") == Parsed(Variable("b"), 1)
  {
    hide Parse;
    var t := Name("b");
    var gaps := ["", ""];
    assert IsLetter("b"[0]);
    assert gaps[1..] == [""] && ["b"][1..] == [];
    assert Render(["b"], gaps) == "b";
    assert WrittenAs("b", Variable("b"), t, gaps);
    WrittenParses("b", Variable("b"), t, gaps);
  }

  lemma ShadowingCoherent()
    ensures Coherent(Shadowing())
  {
    hide Parse;
    var sc := Shadowing();
    ParsesB();
    assert sc.metrics[1].name == "b" && IsMetric(sc, "b");
    assert sc.groups[1..][0].name == "second";
    assert MetricOk(sc, sc.metrics[0]) && MetricOk(sc, sc.metrics[1]);
  }

  /** There, metric `x` of group `first` reads event `b` of group `second`: without names apart the property
      fails. */
  lemma ShadowingReadsOutside<V(!new)>(a: Arith<V>, u: V, v: V, constants: map<string, V>)
    requires u != v
    ensures var sc := Shadowing();
      && Coherent(sc) && Support(sc, 0) == {"a"}
      && Agree(map["b" := u], map["b" := v], Support(sc, 0))
      && Outcome(a, sc.metrics, map["b" := u], constants, 0) != Outcome(a, sc.metrics, map["b" := v], constants, 0)
  {
    hide Parse, Coherent;
    var sc := Shadowing();
    ParsesB();
    ShadowingCoherent();
    assert Range(["a"]) == {"a"};
    assert Support(sc, 0) == {"a"};
    assert "a" != "b" by { assert "a"[0] != "b"[0]; }
  }
}
