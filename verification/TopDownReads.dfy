/** Which measured values a metric really reads, and when these lie in its support. */
module TopDownReads {
  import opened Basics
  import opened FormulaSyntax
  import opened FormulaParser
  import opened TopDown

  // ---- when a formula evaluates -------------------------------------------------------------------------------

  /** The functions the evaluator knows, with their argument counts. */
  predicate Known(name: string, n: nat) {
    var f := Lower(name);
    (f == "min" && n == 2) || (f == "max" && n == 2) || (f == "abs" && n == 1) || (f == "if" && n == 3)
  }

  /** Every call is known and every constant is among the given ones. */
  predicate Computable(e: Expr, constants: set<string>)
    decreases e
  {
    match e
    case Constant(n) => n in constants
    case Binary(_, l, r) => Computable(l, constants) && Computable(r, constants)
    case Call(n, args) => Known(n, |args|) && AllComputable(args, constants)
    case _ => true
  }

  predicate AllComputable(es: seq<Expr>, constants: set<string>)
    decreases es
  {
    es == [] || (Computable(es[0], constants) && AllComputable(es[1..], constants))
  }

  /** A formula evaluates exactly if it is computable and all its variables have values. */
  lemma {:induction false} EvaluatesExactly<V>(a: Arith<V>, e: Expr, values: map<string, V>, constants: map<string, V>)
    ensures Eval(a, e, values, constants).Some? <==> Computable(e, constants.Keys) && Variables(e) <= values.Keys
    decreases e
  {
    match e
    case Binary(_, l, r) =>
      EvaluatesExactly(a, l, values, constants);
      EvaluatesExactly(a, r, values, constants);
    case Call(n, args) => AllEvaluateExactly(a, args, values, constants);
    case Variable(n) => assert Variables(e) == {n};
    case _ => assert Variables(e) == {};
  }

  lemma {:induction false} AllEvaluateExactly<V>(a: Arith<V>, es: seq<Expr>, values: map<string, V>, constants: map<string, V>)
    ensures EvalAll(a, es, values, constants).Some? <==> AllComputable(es, constants.Keys) && AllVariables(es) <= values.Keys
    ensures EvalAll(a, es, values, constants).Some? ==> |EvalAll(a, es, values, constants).value| == |es|
    decreases es
  {
    if es == [] {
      assert AllVariables(es) == {};
    } else {
      EvaluatesExactly(a, es[0], values, constants);
      AllEvaluateExactly(a, es[1..], values, constants);
    }
  }

  /** The formula parses and is computable. */
  predicate Works(m: Metric, constants: set<string>) {
    Parse(m.formula).Parsed? && Computable(Parse(m.formula).expr, constants)
  }

  lemma FormulaExactly<V>(a: Arith<V>, m: Metric, values: map<string, V>, constants: map<string, V>)
    ensures EvalFormula(a, m.formula, values, constants).Some? <==> Works(m, constants.Keys) && VariablesOf(m) <= values.Keys
  {
    hide Parse;
    match Parse(m.formula)
    case Failed(_) =>
    case Parsed(e, _) => EvaluatesExactly(a, e, values, constants);
  }

  // ---- what runs, and what it reads ---------------------------------------------------------------------------

  /** Metric `i` evaluates when exactly the names of `measured` have measured values. */
  predicate Runs(metrics: seq<Metric>, constants: set<string>, measured: set<string>, i: nat)
    requires i < |metrics|
    decreases i, 1
  {
    && Works(metrics[i], constants)
    && forall x <- VariablesOf(metrics[i]) :: x in measured || Provider(metrics, constants, measured, i, x).Some?
  }

  /** The metric before `k` whose result stands under the name: the last one of that name that evaluates. */
  function Provider(metrics: seq<Metric>, constants: set<string>, measured: set<string>, k: nat, x: string): (r: Option<nat>)
    requires k <= |metrics|
    ensures r.Some? ==> r.value < k
    decreases k, 0
  {
    if k == 0 then None
    else if metrics[k - 1].name == x && Runs(metrics, constants, measured, k - 1) then Some(k - 1)
    else Provider(metrics, constants, measured, k - 1, x)
  }

  lemma {:induction false} ProviderIs(metrics: seq<Metric>, constants: set<string>, measured: set<string>, k: nat, x: string)
    requires k <= |metrics|
    ensures var r := Provider(metrics, constants, measured, k, x);
      && (r.Some? ==> metrics[r.value].name == x && Runs(metrics, constants, measured, r.value))
      && forall j :: (if r.Some? then r.value < j < k else 0 <= j < k) && metrics[j].name == x ==>
           !Runs(metrics, constants, measured, j)
    decreases k
  {
    hide Runs;
    if k > 0 { ProviderIs(metrics, constants, measured, k - 1, x); }
  }

  /** Metric `i`, or a metric whose result it uses, takes the measured value of `y`. */
  predicate Reads(metrics: seq<Metric>, constants: set<string>, measured: set<string>, i: nat, y: string)
    requires i < |metrics|
    decreases i, 1
  {
    exists x <- VariablesOf(metrics[i]) :: Takes(metrics, constants, measured, i, x, y)
  }

  predicate Takes(metrics: seq<Metric>, constants: set<string>, measured: set<string>, i: nat, x: string, y: string)
    requires i < |metrics|
    decreases i, 0
  {
    match Provider(metrics, constants, measured, i, x)
    case None => x == y
    case Some(j) => Reads(metrics, constants, measured, j, y)
  }

  /** Presence and value of a name when metric `k` is evaluated. */
  lemma {:induction false} ValueIs<V>(a: Arith<V>, metrics: seq<Metric>, m: map<string, V>, constants: map<string, V>, k: nat, x: string)
    requires k <= |metrics|
    ensures Get(ValuesAt(a, metrics, m, constants, k), x)
         == match Provider(metrics, constants.Keys, m.Keys, k, x) {
              case None => Get(m, x)
              case Some(j) => Outcome(a, metrics, m, constants, j)
            }
    decreases k, 0
  {
    hide EvalFormula, Runs;
    if k > 0 {
      ValueIs(a, metrics, m, constants, k - 1, x);
      RunsExactly(a, metrics, m, constants, k - 1);
    }
  }

  /** A metric evaluates exactly if it runs on the measured names. */
  lemma {:induction false} RunsExactly<V>(a: Arith<V>, metrics: seq<Metric>, m: map<string, V>, constants: map<string, V>, i: nat)
    requires i < |metrics|
    ensures Outcome(a, metrics, m, constants, i).Some? <==> Runs(metrics, constants.Keys, m.Keys, i)
    decreases i, 1
  {
    hide EvalFormula, Works, VariablesOf, Provider, ValuesAt;
    var values := ValuesAt(a, metrics, m, constants, i);
    FormulaExactly(a, metrics[i], values, constants);
    forall x ensures x in values <==> x in m || Provider(metrics, constants.Keys, m.Keys, i, x).Some? {
      ValueIs(a, metrics, m, constants, i, x);
      var p := Provider(metrics, constants.Keys, m.Keys, i, x);
      ProviderIs(metrics, constants.Keys, m.Keys, i, x);
      if p.Some? { RunsExactly(a, metrics, m, constants, p.value); }
    }
  }

  /** A metric that runs reads measured names only. */
  lemma {:induction false} ReadsMeasured(metrics: seq<Metric>, constants: set<string>, measured: set<string>, i: nat, y: string)
    requires i < |metrics| && Runs(metrics, constants, measured, i) && Reads(metrics, constants, measured, i, y)
    ensures y in measured
  {
    hide Works, VariablesOf, Provider;
    var x :| x in VariablesOf(metrics[i]) && Takes(metrics, constants, measured, i, x, y);
    var p := Provider(metrics, constants, measured, i, x);
    ProviderIs(metrics, constants, measured, i, x);
    if p.Some? { ReadsMeasured(metrics, constants, measured, p.value, y); }
  }

  /** What runs on some names runs on any that include the ones it reads. */
  lemma {:induction false} RunsOnReads(metrics: seq<Metric>, constants: set<string>, measured: set<string>, other: set<string>, i: nat)
    requires i < |metrics| && Runs(metrics, constants, measured, i)
    requires forall y :: Reads(metrics, constants, measured, i, y) ==> y in other
    ensures Runs(metrics, constants, other, i)
    decreases i
  {
    hide Works, VariablesOf, Provider;
    forall x | x in VariablesOf(metrics[i]) ensures x in other || Provider(metrics, constants, other, i, x).Some? {
      var p := Provider(metrics, constants, measured, i, x);
      ProviderIs(metrics, constants, measured, i, x);
      ProviderIs(metrics, constants, other, i, x);
      if p.None? {
        assert Takes(metrics, constants, measured, i, x, x);
        assert Reads(metrics, constants, measured, i, x);
      } else {
        ReadsThrough(metrics, constants, measured, i, x, p.value);
        RunsOnReads(metrics, constants, measured, other, p.value);
      }
    }
  }

  /** What a provider reads, its user reads. */
  lemma ReadsThrough(metrics: seq<Metric>, constants: set<string>, measured: set<string>, i: nat, x: string, j: nat)
    requires i < |metrics| && x in VariablesOf(metrics[i]) && Provider(metrics, constants, measured, i, x) == Some(j)
    ensures forall y :: Reads(metrics, constants, measured, j, y) ==> Reads(metrics, constants, measured, i, y)
  {
    hide VariablesOf, Provider;
    forall y | Reads(metrics, constants, measured, j, y) ensures Reads(metrics, constants, measured, i, y) {
      assert Takes(metrics, constants, measured, i, x, y);
    }
  }

  lemma {:induction false} RunsMonotone(metrics: seq<Metric>, constants: set<string>, fewer: set<string>, more: set<string>, i: nat)
    requires i < |metrics| && fewer <= more && Runs(metrics, constants, fewer, i)
    ensures Runs(metrics, constants, more, i)
    decreases i
  {
    hide Works, VariablesOf, Provider;
    forall x | x in VariablesOf(metrics[i]) ensures x in more || Provider(metrics, constants, more, i, x).Some? {
      var p := Provider(metrics, constants, fewer, i, x);
      ProviderIs(metrics, constants, fewer, i, x);
      ProviderIs(metrics, constants, more, i, x);
      if p.Some? { RunsMonotone(metrics, constants, fewer, more, p.value); }
    }
  }

  // ---- reads inside the given names decide the outcome --------------------------------------------------------

  /** If the metric runs on the measured names, it reads only names of `names`. */
  ghost predicate ReadsWithin(metrics: seq<Metric>, constants: set<string>, measured: set<string>, i: nat, names: set<string>)
    requires i < |metrics|
  {
    Runs(metrics, constants, measured, i) ==> forall y :: Reads(metrics, constants, measured, i, y) ==> y in names
  }

  /** Measured maps that agree on what is read run the same metrics. */
  lemma RunsAlike<V(!new)>(metrics: seq<Metric>, constants: set<string>, m: map<string, V>, n: map<string, V>, i: nat, names: set<string>)
    requires i < |metrics| && Agree(m, n, names) && ReadsWithin(metrics, constants, m.Keys, i, names)
    ensures Runs(metrics, constants, m.Keys, i) ==> Runs(metrics, constants, n.Keys, i)
  {
    hide Runs, Reads;
    if Runs(metrics, constants, m.Keys, i) {
      forall y | Reads(metrics, constants, m.Keys, i, y) ensures y in n.Keys {
        ReadsMeasured(metrics, constants, m.Keys, i, y);
        assert y in names;
      }
      RunsOnReads(metrics, constants, m.Keys, n.Keys, i);
    }
  }

  /** A name a running metric uses has the same provider under both maps. */
  lemma SameProvider<V(!new)>(metrics: seq<Metric>, constants: set<string>, m: map<string, V>, n: map<string, V>, i: nat, x: string, names: set<string>)
    requires i < |metrics| && x in VariablesOf(metrics[i]) && Agree(m, n, names)
    requires Runs(metrics, constants, m.Keys, i) && ReadsWithin(metrics, constants, m.Keys, i, names)
    requires Runs(metrics, constants, n.Keys, i) && ReadsWithin(metrics, constants, n.Keys, i, names)
    ensures Provider(metrics, constants, m.Keys, i, x) == Provider(metrics, constants, n.Keys, i, x)
  {
    hide Runs, Reads, VariablesOf, Provider;
    var p, q := Provider(metrics, constants, m.Keys, i, x), Provider(metrics, constants, n.Keys, i, x);
    ProviderIs(metrics, constants, m.Keys, i, x);
    ProviderIs(metrics, constants, n.Keys, i, x);
    if p.Some? {
      ReadsThrough(metrics, constants, m.Keys, i, x, p.value);
      RunsAlike(metrics, constants, m, n, p.value, names);
    }
    if q.Some? {
      ReadsThrough(metrics, constants, n.Keys, i, x, q.value);
      RunsAlike(metrics, constants, n, m, q.value, names);
    }
  }

  /** Two measured maps that agree on `names` give a metric the same outcome if it reads only those names under
      either of them; this holds in any scenario. */
  lemma {:induction false} ReadsDecide<V(!new)>(a: Arith<V>, metrics: seq<Metric>, m: map<string, V>, n: map<string, V>, constants: map<string, V>, i: nat, names: set<string>)
    requires i < |metrics| && Agree(m, n, names)
    requires ReadsWithin(metrics, constants.Keys, m.Keys, i, names) && ReadsWithin(metrics, constants.Keys, n.Keys, i, names)
    ensures Outcome(a, metrics, m, constants, i) == Outcome(a, metrics, n, constants, i)
    decreases i
  {
    hide Runs, Reads, Takes, VariablesOf, Provider, ReadsWithin, EvalFormula;
    RunsExactly(a, metrics, m, constants, i);
    RunsExactly(a, metrics, n, constants, i);
    RunsAlike(metrics, constants.Keys, m, n, i, names);
    RunsAlike(metrics, constants.Keys, n, m, i, names);
    if Runs(metrics, constants.Keys, m.Keys, i) {
      var left, right := ValuesAt(a, metrics, m, constants, i), ValuesAt(a, metrics, n, constants, i);
      forall x | x in VariablesOf(metrics[i]) ensures Get(left, x) == Get(right, x) {
        ValueAlike(a, metrics, m, n, constants, i, x, names);
      }
      FormulaAgrees(a, metrics[i], left, right, constants);
    }
  }

  lemma FormulaAgrees<V(!new)>(a: Arith<V>, metric: Metric, m: map<string, V>, n: map<string, V>, constants: map<string, V>)
    requires Agree(m, n, VariablesOf(metric))
    ensures EvalFormula(a, metric.formula, m, constants) == EvalFormula(a, metric.formula, n, constants)
  {
    hide Parse, Eval;
    match Parse(metric.formula)
    case Failed(_) =>
    case Parsed(e, _) => EvalAgrees(a, e, m, n, constants);
  }

  lemma {:induction false} ValueAlike<V(!new)>(a: Arith<V>, metrics: seq<Metric>, m: map<string, V>, n: map<string, V>, constants: map<string, V>, i: nat, x: string, names: set<string>)
    requires i < |metrics| && x in VariablesOf(metrics[i]) && Agree(m, n, names)
    requires Runs(metrics, constants.Keys, m.Keys, i) && ReadsWithin(metrics, constants.Keys, m.Keys, i, names)
    requires Runs(metrics, constants.Keys, n.Keys, i) && ReadsWithin(metrics, constants.Keys, n.Keys, i, names)
    ensures Get(ValuesAt(a, metrics, m, constants, i), x) == Get(ValuesAt(a, metrics, n, constants, i), x)
    decreases i, 0
  {
    hide Runs, VariablesOf, Provider, ValuesAt, Outcome;
    var cs := constants.Keys;
    ValueIs(a, metrics, m, constants, i, x);
    ValueIs(a, metrics, n, constants, i, x);
    SameProvider(metrics, cs, m, n, i, x, names);
    var p := Provider(metrics, cs, m.Keys, i, x);
    if p.None? {
      assert Takes(metrics, cs, m.Keys, i, x, x);
      assert Reads(metrics, cs, m.Keys, i, x);
    } else {
      ReadsThrough(metrics, cs, m.Keys, i, x, p.value);
      ReadsThrough(metrics, cs, n.Keys, i, x, p.value);
      ProviderIs(metrics, cs, m.Keys, i, x);
      ProviderIs(metrics, cs, n.Keys, i, x);
      ReadsDecide(a, metrics, m, n, constants, p.value, names);
    }
  }

  /** A metric reads only names it reaches. */
  lemma {:induction false} ReadsReach(metrics: seq<Metric>, constants: set<string>, measured: set<string>, i: nat, y: string)
    requires i < |metrics| && Reads(metrics, constants, measured, i, y)
    ensures y in Reach(metrics, i)
    decreases i
  {
    hide Runs, VariablesOf, Provider, ReachBelow;
    var x :| x in VariablesOf(metrics[i]) && Takes(metrics, constants, measured, i, x, y);
    ProviderIs(metrics, constants, measured, i, x);
    var p := Provider(metrics, constants, measured, i, x);
    if p.Some? {
      ReadsReach(metrics, constants, measured, p.value, y);
      ReachIncludes(metrics, i, p.value, i);
    }
  }

  /** Sheltered names are read within the support. */
  lemma ShelteredWithin<V(!new)>(sc: Scenario, constants: set<string>, m: map<string, V>, i: nat)
    requires i < |sc.metrics| && Sheltered(sc, m, i)
    ensures ReadsWithin(sc.metrics, constants, m.Keys, i, Support(sc, i))
  {
    hide Runs, Reads, Reach, Support;
    if Runs(sc.metrics, constants, m.Keys, i) {
      forall y | Reads(sc.metrics, constants, m.Keys, i, y) ensures y in Support(sc, i) {
        ReadsReach(sc.metrics, constants, m.Keys, i, y);
        ReadsMeasured(sc.metrics, constants, m.Keys, i, y);
      }
    }
  }

  // ---- reads outside show -------------------------------------------------------------------------------------

  /** Metric `i` evaluates the same under any measured maps that agree on its support. */
  ghost predicate Decided<V(!new)>(a: Arith<V>, sc: Scenario, constants: map<string, V>, i: nat)
    requires i < |sc.metrics|
  {
    forall m: map<string, V>, n: map<string, V> :: Agree(m, n, Support(sc, i)) ==>
      Outcome(a, sc.metrics, m, constants, i) == Outcome(a, sc.metrics, n, constants, i)
  }

  ghost function Uniform<V>(names: set<string>, v: V): map<string, V> { map x | x in names :: v }

  /** Leaving out one name outside the support is not noticed by agreement on the support, but by a metric that
      cannot run without it. */
  lemma MissingName<V(!new)>(a: Arith<V>, sc: Scenario, constants: map<string, V>, i: nat, measured: set<string>, y: string, v: V)
    requires i < |sc.metrics| && y !in Support(sc, i)
    requires Runs(sc.metrics, constants.Keys, measured, i) && !Runs(sc.metrics, constants.Keys, measured - {y}, i)
    ensures !Decided(a, sc, constants, i)
  {
    hide Runs, Outcome, Support;
    var m, n := Uniform(measured, v), Uniform(measured - {y}, v);
    assert m.Keys == measured && n.Keys == measured - {y};
    RunsExactly(a, sc.metrics, m, constants, i);
    RunsExactly(a, sc.metrics, n, constants, i);
    assert Agree(m, n, Support(sc, i));
  }

  /** A working metric that names something outside its support, which no earlier metric carries as its name,
      reads outside its support. */
  lemma ReadOutside<V(!new)>(a: Arith<V>, sc: Scenario, constants: map<string, V>, i: nat, x: string, v: V)
    requires i < |sc.metrics| && Works(sc.metrics[i], constants.Keys)
    requires x in VariablesOf(sc.metrics[i]) && x !in Support(sc, i)
    requires forall k :: 0 <= k < i ==> sc.metrics[k].name != x
    ensures !Decided(a, sc, constants, i)
  {
    hide Works, VariablesOf, Support, Decided, Provider;
    ProviderIs(sc.metrics, constants.Keys, VariablesOf(sc.metrics[i]) - {x}, i, x);
    MissingName(a, sc, constants, i, VariablesOf(sc.metrics[i]), x, v);
  }

  predicate NamesNoEarlier(metrics: seq<Metric>, i: nat)
    requires i < |metrics|
  {
    forall k :: 0 <= k < i ==> metrics[k].name !in VariablesOf(metrics[i])
  }

  /** A working metric that names no earlier metric depends only on its support if and only if its variables lie
      in it. */
  lemma DirectExactly<V(!new)>(a: Arith<V>, sc: Scenario, constants: map<string, V>, i: nat, v: V)
    requires i < |sc.metrics| && Works(sc.metrics[i], constants.Keys) && NamesNoEarlier(sc.metrics, i)
    ensures Decided(a, sc, constants, i) <==> VariablesOf(sc.metrics[i]) <= Support(sc, i)
  {
    hide Works, VariablesOf, Support, Runs, Outcome;
    if VariablesOf(sc.metrics[i]) <= Support(sc, i) {
      forall m: map<string, V>, n: map<string, V> | Agree(m, n, Support(sc, i))
        ensures Outcome(a, sc.metrics, m, constants, i) == Outcome(a, sc.metrics, n, constants, i)
      {
        DirectReads(sc.metrics, constants.Keys, m.Keys, i);
        DirectReads(sc.metrics, constants.Keys, n.Keys, i);
        ReadsDecide(a, sc.metrics, m, n, constants, i, Support(sc, i));
      }
    } else {
      var x :| x in VariablesOf(sc.metrics[i]) && x !in Support(sc, i);
      ReadOutside(a, sc, constants, i, x, v);
    }
  }

  lemma DirectReads(metrics: seq<Metric>, constants: set<string>, measured: set<string>, i: nat)
    requires i < |metrics| && NamesNoEarlier(metrics, i)
    ensures forall y :: Reads(metrics, constants, measured, i, y) ==> y in VariablesOf(metrics[i])
  {
    hide Runs, VariablesOf, Provider;
    forall y | Reads(metrics, constants, measured, i, y) ensures y in VariablesOf(metrics[i]) {
      var x :| x in VariablesOf(metrics[i]) && Takes(metrics, constants, measured, i, x, y);
      ProviderIs(metrics, constants, measured, i, x);
    }
  }

  // ---- metrics that use earlier metrics -----------------------------------------------------------------------

  /** Up to metric `i` names are given once, and a metric's name is used only after it. */
  ghost predicate Orderly(metrics: seq<Metric>, i: nat)
    requires i < |metrics|
  {
    && (forall j, k :: 0 <= j < k <= i ==> metrics[j].name != metrics[k].name)
    && (forall j, k :: 0 <= k <= j <= i ==> metrics[j].name !in VariablesOf(metrics[k]))
  }

  /** A name that is read is taken by some metric for want of a provider. */
  lemma {:induction false} ReaderOf(metrics: seq<Metric>, constants: set<string>, measured: set<string>, i: nat, y: string) returns (h: nat)
    requires i < |metrics| && Reads(metrics, constants, measured, i, y)
    ensures h <= i && y in VariablesOf(metrics[h]) && Provider(metrics, constants, measured, h, y).None?
    decreases i
  {
    hide Runs, VariablesOf, Provider;
    var x :| x in VariablesOf(metrics[i]) && Takes(metrics, constants, measured, i, x, y);
    var p := Provider(metrics, constants, measured, i, x);
    if p.None? {
      h := i;
    } else {
      h := ReaderOf(metrics, constants, measured, p.value, y);
    }
  }

  /** In an orderly scenario no name of a metric that runs is itself read. */
  lemma RunningNotRead(metrics: seq<Metric>, constants: set<string>, measured: set<string>, i: nat, j: nat)
    requires i < |metrics| && Orderly(metrics, i) && j <= i && Runs(metrics, constants, measured, j)
    ensures !Reads(metrics, constants, measured, i, metrics[j].name)
  {
    hide Runs, VariablesOf, Provider, Reads;
    if Reads(metrics, constants, measured, i, metrics[j].name) {
      var h := ReaderOf(metrics, constants, measured, i, metrics[j].name);
      assert j < h;
      ProviderIs(metrics, constants, measured, h, metrics[j].name);
    }
  }

  /** Without a name it reads, and with no other names than metric `i` reads, a metric does not run. */
  lemma {:induction false} NeedsRead(metrics: seq<Metric>, constants: set<string>, measured: set<string>, rest: set<string>, i: nat, k: nat, y: string)
    requires k <= i < |metrics| && Orderly(metrics, i)
    requires Runs(metrics, constants, measured, k) && Reads(metrics, constants, measured, k, y)
    requires rest <= measured && y !in rest && forall z <- rest :: Reads(metrics, constants, measured, i, z)
    ensures !Runs(metrics, constants, rest, k)
    decreases k
  {
    hide Works, VariablesOf, Provider;
    var x :| x in VariablesOf(metrics[k]) && Takes(metrics, constants, measured, k, x, y);
    var p, q := Provider(metrics, constants, measured, k, x), Provider(metrics, constants, rest, k, x);
    ProviderIs(metrics, constants, measured, k, x);
    ProviderIs(metrics, constants, rest, k, x);
    if q.Some? { RunsMonotone(metrics, constants, rest, measured, q.value); }
    if p.Some? {
      RunningNotRead(metrics, constants, measured, i, p.value);
      assert x !in rest;
      NeedsRead(metrics, constants, measured, rest, i, p.value, y);
    }
    assert q.None? && x !in rest;
  }

  /** In an orderly scenario, for metrics that use earlier metrics to any depth: a metric depends only on its
      support if and only if, whichever names are measured, all it then reads lies there. */
  lemma DecidedExactly<V(!new)>(a: Arith<V>, sc: Scenario, constants: map<string, V>, i: nat, v: V)
    requires i < |sc.metrics| && Orderly(sc.metrics, i)
    ensures Decided(a, sc, constants, i)
       <==> forall measured :: ReadsWithin(sc.metrics, constants.Keys, measured, i, Support(sc, i))
  {
    hide Runs, Reads, Support, Outcome, Orderly;
    if forall measured :: ReadsWithin(sc.metrics, constants.Keys, measured, i, Support(sc, i)) {
      forall m: map<string, V>, n: map<string, V> | Agree(m, n, Support(sc, i))
        ensures Outcome(a, sc.metrics, m, constants, i) == Outcome(a, sc.metrics, n, constants, i)
      {
        ReadsDecide(a, sc.metrics, m, n, constants, i, Support(sc, i));
      }
    } else {
      var measured :| !ReadsWithin(sc.metrics, constants.Keys, measured, i, Support(sc, i));
      var y :| Reads(sc.metrics, constants.Keys, measured, i, y) && y !in Support(sc, i);
      OutsideReadShows(a, sc, constants, i, measured, y, v);
    }
  }

  lemma OutsideReadShows<V(!new)>(a: Arith<V>, sc: Scenario, constants: map<string, V>, i: nat, measured: set<string>, y: string, v: V)
    requires i < |sc.metrics| && Orderly(sc.metrics, i) && Runs(sc.metrics, constants.Keys, measured, i)
    requires Reads(sc.metrics, constants.Keys, measured, i, y) && y !in Support(sc, i)
    ensures !Decided(a, sc, constants, i)
  {
    hide Runs, Reads, Support, Decided, Orderly;
    var cs := constants.Keys;
    var read := set z | z in measured && Reads(sc.metrics, cs, measured, i, z);
    forall z | Reads(sc.metrics, cs, measured, i, z) ensures z in read { ReadsMeasured(sc.metrics, cs, measured, i, z); }
    RunsOnReads(sc.metrics, cs, measured, read, i);
    NeedsRead(sc.metrics, cs, measured, read - {y}, i, i, y);
    MissingName(a, sc, constants, i, read, y, v);
  }
}
