/** What a formula's value is, told apart from how the evaluator computes it. */
module Evaluation {
  import opened Basics
  import opened FormulaSyntax
  import opened TopDown

  // ---- a stack machine ----------------------------------------------------------------------------------------

  datatype Instr =
    | Measured(name: string) | Given(name: string) | Number(literal: string)
    | Do(op: Op) | Invoke(name: string, count: nat)

  /** The formula in postfix order: operands from left to right, then what is done with them. */
  function Postfix(e: Expr): seq<Instr>
    decreases e
  {
    match e
    case Variable(n) => [Measured(n)]
    case Constant(n) => [Given(n)]
    case Num(x) => [Number(x)]
    case Binary(op, l, r) => Postfix(l) + Postfix(r) + [Do(op)]
    case Call(n, args) => PostfixAll(args) + [Invoke(n, |args|)]
  }

  function PostfixAll(es: seq<Expr>): seq<Instr>
    decreases es
  {
    if es == [] then [] else Postfix(es[0]) + PostfixAll(es[1..])
  }

  /** One instruction on a stack whose top is its last element. */
  function Perform<V>(a: Arith<V>, i: Instr, stack: seq<V>,
                      values: map<string, V>, constants: map<string, V>): Option<seq<V>> {
    match i
    case Measured(n) => if n in values then Some(stack + [values[n]]) else None
    case Given(n) => if n in constants then Some(stack + [constants[n]]) else None
    case Number(x) => Some(stack + [a.number(x)])
    case Do(op) =>
      var k := |stack|;
      if k < 2 then None else Some(stack[..k - 2] + [a.binary(op, stack[k - 2], stack[k - 1])])
    case Invoke(n, count) =>
      if |stack| < count then None
      else
        var k := |stack| - count;
        match CallValue(a, n, stack[k..])
        case None => None
        case Some(v) => Some(stack[..k] + [v])
  }

  function Execute<V>(a: Arith<V>, code: seq<Instr>, stack: seq<V>,
                      values: map<string, V>, constants: map<string, V>): Option<seq<V>>
    decreases |code|
  {
    if code == [] then Some(stack)
    else
      match Perform(a, code[0], stack, values, constants)
      case None => None
      case Some(next) => Execute(a, code[1..], next, values, constants)
  }

  lemma {:induction false} ExecuteAppend<V>(a: Arith<V>, c: seq<Instr>, d: seq<Instr>, stack: seq<V>,
                        values: map<string, V>, constants: map<string, V>)
    ensures Execute(a, c + d, stack, values, constants)
         == match Execute(a, c, stack, values, constants) {
              case None => None
              case Some(mid) => Execute(a, d, mid, values, constants)
            }
    decreases |c|
  {
    hide Perform;
    if c == [] {
      assert c + d == d;
    } else {
      assert (c + d)[1..] == c[1..] + d;
      match Perform(a, c[0], stack, values, constants)
      case None =>
      case Some(next) => ExecuteAppend(a, c[1..], d, next, values, constants);
    }
  }

  lemma ExecuteOne<V>(a: Arith<V>, i: Instr, stack: seq<V>, values: map<string, V>, constants: map<string, V>)
    ensures Execute(a, [i], stack, values, constants) == Perform(a, i, stack, values, constants)
  {
    hide Perform;
    assert [i][1..] == [];
  }

  /** The evaluator computes what the postfix program leaves on the stack, and fails exactly if that fails. */
  lemma {:induction false} EvalIsPostfix<V>(a: Arith<V>, e: Expr, stack: seq<V>,
                        values: map<string, V>, constants: map<string, V>)
    ensures Execute(a, Postfix(e), stack, values, constants)
         == match Eval(a, e, values, constants) { case None => None case Some(v) => Some(stack + [v]) }
    decreases e
  {
    hide Execute, CallValue;
    match e
    case Binary(op, l, r) =>
      EvalIsPostfix(a, l, stack, values, constants);
      var left := Eval(a, l, values, constants);
      if left.Some? { EvalIsPostfix(a, r, stack + [left.value], values, constants); }
      BinaryTail(a, op, Postfix(l), Postfix(r), stack, left, Eval(a, r, values, constants), values, constants);
    case Call(n, args) =>
      ArgsArePostfix(a, args, stack, values, constants);
      ExecuteAppend(a, PostfixAll(args), [Invoke(n, |args|)], stack, values, constants);
      match EvalAll(a, args, values, constants) {
        case None =>
        case Some(vs) =>
          ExecuteOne(a, Invoke(n, |args|), stack + vs, values, constants);
          assert (stack + vs)[|stack|..] == vs && (stack + vs)[..|stack|] == stack;
      }
    case Variable(n) => ExecuteOne(a, Measured(n), stack, values, constants);
    case Constant(n) => ExecuteOne(a, Given(n), stack, values, constants);
    case Num(x) => ExecuteOne(a, Number(x), stack, values, constants);
  }

  lemma BinaryTail<V>(a: Arith<V>, op: Op, c: seq<Instr>, d: seq<Instr>, stack: seq<V>, left: Option<V>, right: Option<V>,
                      values: map<string, V>, constants: map<string, V>)
    requires Execute(a, c, stack, values, constants) == if left.None? then None else Some(stack + [left.value])
    requires left.Some? ==>
               Execute(a, d, stack + [left.value], values, constants)
               == if right.None? then None else Some(stack + [left.value] + [right.value])
    ensures Execute(a, c + d + [Do(op)], stack, values, constants)
         == if left.None? || right.None? then None else Some(stack + [a.binary(op, left.value, right.value)])
  {
    hide Execute;
    ExecuteAppend(a, c + d, [Do(op)], stack, values, constants);
    ExecuteAppend(a, c, d, stack, values, constants);
    if left.Some? && right.Some? {
      var full := stack + [left.value] + [right.value];
      ExecuteOne(a, Do(op), full, values, constants);
      assert full[..|full| - 2] == stack;
    }
  }

  lemma {:induction false} ArgsArePostfix<V>(a: Arith<V>, es: seq<Expr>, stack: seq<V>,
                        values: map<string, V>, constants: map<string, V>)
    ensures Execute(a, PostfixAll(es), stack, values, constants)
         == match EvalAll(a, es, values, constants) { case None => None case Some(vs) => Some(stack + vs) }
    ensures EvalAll(a, es, values, constants).Some? ==> |EvalAll(a, es, values, constants).value| == |es|
    decreases es
  {
    hide Perform, Eval, Postfix;
    if es == [] {
      assert stack + [] == stack;
    } else {
      EvalIsPostfix(a, es[0], stack, values, constants);
      ExecuteAppend(a, Postfix(es[0]), PostfixAll(es[1..]), stack, values, constants);
      var first := Eval(a, es[0], values, constants);
      if first.Some? {
        ArgsArePostfix(a, es[1..], stack + [first.value], values, constants);
        var rest := EvalAll(a, es[1..], values, constants);
        if rest.Some? { Assoc(stack, [first.value], rest.value); }
      } else {
        ArgsArePostfix(a, es[1..], stack, values, constants);
      }
    }
  }

  // ---- over the reals -----------------------------------------------------------------------------------------

  function Truth(b: bool): real { if b then 1.0 else 0.0 }

  /** The operators over the reals; a quotient by zero is left at zero and nothing is said about it. */
  function RealBinary(op: Op, x: real, y: real): real {
    match op
    case Add => x + y
    case Sub => x - y
    case Mul => x * y
    case Div => if y == 0.0 then 0.0 else x / y
    case Eq => Truth(x == y)
    case Lt => Truth(x < y)
    case Le => Truth(x <= y)
    case Gt => Truth(x > y)
    case Ge => Truth(x >= y)
  }

  /** Real arithmetic for formulas. */
  function RealArith(number: string -> real): Arith<real> {
    Arith(
      number,
      (op: Op, x: real, y: real) => RealBinary(op, x, y),
      (x: real, y: real) => if x <= y then x else y,
      (x: real, y: real) => if x >= y then x else y,
      (x: real) => if x < 0.0 then -x else x,
      (x: real) => x == 0.0)
  }

  function Value(number: string -> real, e: Expr, values: map<string, real>, constants: map<string, real>): Option<real> {
    Eval(RealArith(number), e, values, constants)
  }

  /** A result that is 1 if the condition holds and 0 if not. */
  predicate Tells(z: real, condition: bool) { (z == 1.0 <==> condition) && (z == 0.0 <==> !condition) }

  /** Each operator means what it is written as, its left operand on the left. */
  lemma OperatorLaws(number: string -> real, op: Op, l: Expr, r: Expr,
                     values: map<string, real>, constants: map<string, real>)
    requires Value(number, l, values, constants).Some? && Value(number, r, values, constants).Some?
    ensures Value(number, Binary(op, l, r), values, constants).Some?
    ensures var x, y := Value(number, l, values, constants).value, Value(number, r, values, constants).value;
      var z := Value(number, Binary(op, l, r), values, constants).value;
      match op
      case Add => z - y == x
      case Sub => z + y == x
      case Mul => z == x * y
      case Div => y != 0.0 ==> z * y == x
      case Eq => Tells(z, x == y)
      case Lt => Tells(z, x < y)
      case Le => Tells(z, !(y < x))
      case Gt => Tells(z, y < x)
      case Ge => Tells(z, !(x < y))
  {
    hide Value, RealBinary;
    BinaryIs(number, op, l, r, values, constants);
    BinaryLaw(op, Value(number, l, values, constants).value, Value(number, r, values, constants).value);
  }

  lemma BinaryLaw(op: Op, x: real, y: real)
    ensures var z := RealBinary(op, x, y);
      match op
      case Add => z - y == x
      case Sub => z + y == x
      case Mul => z == x * y
      case Div => y != 0.0 ==> z * y == x
      case Eq => Tells(z, x == y)
      case Lt => Tells(z, x < y)
      case Le => Tells(z, !(y < x))
      case Gt => Tells(z, y < x)
      case Ge => Tells(z, !(x < y))
  {
    match op
    case Div => if y != 0.0 { QuotientLaw(x, y); }
    case Le => TruthTells(x <= y, !(y < x));
    case Ge => TruthTells(x >= y, !(x < y));
    case _ =>
  }

  lemma TruthTells(b: bool, condition: bool)
    requires b <==> condition
    ensures Tells(Truth(b), condition)
  {
  }

  lemma BinaryIs(number: string -> real, op: Op, l: Expr, r: Expr, values: map<string, real>, constants: map<string, real>)
    requires Value(number, l, values, constants).Some? && Value(number, r, values, constants).Some?
    ensures Value(number, Binary(op, l, r), values, constants)
         == Some(RealBinary(op, Value(number, l, values, constants).value, Value(number, r, values, constants).value))
  {
    hide RealBinary;
  }

  lemma QuotientLaw(x: real, y: real)
    requires y != 0.0
    ensures x / y * y == x
  {
  }

  /** The values of a call's arguments, if all have one. */
  function Values(number: string -> real, args: seq<Expr>,
                  values: map<string, real>, constants: map<string, real>): Option<seq<real>> {
    EvalAll(RealArith(number), args, values, constants)
  }

  /** The arguments of a call are evaluated one by one, in order. */
  lemma {:induction false} ArgumentsAt(number: string -> real, args: seq<Expr>,
                        values: map<string, real>, constants: map<string, real>)
    ensures Values(number, args, values, constants).Some?
       <==> forall k :: 0 <= k < |args| ==> Value(number, args[k], values, constants).Some?
    ensures Values(number, args, values, constants).Some? ==>
              && |Values(number, args, values, constants).value| == |args|
              && forall k :: 0 <= k < |args| ==>
                   Value(number, args[k], values, constants) == Some(Values(number, args, values, constants).value[k])
    decreases args
  {
    hide Eval;
    if args != [] {
      ArgumentsAt(number, args[1..], values, constants);
      assert forall k :: 0 < k < |args| ==> args[k] == args[1..][k - 1];
      if forall k :: 0 <= k < |args| ==> Value(number, args[k], values, constants).Some? {
        assert forall k :: 0 <= k < |args[1..]| ==> args[1..][k] == args[k + 1];
      }
    }
  }

  /** `min` and `max` are the bounds of their two arguments, `abs` the distance from zero, and `if` takes its
      second argument exactly if the first is not zero; other calls have no value. */
  lemma CallLaws(number: string -> real, name: string, args: seq<Expr>,
                 values: map<string, real>, constants: map<string, real>)
    requires Values(number, args, values, constants).Some?
    ensures var vs, z := Values(number, args, values, constants).value, Value(number, Call(name, args), values, constants);
      && |vs| == |args|
      && (Lower(name) == "min" && |args| == 2 ==>
            z.Some? && z.value <= vs[0] && z.value <= vs[1] && (z.value == vs[0] || z.value == vs[1]))
      && (Lower(name) == "max" && |args| == 2 ==>
            z.Some? && z.value >= vs[0] && z.value >= vs[1] && (z.value == vs[0] || z.value == vs[1]))
      && (Lower(name) == "abs" && |args| == 1 ==>
            z.Some? && z.value >= 0.0 && (z.value == vs[0] || z.value + vs[0] == 0.0))
      && (Lower(name) == "if" && |args| == 3 ==>
            z.Some? && (vs[0] != 0.0 ==> z.value == vs[1]) && (vs[0] == 0.0 ==> z.value == vs[2]))
      && (z.Some? ==> (Lower(name) == "min" && |args| == 2) || (Lower(name) == "max" && |args| == 2)
                      || (Lower(name) == "abs" && |args| == 1) || (Lower(name) == "if" && |args| == 3))
  {
    hide Eval, Lower;
    ArgumentsAt(number, args, values, constants);
    CallIs(number, name, args, values, constants);
  }

  lemma CallIs(number: string -> real, name: string, args: seq<Expr>,
               values: map<string, real>, constants: map<string, real>)
    requires Values(number, args, values, constants).Some?
    ensures Value(number, Call(name, args), values, constants)
         == CallValue(RealArith(number), name, Values(number, args, values, constants).value)
  {
    hide CallValue;
  }

  /** Function names are compared letter by letter, capitals standing for small letters. */
  lemma {:induction false} LowerExact(s: string, k: nat)
    requires k < |s|
    ensures |Lower(s)| == |s|
    ensures 'A' <= s[k] <= 'Z' ==> Lower(s)[k] as int - 'a' as int == s[k] as int - 'A' as int
    ensures !('A' <= s[k] <= 'Z') ==> Lower(s)[k] == s[k]
  {
    if |s| > 1 { LowerExact(s[1..], if k > 0 then k - 1 else 0); }
  }

  /** A metric's depth is one more than the number of dots in its name. */
  lemma {:induction false} DepthExact(name: string)
    ensures Depth(name) == 1 + |DotPlaces(name)|
    decreases |name|
  {
    hide DotPlaces;
    if name != "" {
      DepthExact(name[..|name| - 1]);
    }
    DotPlacesGrow(name);
  }

  function DotPlaces(name: string): set<nat> { set i | 0 <= i < |name| && name[i] == '.' }

  lemma DotPlacesGrow(name: string)
    ensures name == "" ==> DotPlaces(name) == {}
    ensures name != "" ==> |DotPlaces(name)| == |DotPlaces(name[..|name| - 1])| + if name[|name| - 1] == '.' then 1 else 0
  {
    if name != "" {
      var before, n: nat := DotPlaces(name[..|name| - 1]), |name| - 1;
      if name[n] == '.' {
        assert DotPlaces(name) == before + {n};
      } else {
        assert DotPlaces(name) == before;
      }
    }
  }
}
