/** The parser accepts exactly the written formulas, and inverts the minimal-parenthesis printer. */
module FormulaTheorems {
  import opened Basics
  import opened FormulaSyntax
  import opened FormulaParser

  // ---- what may follow ----------------------------------------------------------------------------------------

  /** Characters that end a formula of the given level. */
  predicate StopChar(c: char, level: nat) {
    || c == ')' || c == ','
    || (level >= 1 && (c == '<' || c == '>' || c == '='))
    || (level >= 2 && (c == '+' || c == '-'))
    || (level >= 3 && (c == '*' || c == '/'))
  }

  predicate Stops(s: string, k: nat, level: nat)
    requires k <= |s|
  {
    var j := Skip(s, k);
    j == |s| || StopChar(s[j], level)
  }

  lemma StopsHigher(s: string, k: nat, low: nat, high: nat)
    requires k <= |s| && Stops(s, k, low) && low <= high
    ensures Stops(s, k, high)
  {
  }

  lemma StopsAtOp(s: string, k: nat, op: Op, level: nat)
    requires k <= |s| && TokenAt(s, Skip(s, k), OpText(op)) && level > OpLevel(op)
    ensures Stops(s, k, level)
  {
    hide Skip;
    var j := Skip(s, k);
    assert s[j] == s[j..j + |OpText(op)|][0] == OpText(op)[0];
  }

  lemma WordStops(s: string, k: nat)
    requires k <= |s| && Stops(s, k, 3)
    ensures k == |s| || !IsWord(s[k])
  {
    var j := Skip(s, k);
    if k < j { assert IsSpace(s[k]); }
  }

  lemma TokenChar(s: string, j: nat, c: char)
    ensures TokenAt(s, j, [c]) <==> At(s, j, c)
  {
    if j < |s| { assert s[j..j + 1] == [s[j]]; }
  }

  lemma TokenHead(s: string, j: nat, tok: string)
    requires TokenAt(s, j, tok) && tok != []
    ensures j < |s| && s[j] == tok[0]
  {
    assert s[j..j + |tok|][0] == s[j];
  }

  // ---- lexing -------------------------------------------------------------------------------------------------

  lemma NameReads(s: string, j: nat, n: string)
    requires TokenAt(s, j, n) && NameOk(n) && (j + |n| == |s| || !IsWord(s[j + |n|]))
    ensures NameAt(s, j) == Some(j + |n|) && s[j..j + |n|] == n
  {
    hide IsWord, IsLetter;
    var k := j + |n|;
    forall m | j <= m < k ensures IsWord(s[m]) { assert s[m] == s[j..k][m - j]; }
    assert WordEnd(s, j) == k;
  }

  lemma LiteralReads(s: string, j: nat, x: string)
    requires TokenAt(s, j, x) && LiteralOk(x) && (j + |x| == |s| || !IsNumeral(s[j + |x|]))
    ensures NumeralEnd(s, j) == j + |x| && s[j..j + |x|] == x
  {
    hide IsNumeral, Dots;
    var k := j + |x|;
    forall m | j <= m < k ensures IsNumeral(s[m]) { assert s[m] == s[j..k][m - j]; }
  }

  // ---- splitting what was read --------------------------------------------------------------------------------

  lemma SplitFirst(s: string, i: nat, tok: string, rest: seq<string>, k: nat)
    requires i <= |s| && ReadTokens(s, i, [tok] + rest) == Some(k)
    ensures TokenAt(s, Skip(s, i), tok) && ReadTokens(s, Skip(s, i) + |tok|, rest) == Some(k)
  {
    assert ([tok] + rest)[1..] == rest;
  }

  lemma SplitMiddle(s: string, i: nat, a: seq<string>, tok: string, b: seq<string>, k: nat) returns (m: nat)
    requires i <= |s| && ReadTokens(s, i, a + [tok] + b) == Some(k)
    ensures i <= m <= |s| && ReadTokens(s, i, a) == Some(m)
    ensures TokenAt(s, Skip(s, m), tok) && ReadTokens(s, Skip(s, m) + |tok|, b) == Some(k)
  {
    hide ReadTokens, Skip, TokenAt;
    Assoc(a, [tok], b);
    ReadAppend(s, i, a, [tok] + b);
    m := ReadTokens(s, i, a).value;
    SplitFirst(s, m, tok, b, k);
  }

  lemma JoinMiddle(s: string, i: nat, a: seq<string>, tok: string, b: seq<string>, m: nat)
    requires i <= m <= |s| && ReadTokens(s, i, a) == Some(m) && TokenAt(s, Skip(s, m), tok)
    ensures Skip(s, m) + |tok| <= |s|
    ensures ReadTokens(s, i, a + [tok] + b) == ReadTokens(s, Skip(s, m) + |tok|, b)
  {
    hide Skip, ReadTokens, TokenAt;
    Assoc(a, [tok], b);
    ReadAppend(s, i, a, [tok] + b);
    ReadFirst(s, m, [tok] + b);
    TokenFits(s, Skip(s, m), tok);
    assert ([tok] + b)[1..] == b;
  }

  // ---- every written formula parses ---------------------------------------------------------------------------

  /** The parse succeeded with `e` and stopped at `k`, up to white space. */
  predicate Arrives(r: Parsed, s: string, e: Expr, k: nat)
    requires k <= |s|
  {
    r.Parsed? && r.expr == e && r.next <= |s| && Skip(s, r.next) == Skip(s, k)
  }

  lemma RestSame(s: string, i: nat, k: nat, e: Expr)
    requires i <= |s| && k <= |s| && Skip(s, i) == Skip(s, k)
    ensures ProductRest(s, i, e) == ProductRest(s, k, e) && SumRest(s, i, e) == SumRest(s, k, e)
  {
  }

  lemma AtomName(s: string, i: nat, n: string, k: nat)
    requires i <= |s| && VariableOk(n) && ReadTokens(s, i, [n]) == Some(k) && Stops(s, k, 3)
    ensures Arrives(AtomAt(s, i), s, Variable(n), k)
  {
    hide IsWord, IsLetter, IsSpace, NameAt, Skip;
    ReadOne(s, i, n);
    var j := Skip(s, i);
    WordStops(s, k);
    NameReads(s, j, n);
    TokenHead(s, j, n);
    WordHead(n);
    SkipSame(s, k, Skip(s, k));
  }

  /** A name starts with neither of the characters that open other atoms. */
  lemma WordHead(n: string)
    requires NameOk(n)
    ensures n != "" && n[0] != '(' && n[0] != '$' && !IsSpace(n[0])
  {
    assert IsWord(n[0]);
  }

  lemma AtomDollar(s: string, i: nat, n: string, k: nat)
    requires i <= |s| && NameOk(n) && ReadTokens(s, i, ["$" + n]) == Some(k) && Stops(s, k, 3)
    ensures Arrives(AtomAt(s, i), s, Constant(n), k)
  {
    hide IsWord, IsLetter, IsSpace, NameAt, Skip, NameOk;
    ReadOne(s, i, "$" + n);
    var j := Skip(s, i);
    WordStops(s, k);
    TokenHead(s, j, "$" + n);
    assert s[j + 1..k] == s[j..k][1..] == n;
    NameReads(s, j + 1, n);
  }

  lemma AtomLiteral(s: string, i: nat, x: string, k: nat)
    requires i <= |s| && LiteralOk(x) && ReadTokens(s, i, [x]) == Some(k) && Stops(s, k, 3)
    ensures Arrives(AtomAt(s, i), s, Num(x), k)
  {
    hide IsSpace, NameAt, Skip, Dots, NumeralEnd;
    ReadOne(s, i, x);
    var j := Skip(s, i);
    WordStops(s, k);
    LiteralReads(s, j, x);
    TokenHead(s, j, x);
    assert IsNumeral(x[0]);
  }

  lemma AtomParses(s: string, i: nat, t: Tree, k: nat)
    requires i <= |s| && Fits(t, 3) && ReadTokens(s, i, Tokens(t)) == Some(k) && Stops(s, k, 3)
    ensures Arrives(AtomAt(s, i), s, Strip(t), k)
    decreases t, 0
  {
    hide ReadTokens, AtomAt, Skip, VariableOk, NameOk, LiteralOk;
    match t
    case Name(n) => AtomName(s, i, n, k);
    case Dollar(n) => AtomDollar(s, i, n, k);
    case Literal(x) => AtomLiteral(s, i, x, k);
    case Apply(n, args) => ApplyParses(s, i, n, args, k);
    case Paren(u) => ParenParses(s, i, u, k);
  }

  lemma ParenParses(s: string, i: nat, u: Tree, k: nat)
    requires i <= |s| && Fits(u, 1) && ReadTokens(s, i, ["("] + Tokens(u) + [")"]) == Some(k)
    ensures Arrives(AtomAt(s, i), s, Strip(u), k)
    decreases u, 6
  {
    hide ReadTokens, SumAt, Tokens, Strip, Fits, Skip;
    Assoc(["("], Tokens(u), [")"]);
    SplitFirst(s, i, "(", Tokens(u) + [")"], k);
    var j := Skip(s, i);
    TokenChar(s, j, '(');
    assert Tokens(u) + [")"] + [] == Tokens(u) + [")"];
    var m := SplitMiddle(s, j + 1, Tokens(u), ")", [], k);
    ReadNothing(s, Skip(s, m) + 1);
    TokenChar(s, Skip(s, m), ')');
    SumParses(s, j + 1, u, m);
  }

  lemma ApplyParses(s: string, i: nat, n: string, args: seq<Tree>, k: nat)
    requires i <= |s| && VariableOk(n) && AllFit(args) && ReadTokens(s, i, [n, "("] + ArgTokens(args)) == Some(k)
    ensures Arrives(AtomAt(s, i), s, Call(n, StripAll(args)), k)
    decreases args, 8
  {
    hide ReadTokens, ArgTokens, StripAll, AllFit, Skip, IsSpace, IsWord, IsLetter, NameAt, Arguments;
    assert [n, "("] + ArgTokens(args) == [n] + (["("] + ArgTokens(args));
    SplitFirst(s, i, n, ["("] + ArgTokens(args), k);
    var j := Skip(s, i);
    var a := j + |n|;
    SplitFirst(s, a, "(", ArgTokens(args), k);
    var b := Skip(s, a);
    TokenChar(s, b, '(');
    TokenHead(s, j, n);
    WordHead(n);
    ParenEndsWord(s, a);
    NameReads(s, j, n);
    CallParses(s, n, a, args, k);
  }

  lemma ParenEndsWord(s: string, a: nat)
    requires a <= |s| && At(s, Skip(s, a), '(')
    ensures a < |s| && !IsWord(s[a])
  {
    if a < Skip(s, a) { assert IsSpace(s[a]); }
  }

  lemma CallParses(s: string, n: string, a: nat, args: seq<Tree>, k: nat)
    requires a <= |s| && At(s, Skip(s, a), '(') && AllFit(args)
    requires ReadTokens(s, Skip(s, a) + 1, ArgTokens(args)) == Some(k)
    ensures Arrives(Named(s, n, a), s, Call(n, StripAll(args)), k)
    decreases args, 7
  {
    hide ReadTokens, Skip, Strip, Fits, Tokens, IsWord, IsSpace, Arguments;
    var b := Skip(s, a) + 1;
    var c := Skip(s, b);
    if args == [] {
      ReadOne(s, b, ")");
      TokenChar(s, c, ')');
    } else {
      FirstArgument(s, b, args, k);
      SkipSame(s, b, c);
      ReadSame(s, b, c, ArgTokens(args));
      ArgumentsParse(s, c, args, [], k);
    }
  }

  /** The first argument does not start with the closing parenthesis. */
  lemma FirstArgument(s: string, b: nat, args: seq<Tree>, k: nat)
    requires b <= |s| && args != [] && AllFit(args) && ReadTokens(s, b, ArgTokens(args)) == Some(k)
    ensures !At(s, Skip(s, b), ')') && ArgTokens(args) != []
  {
    hide Skip, Tokens, Fits;
    FirstToken(args[0], 0);
    var toks := ArgTokens(args);
    assert toks[0] == Tokens(args[0])[0];
    TokenHead(s, Skip(s, b), toks[0]);
  }

  lemma ArgumentsParse(s: string, i: nat, ts: seq<Tree>, done: seq<Expr>, k: nat)
    requires i <= |s| && ts != [] && AllFit(ts) && ReadTokens(s, i, ArgTokens(ts)) == Some(k)
    ensures Arguments(s, i, done) == ParsedArgs(done + StripAll(ts), k)
    decreases ts, 6
  {
    hide ReadTokens, Skip, Strip, Fits, Tokens, ComparisonAt, IsSpace;
    var first := Tokens(ts[0]);
    if |ts| == 1 {
      assert first + [")"] + [] == first + [")"];
      var m := SplitMiddle(s, i, first, ")", [], k);
      ReadNothing(s, Skip(s, m) + 1);
      TokenChar(s, Skip(s, m), ')');
      ComparisonParses(s, i, ts[0], m);
      assert StripAll(ts) == [Strip(ts[0])];
    } else {
      Assoc(first, [","], ArgTokens(ts[1..]));
      var m := SplitMiddle(s, i, first, ",", ArgTokens(ts[1..]), k);
      TokenChar(s, Skip(s, m), ',');
      ComparisonParses(s, i, ts[0], m);
      ArgumentsParse(s, Skip(s, m) + 1, ts[1..], done + [Strip(ts[0])], k);
      Assoc(done, [Strip(ts[0])], StripAll(ts[1..]));
    }
  }

  /** The parts of an operator node, or the next tighter level. */
  lemma NodeParts(t: Tree, level: nat)
    requires 1 <= level <= 2 && Fits(t, level)
    ensures t.Node? && OpLevel(t.op) == level ==>
              && Fits(t.left, level) && Fits(t.right, level + 1)
              && Tokens(t) == Tokens(t.left) + [OpText(t.op)] + Tokens(t.right)
              && Strip(t) == Binary(t.op, Strip(t.left), Strip(t.right))
              && |OpText(t.op)| == 1
    ensures !(t.Node? && OpLevel(t.op) == level) ==> Fits(t, level + 1)
  {
  }

  /** A product-level formula is read up to its end and the chain continues from there. */
  lemma ProductSpine(s: string, i: nat, t: Tree, k: nat)
    requires i <= |s| && Fits(t, 2) && ReadTokens(s, i, Tokens(t)) == Some(k) && Stops(s, k, 3)
    ensures ProductAt(s, i) == ProductRest(s, k, Strip(t))
    decreases t, 1
  {
    hide ReadTokens, AtomAt, Skip, IsSpace, Stops, Tokens, Strip, Fits;
    NodeParts(t, 2);
    if t.Node? && OpLevel(t.op) == 2 {
      var m := SplitMiddle(s, i, Tokens(t.left), OpText(t.op), Tokens(t.right), k);
      var j := Skip(s, m);
      StopsAtOp(s, m, t.op, 3);
      ProductSpine(s, i, t.left, m);
      ProductStep(s, m, t.op, Strip(t.left));
      AtomParses(s, j + 1, t.right, k);
      RestSame(s, AtomAt(s, j + 1).next, k, Strip(t));
    } else {
      AtomParses(s, i, t, k);
      RestSame(s, AtomAt(s, i).next, k, Strip(t));
    }
  }

  lemma ProductStep(s: string, m: nat, op: Op, lhs: Expr)
    requires m <= |s| && OpLevel(op) == 2 && TokenAt(s, Skip(s, m), OpText(op))
    ensures Skip(s, m) + 1 <= |s|
    ensures var r := AtomAt(s, Skip(s, m) + 1);
      r.Parsed? ==> ProductRest(s, m, lhs) == ProductRest(s, r.next, Binary(op, lhs, r.expr))
  {
    hide AtomAt, Skip, IsSpace;
    TokenHead(s, Skip(s, m), OpText(op));
  }

  lemma ProductParses(s: string, i: nat, t: Tree, k: nat)
    requires i <= |s| && Fits(t, 2) && ReadTokens(s, i, Tokens(t)) == Some(k) && Stops(s, k, 2)
    ensures Arrives(ProductAt(s, i), s, Strip(t), k)
    decreases t, 2
  {
    hide ReadTokens, Tokens, Fits, Strip, ProductAt, Skip, IsSpace;
    StopsHigher(s, k, 2, 3);
    ProductSpine(s, i, t, k);
    SkipSame(s, k, Skip(s, k));
  }

  lemma SumSpine(s: string, i: nat, t: Tree, k: nat)
    requires i <= |s| && Fits(t, 1) && ReadTokens(s, i, Tokens(t)) == Some(k) && Stops(s, k, 2)
    ensures SumAt(s, i) == SumRest(s, k, Strip(t))
    decreases t, 3
  {
    hide ReadTokens, ProductAt, Skip, IsSpace, Stops, Tokens, Strip, Fits;
    NodeParts(t, 1);
    if t.Node? && OpLevel(t.op) == 1 {
      var m := SplitMiddle(s, i, Tokens(t.left), OpText(t.op), Tokens(t.right), k);
      var j := Skip(s, m);
      StopsAtOp(s, m, t.op, 2);
      SumSpine(s, i, t.left, m);
      SumStep(s, m, t.op, Strip(t.left));
      ProductParses(s, j + 1, t.right, k);
      RestSame(s, ProductAt(s, j + 1).next, k, Strip(t));
    } else {
      ProductParses(s, i, t, k);
      RestSame(s, ProductAt(s, i).next, k, Strip(t));
    }
  }

  lemma SumStep(s: string, m: nat, op: Op, lhs: Expr)
    requires m <= |s| && OpLevel(op) == 1 && TokenAt(s, Skip(s, m), OpText(op))
    ensures Skip(s, m) + 1 <= |s|
    ensures var r := ProductAt(s, Skip(s, m) + 1);
      r.Parsed? ==> SumRest(s, m, lhs) == SumRest(s, r.next, Binary(op, lhs, r.expr))
  {
    hide ProductAt, Skip, IsSpace;
    TokenHead(s, Skip(s, m), OpText(op));
  }

  lemma SumParses(s: string, i: nat, t: Tree, k: nat)
    requires i <= |s| && Fits(t, 1) && ReadTokens(s, i, Tokens(t)) == Some(k) && Stops(s, k, 1)
    ensures Arrives(SumAt(s, i), s, Strip(t), k)
    decreases t, 4
  {
    hide ReadTokens, Tokens, Fits, Strip, SumAt, Skip, IsSpace;
    StopsHigher(s, k, 1, 2);
    SumSpine(s, i, t, k);
    SkipSame(s, k, Skip(s, k));
  }

  /** A comparison operator is recognised in full because no operand starts with an equals sign. */
  lemma CompareReads(s: string, j: nat, op: Op)
    requires TokenAt(s, j, OpText(op)) && OpLevel(op) == 0 && !At(s, j + |OpText(op)|, '=')
    ensures CompareOp(s, j) == Some((op, |OpText(op)|))
  {
    TokenHead(s, j, OpText(op));
    if |OpText(op)| == 2 {
      assert s[j..j + 2][1] == s[j + 1];
    } else if j + 2 <= |s| {
      assert s[j..j + 2][1] == s[j + 1];
    }
  }

  lemma OperandNotEquals(s: string, p: nat, t: Tree, k: nat)
    requires p <= |s| && Fits(t, 1) && ReadTokens(s, p, Tokens(t)) == Some(k)
    ensures !At(s, p, '=')
  {
    hide Fits, Tokens;
    FirstToken(t, 1);
    TokenHead(s, Skip(s, p), Tokens(t)[0]);
    if p < Skip(s, p) { assert IsSpace(s[p]); }
  }

  lemma NoCompare(s: string, k: nat)
    requires k <= |s| && Stops(s, k, 0)
    ensures CompareOp(s, Skip(s, k)).None?
  {
    hide Skip;
    var j := Skip(s, k);
    if j + 2 <= |s| { assert s[j..j + 2][0] == s[j]; }
  }

  lemma ComparisonParses(s: string, i: nat, t: Tree, k: nat)
    requires i <= |s| && Fits(t, 0) && ReadTokens(s, i, Tokens(t)) == Some(k) && Stops(s, k, 0)
    ensures Arrives(ComparisonAt(s, i), s, Strip(t), k)
    decreases t, 5
  {
    hide ReadTokens, SumAt, Skip, IsSpace, CompareOp, Stops;
    StopsHigher(s, k, 0, 1);
    if t.Node? && OpLevel(t.op) == 0 {
      var m := SplitMiddle(s, i, Tokens(t.left), OpText(t.op), Tokens(t.right), k);
      var j := Skip(s, m);
      StopsAtOp(s, m, t.op, 1);
      SumParses(s, i, t.left, m);
      OperandNotEquals(s, j + |OpText(t.op)|, t.right, k);
      CompareReads(s, j, t.op);
      SumParses(s, j + |OpText(t.op)|, t.right, k);
    } else {
      SumParses(s, i, t, k);
      NoCompare(s, k);
      SkipSame(s, k, Skip(s, k));
    }
  }

  // ---- everything that parses was written ---------------------------------------------------------------------

  /** The text from `i` is the tree `t` up to `k`, and the parse gave its formula and stopped there, up to
      white space. */
  ghost predicate Wrote(r: Parsed, s: string, i: nat, t: Tree, k: nat, level: nat)
    requires i <= |s|
  {
    && k <= |s| && Fits(t, level) && ReadTokens(s, i, Tokens(t)) == Some(k)
    && Arrives(r, s, Strip(t), k)
  }

  lemma AtomTree(s: string, i: nat) returns (t: Tree, k: nat)
    requires i <= |s| && AtomAt(s, i).Parsed?
    ensures Wrote(AtomAt(s, i), s, i, t, k, 3)
    decreases |s| - i, 1
  {
    hide Skip, IsSpace, ReadTokens, Named, SumAt, NameOk, LiteralOk, IsNumeral;
    var j := Skip(s, i);
    if At(s, j, '(') {
      t, k := GroupedTree(s, i);
    } else if At(s, j, '$') {
      k := NameAt(s, j + 1).value;
      t := Dollar(s[j + 1..k]);
      assert s[j..k] == "$" + s[j + 1..k];
      ReadOne(s, i, "$" + s[j + 1..k]);
    } else if IsNumeral(s[j]) {
      k := NumeralEnd(s, j);
      t := Literal(s[j..k]);
      ReadOne(s, i, s[j..k]);
    } else {
      var a := NameAt(s, j).value;
      assert s[j..a][0] == s[j];
      ReadOne(s, i, s[j..a]);
      t, k := NamedTree(s, i, s[j..a], a);
    }
  }

  lemma GroupedTree(s: string, i: nat) returns (t: Tree, k: nat)
    requires i <= |s| && At(s, Skip(s, i), '(') && Grouped(s, Skip(s, i) + 1).Parsed?
    ensures Wrote(Grouped(s, Skip(s, i) + 1), s, i, t, k, 3)
    decreases |s| - Skip(s, i), 0
  {
    hide Skip, IsSpace, ReadTokens, SumAt;
    var j := Skip(s, i);
    var u, m := SumTree(s, j + 1);
    var c := Skip(s, m);
    t, k := Paren(u), c + 1;
    TokenChar(s, j, '(');
    TokenChar(s, c, ')');
    ReadOne(s, i, "(");
    ReadAppend(s, i, ["("], Tokens(u));
    JoinMiddle(s, i, ["("] + Tokens(u), ")", [], m);
    ReadNothing(s, c + 1);
    assert ["("] + Tokens(u) + [")"] + [] == Tokens(t);
  }

  lemma NamedTree(s: string, i: nat, n: string, a: nat) returns (t: Tree, k: nat)
    requires i < a <= |s| && VariableOk(n) && ReadTokens(s, i, [n]) == Some(a) && Named(s, n, a).Parsed?
    ensures Wrote(Named(s, n, a), s, i, t, k, 3)
    decreases |s| - a, 7
  {
    hide Skip, IsSpace, VariableOk, ReadTokens, Arguments, ArgTokens, AllFit, StripAll;
    var j := Skip(s, a);
    if !At(s, j, '(') {
      t, k := Name(n), a;
      SkipSame(s, a, j);
    } else {
      var ts;
      ts, k := CallTree(s, n, a);
      t := Apply(n, ts);
      TokenChar(s, j, '(');
      JoinMiddle(s, i, [n], "(", ArgTokens(ts), a);
      assert [n] + ["("] + ArgTokens(ts) == Tokens(t);
    }
  }

  lemma CallTree(s: string, n: string, a: nat) returns (ts: seq<Tree>, k: nat)
    requires a <= |s| && At(s, Skip(s, a), '(') && Named(s, n, a).Parsed?
    ensures AllFit(ts) && k <= |s| && ReadTokens(s, Skip(s, a) + 1, ArgTokens(ts)) == Some(k)
    ensures Named(s, n, a) == Parsed(Call(n, StripAll(ts)), k)
    decreases |s| - a, 6
  {
    hide Skip, IsSpace, ReadTokens, Arguments, Strip, Fits, Tokens;
    var b := Skip(s, a) + 1;
    var c := Skip(s, b);
    if At(s, c, ')') {
      ts, k := [], c + 1;
      TokenChar(s, c, ')');
      ReadOne(s, b, ")");
    } else {
      ts, k := ArgumentsTree(s, c, []);
      SkipSame(s, b, c);
      ReadSame(s, b, c, ArgTokens(ts));
      assert [] + StripAll(ts) == StripAll(ts);
    }
  }

  lemma ArgumentsTree(s: string, i: nat, done: seq<Expr>) returns (ts: seq<Tree>, k: nat)
    requires i <= |s| && Arguments(s, i, done).ParsedArgs?
    ensures ts != [] && AllFit(ts) && k <= |s| && ReadTokens(s, i, ArgTokens(ts)) == Some(k) && ArgTokens(ts) != []
    ensures Arguments(s, i, done) == ParsedArgs(done + StripAll(ts), k)
    decreases |s| - i, 5
  {
    hide Skip, IsSpace, ReadTokens, ComparisonAt, Tokens, Strip, Fits;
    var t, m := ComparisonTree(s, i);
    var j := Skip(s, m);
    k := j + 1;
    if At(s, j, ')') {
      ts := [t];
      TokenChar(s, j, ')');
      JoinMiddle(s, i, Tokens(t), ")", [], m);
      ReadNothing(s, j + 1);
      assert Tokens(t) + [")"] + [] == ArgTokens(ts);
      assert ts[1..] == [] && StripAll(ts) == [Strip(t)];
    } else {
      var rest;
      rest, k := ArgumentsTree(s, j + 1, done + [Strip(t)]);
      ts := [t] + rest;
      TokenChar(s, j, ',');
      JoinMiddle(s, i, Tokens(t), ",", ArgTokens(rest), m);
      assert ts[1..] == rest;
      assert Tokens(t) + [","] + ArgTokens(rest) == ArgTokens(ts);
      Assoc(done, [Strip(t)], StripAll(rest));
    }
  }

  lemma ProductTree(s: string, i: nat) returns (t: Tree, k: nat)
    requires i <= |s| && ProductAt(s, i).Parsed?
    ensures Wrote(ProductAt(s, i), s, i, t, k, 2)
    decreases |s| - i, 2
  {
    hide Skip, IsSpace, ReadTokens, AtomAt, Tokens, Strip;
    var left, m := AtomTree(s, i);
    AtomIsProduct(left);
    t, k := ProductRestTree(s, i, left, m, AtomAt(s, i).next);
  }

  lemma AtomIsProduct(t: Tree)
    requires Fits(t, 3)
    ensures Fits(t, 2)
  {
  }

  lemma NodeIs(op: Op, l: Tree, r: Tree, level: nat)
    requires 1 <= level == OpLevel(op) && Fits(l, level) && Fits(r, level + 1)
    ensures var t := Node(op, l, r);
      Fits(t, level) && Tokens(t) == Tokens(l) + [OpText(op)] + Tokens(r) && Strip(t) == Binary(op, Strip(l), Strip(r))
  {
  }

  lemma ProductRestTree(s: string, start: nat, left: Tree, m: nat, i: nat) returns (t: Tree, k: nat)
    requires start <= m <= |s| && start < i <= |s| && Skip(s, m) == Skip(s, i)
    requires Fits(left, 2) && ReadTokens(s, start, Tokens(left)) == Some(m)
    requires ProductRest(s, i, Strip(left)).Parsed?
    ensures Wrote(ProductRest(s, i, Strip(left)), s, start, t, k, 2)
    decreases |s| - i, 2
  {
    hide Skip, IsSpace, ReadTokens, AtomAt, Tokens, Strip, Fits;
    var j := Skip(s, m);
    if At(s, j, '*') || At(s, j, '/') {
      var op := if At(s, j, '*') then Mul else Div;
      var right, n := AtomTree(s, j + 1);
      TokenChar(s, j, '*');
      TokenChar(s, j, '/');
      JoinMiddle(s, start, Tokens(left), OpText(op), Tokens(right), m);
      var both := Node(op, left, right);
      NodeIs(op, left, right, 2);
      t, k := ProductRestTree(s, start, both, n, AtomAt(s, j + 1).next);
    } else {
      t, k := left, m;
      SkipSame(s, i, j);
    }
  }

  lemma SumTree(s: string, i: nat) returns (t: Tree, k: nat)
    requires i <= |s| && SumAt(s, i).Parsed?
    ensures Wrote(SumAt(s, i), s, i, t, k, 1)
    decreases |s| - i, 3
  {
    hide Skip, IsSpace, ReadTokens, ProductAt, Tokens, Strip;
    var left, m := ProductTree(s, i);
    ProductIsSum(left);
    t, k := SumRestTree(s, i, left, m, ProductAt(s, i).next);
  }

  lemma ProductIsSum(t: Tree)
    requires Fits(t, 2)
    ensures Fits(t, 1)
  {
  }

  lemma SumRestTree(s: string, start: nat, left: Tree, m: nat, i: nat) returns (t: Tree, k: nat)
    requires start <= m <= |s| && start < i <= |s| && Skip(s, m) == Skip(s, i)
    requires Fits(left, 1) && ReadTokens(s, start, Tokens(left)) == Some(m)
    requires SumRest(s, i, Strip(left)).Parsed?
    ensures Wrote(SumRest(s, i, Strip(left)), s, start, t, k, 1)
    decreases |s| - i, 3
  {
    hide Skip, IsSpace, ReadTokens, ProductAt, Tokens, Strip, Fits;
    var j := Skip(s, m);
    if At(s, j, '+') || At(s, j, '-') {
      var op := if At(s, j, '+') then Add else Sub;
      var right, n := ProductTree(s, j + 1);
      TokenChar(s, j, '+');
      TokenChar(s, j, '-');
      JoinMiddle(s, start, Tokens(left), OpText(op), Tokens(right), m);
      var both := Node(op, left, right);
      NodeIs(op, left, right, 1);
      t, k := SumRestTree(s, start, both, n, ProductAt(s, j + 1).next);
    } else {
      t, k := left, m;
      SkipSame(s, i, j);
    }
  }

  lemma ComparisonTree(s: string, i: nat) returns (t: Tree, k: nat)
    requires i <= |s| && ComparisonAt(s, i).Parsed?
    ensures Wrote(ComparisonAt(s, i), s, i, t, k, 0)
    decreases |s| - i, 4
  {
    hide Skip, IsSpace, ReadTokens, SumAt, CompareOp;
    var left, m := SumTree(s, i);
    var j := Skip(s, m);
    match CompareOp(s, j) {
      case None =>
        t, k := left, m;
        SumIsComparison(left);
        SkipSame(s, m, j);
      case Some(found) =>
        var right;
        right, k := SumTree(s, j + found.1);
        t := Node(found.0, left, right);
        JoinMiddle(s, i, Tokens(left), OpText(found.0), Tokens(right), m);
    }
  }

  lemma SumIsComparison(t: Tree)
    requires Fits(t, 1)
    ensures Fits(t, 0)
  {
  }

  // ---- the theorems -------------------------------------------------------------------------------------------

  /** `s` is a written form of `e`: some tree of it, with some white space around its tokens. */
  ghost predicate WrittenAs(s: string, e: Expr, t: Tree, gaps: seq<string>) {
    Fits(t, 0) && Strip(t) == e && Gaps(gaps, |Tokens(t)|) && s == Render(Tokens(t), gaps)
  }

  /** Every written form parses to its formula, whatever the white space. */
  lemma WrittenParses(s: string, e: Expr, t: Tree, gaps: seq<string>)
    requires WrittenAs(s, e, t, gaps)
    ensures Parse(s) == Parsed(e, |s|)
  {
    hide Tokens, Fits, Strip, ReadTokens, ComparisonAt, Skip, Render;
    TokensGood(t, 0);
    RenderReads("", Tokens(t), gaps);
    assert "" + s == s;
    var k := ReadTokens(s, 0, Tokens(t)).value;
    ComparisonParses(s, 0, t, k);
  }

  /** The parser accepts a text as `e` exactly if the text is a written form of `e`. */
  lemma ParseExactly(s: string, e: Expr)
    ensures Parse(s) == Parsed(e, |s|) <==> exists t, gaps :: WrittenAs(s, e, t, gaps)
    ensures Parse(s).Parsed? ==> Parse(s).next == |s|
  {
    hide WrittenAs, ComparisonAt, Skip;
    if t, gaps :| WrittenAs(s, e, t, gaps) { WrittenParses(s, e, t, gaps); }
    if Parse(s) == Parsed(e, |s|) { ParsedWritten(s, e); }
  }

  lemma ParsedWritten(s: string, e: Expr)
    requires Parse(s) == Parsed(e, |s|)
    ensures exists t, gaps :: WrittenAs(s, e, t, gaps)
  {
    hide ComparisonAt, Skip, Tokens, Fits, Strip, ReadTokens;
    var t, k := ComparisonTree(s, 0);
    var gaps := ReadsRender(s, 0, Tokens(t));
    assert s[0..] == s;
    assert WrittenAs(s, e, t, gaps);
  }

  // ---- the printer --------------------------------------------------------------------------------------------

  /** Formulas the parser can produce: well-formed names and numbers, and comparisons only at the top or as
      call arguments. */
  predicate Accepted(e: Expr, compare: bool)
    decreases e
  {
    match e
    case Binary(op, l, r) => (OpLevel(op) == 0 ==> compare) && Accepted(l, false) && Accepted(r, false)
    case Variable(n) => VariableOk(n)
    case Constant(n) => NameOk(n)
    case Num(x) => LiteralOk(x)
    case Call(n, args) => VariableOk(n) && AllAccepted(args)
  }

  predicate AllAccepted(es: seq<Expr>)
    decreases es
  {
    es == [] || (Accepted(es[0], true) && AllAccepted(es[1..]))
  }

  /** Writes a formula with parentheses only where the level demands them. */
  function Minimal(e: Expr, level: nat): Tree
    decreases e
  {
    match e
    case Binary(op, l, r) =>
      var own := OpLevel(op);
      var node := Node(op, Minimal(l, if own == 0 then 1 else own), Minimal(r, own + 1));
      if own < level then Paren(node) else node
    case Variable(n) => Name(n)
    case Constant(n) => Dollar(n)
    case Num(x) => Literal(x)
    case Call(n, args) => Apply(n, MinimalAll(args))
  }

  function MinimalAll(es: seq<Expr>): seq<Tree>
    decreases es
  {
    if es == [] then [] else [Minimal(es[0], 0)] + MinimalAll(es[1..])
  }

  lemma {:induction false} MinimalFits(e: Expr, level: nat)
    requires Accepted(e, level == 0)
    ensures Fits(Minimal(e, level), level) && Strip(Minimal(e, level)) == e
    decreases e
  {
    match e
    case Binary(op, l, r) =>
      MinimalFits(l, if OpLevel(op) == 0 then 1 else OpLevel(op));
      MinimalFits(r, OpLevel(op) + 1);
    case Call(n, args) => MinimalAllFit(args);
    case _ =>
  }

  lemma {:induction false} MinimalAllFit(es: seq<Expr>)
    requires AllAccepted(es)
    ensures AllFit(MinimalAll(es)) && StripAll(MinimalAll(es)) == es
    decreases es
  {
    if es != [] {
      MinimalFits(es[0], 0);
      MinimalAllFit(es[1..]);
      assert MinimalAll(es)[1..] == MinimalAll(es[1..]);
    }
  }

  lemma {:induction false} FitsAccepted(t: Tree, level: nat)
    requires Fits(t, level)
    ensures Accepted(Strip(t), level == 0)
    decreases t
  {
    match t
    case Node(op, l, r) =>
      FitsAccepted(l, if OpLevel(op) == 0 then 1 else OpLevel(op));
      FitsAccepted(r, OpLevel(op) + 1);
    case Apply(n, args) => AllFitAccepted(args);
    case Paren(u) =>
      FitsAccepted(u, 1);
      AcceptedEitherWay(Strip(u));
    case _ =>
  }

  lemma AcceptedEitherWay(e: Expr)
    requires Accepted(e, false)
    ensures Accepted(e, true)
  {
  }

  lemma {:induction false} AllFitAccepted(ts: seq<Tree>)
    requires AllFit(ts)
    ensures AllAccepted(StripAll(ts))
    decreases ts
  {
    if ts != [] {
      FitsAccepted(ts[0], 0);
      AllFitAccepted(ts[1..]);
      assert StripAll(ts)[1..] == StripAll(ts[1..]);
    }
  }

  /** The parser inverts the minimal-parenthesis printer: every accepted formula, printed with any white
      space between its tokens, parses back to itself. */
  lemma PrinterRoundTrip(e: Expr, gaps: seq<string>)
    requires Accepted(e, true) && Gaps(gaps, |Tokens(Minimal(e, 0))|)
    ensures var s := Render(Tokens(Minimal(e, 0)), gaps); Parse(s) == Parsed(e, |s|)
  {
    hide Accepted, Minimal, Tokens, Render, Parse, Fits, Strip;
    MinimalFits(e, 0);
    WrittenParses(Render(Tokens(Minimal(e, 0)), gaps), e, Minimal(e, 0), gaps);
  }

  /** Only accepted formulas come out of the parser, so reprinting any accepted text gives a text with the
      same meaning. */
  lemma ParseAccepted(s: string, gaps: seq<string>)
    requires Parse(s).Parsed?
    ensures Accepted(Parse(s).expr, true)
    ensures var toks := Tokens(Minimal(Parse(s).expr, 0));
      Gaps(gaps, |toks|) ==> Parse(Render(toks, gaps)).Parsed? && Parse(Render(toks, gaps)).expr == Parse(s).expr
  {
    hide Accepted, Minimal, Tokens, Render, Fits, Strip, Parse, Gaps;
    var e := Parse(s).expr;
    ParseExactly(s, e);
    var t, written :| WrittenAs(s, e, t, written);
    FitsAccepted(t, 0);
    if Gaps(gaps, |Tokens(Minimal(e, 0))|) { PrinterRoundTrip(e, gaps); }
  }
}
