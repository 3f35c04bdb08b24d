/** Formulas, their written forms, and how a written form is laid out in text. */
module FormulaSyntax {
  import opened Basics

  // ---- characters ---------------------------------------------------------------------------------------------

  /** The Unicode White_Space property. */
  predicate IsSpace(c: char) {
    var n := c as int;
    || 0x9 <= n <= 0xD || n == 0x20 || n == 0x85 || n == 0xA0 || n == 0x1680 || 0x2000 <= n <= 0x200A
    || n == 0x2028 || n == 0x2029 || n == 0x202F || n == 0x205F || n == 0x3000
  }

  predicate IsDigit(c: char) { '0' <= c <= '9' }

  predicate IsLetter(c: char) { 'a' <= c <= 'z' || 'A' <= c <= 'Z' }

  predicate IsWord(c: char) { IsLetter(c) || IsDigit(c) || c == '_' || c == '.' }

  predicate IsNumeral(c: char) { IsDigit(c) || c == '.' }

  /** Word characters with a letter among them. */
  predicate NameOk(name: string) {
    (forall i :: 0 <= i < |name| ==> IsWord(name[i])) && exists i :: 0 <= i < |name| && IsLetter(name[i])
  }

  /** Names that stand for events, metrics and functions must not look like the start of a number. */
  predicate VariableOk(name: string) { NameOk(name) && !IsNumeral(name[0]) }

  function Dots(text: string): nat {
    if text == "" then 0 else Dots(text[..|text| - 1]) + (if text[|text| - 1] == '.' then 1 else 0)
  }

  /** Digits with at most one dot, and at least one digit. */
  predicate LiteralOk(text: string) {
    && (forall i :: 0 <= i < |text| ==> IsNumeral(text[i]))
    && (exists i :: 0 <= i < |text| && IsDigit(text[i]))
    && Dots(text) <= 1
  }

  /** The character classes by code point. */
  lemma CharacterClasses(c: char)
    ensures var n := c as int;
      && (IsDigit(c) <==> 48 <= n <= 57)
      && (IsLetter(c) <==> 65 <= n <= 90 || 97 <= n <= 122)
      && (IsWord(c) <==> 48 <= n <= 57 || 65 <= n <= 90 || 97 <= n <= 122 || n == 95 || n == 46)
      && (IsNumeral(c) <==> 48 <= n <= 57 || n == 46)
      && (IsSpace(c) <==>
            n in {9, 10, 11, 12, 13, 32, 133, 160, 5760, 8192, 8193, 8194, 8195, 8196, 8197, 8198, 8199, 8200, 8201,
                  8202, 8232, 8233, 8239, 8287, 12288})
  {
  }

  predicate AllDigits(s: string) { forall i :: 0 <= i < |s| ==> IsDigit(s[i]) }

  lemma {:induction false} NoDots(text: string)
    ensures Dots(text) == 0 <==> '.' !in text
  {
    if text != "" {
      NoDots(text[..|text| - 1]);
      assert text == text[..|text| - 1] + [text[|text| - 1]];
    }
  }

  lemma {:induction false} DotsAppend(a: string, b: string)
    ensures Dots(a + b) == Dots(a) + Dots(b)
    decreases |b|
  {
    if b == "" {
      assert a + b == a;
    } else {
      assert (a + b)[..|a + b| - 1] == a + b[..|b| - 1];
      DotsAppend(a, b[..|b| - 1]);
    }
  }

  /** A number is written as digits, or as digits, a dot and digits, with a digit somewhere. */
  ghost predicate Decimal(text: string, whole: string, part: string) {
    && AllDigits(whole) && AllDigits(part) && |whole| + |part| > 0
    && ((text == whole && part == "") || text == whole + "." + part)
  }

  lemma LiteralExactly(text: string)
    ensures LiteralOk(text) <==> exists whole, part :: Decimal(text, whole, part)
  {
    NoDots(text);
    if LiteralOk(text) {
      if '.' !in text {
        assert Decimal(text, text, "");
      } else {
        var i :| 0 <= i < |text| && text[i] == '.';
        SplitAtDot(text, i);
      }
    }
    if whole, part :| Decimal(text, whole, part) { DecimalIsLiteral(text, whole, part); }
  }

  lemma SplitAtDot(text: string, i: nat)
    requires LiteralOk(text) && i < |text| && text[i] == '.'
    ensures Decimal(text, text[..i], text[i + 1..])
  {
    hide Dots;
    var whole, part := text[..i], text[i + 1..];
    assert text == whole + "." + part;
    DotsAppend(whole + ".", part);
    DotsAppend(whole, ".");
    OneDot();
    NumeralsNoDot(text, 0, i);
    NumeralsNoDot(text, i + 1, |text|);
    assert text[i + 1..|text|] == part && text[0..i] == whole;
    var d :| 0 <= d < |text| && IsDigit(text[d]);
    assert d < i || d > i;
  }

  lemma NumeralsNoDot(text: string, low: nat, high: nat)
    requires low <= high <= |text| && (forall i :: 0 <= i < |text| ==> IsNumeral(text[i]))
    ensures Dots(text[low..high]) == 0 ==> AllDigits(text[low..high])
  {
    hide Dots, IsDigit;
    var s := text[low..high];
    NoDots(s);
    if Dots(s) == 0 {
      forall j | 0 <= j < |s| ensures IsDigit(s[j]) {
        assert s[j] == text[low + j] && s[j] in s;
      }
    }
  }

  lemma DecimalIsLiteral(text: string, whole: string, part: string)
    requires Decimal(text, whole, part)
    ensures LiteralOk(text)
  {
    hide Dots, IsDigit;
    DigitsOnly(whole);
    DigitsOnly(part);
    if text == whole + "." + part {
      DotsAppend(whole + ".", part);
      DotsAppend(whole, ".");
      OneDot();
      Joined(whole, part);
    } else {
      assert IsDigit(text[0]);
    }
  }

  lemma DigitsOnly(s: string)
    requires AllDigits(s)
    ensures Dots(s) == 0 && forall i :: 0 <= i < |s| ==> IsNumeral(s[i])
  {
    NoDots(s);
  }

  lemma OneDot()
    ensures Dots(".") == 1
  {
    assert "."[..0] == "";
  }

  lemma Joined(whole: string, part: string)
    requires AllDigits(whole) && AllDigits(part) && |whole| + |part| > 0
    ensures var text := whole + "." + part;
      (forall i :: 0 <= i < |text| ==> IsNumeral(text[i])) && exists i :: 0 <= i < |text| && IsDigit(text[i])
  {
    hide IsDigit;
    var text := whole + "." + part;
    if whole != "" {
      assert text[0] == whole[0];
    } else {
      assert text[1] == part[0];
    }
  }

  // ---- trees --------------------------------------------------------------------------------------------------

  datatype Op = Add | Sub | Mul | Div | Eq | Lt | Le | Gt | Ge

  function OpText(op: Op): string {
    match op
    case Add => "+" case Sub => "-" case Mul => "*" case Div => "/"
    case Eq => "==" case Lt => "<" case Le => "<=" case Gt => ">" case Ge => ">="
  }

  /** How loosely an operator binds: comparisons 0, sums 1, products 2. */
  function OpLevel(op: Op): nat {
    match op
    case Add => 1 case Sub => 1
    case Mul => 2 case Div => 2
    case _ => 0
  }

  /** A parsed formula. A number keeps its digits; the floating-point value they denote is not modelled. */
  datatype Expr =
    | Binary(op: Op, lhs: Expr, rhs: Expr)
    | Variable(name: string)
    | Constant(name: string)
    | Num(literal: string)
    | Call(name: string, args: seq<Expr>)

  /** A written formula: like `Expr`, with its parentheses. */
  datatype Tree =
    | Node(op: Op, left: Tree, right: Tree)
    | Name(name: string)
    | Dollar(name: string)
    | Literal(text: string)
    | Apply(name: string, args: seq<Tree>)
    | Paren(inner: Tree)

  function Strip(t: Tree): Expr
    decreases t
  {
    match t
    case Node(op, l, r) => Binary(op, Strip(l), Strip(r))
    case Name(n) => Variable(n)
    case Dollar(n) => Constant(n)
    case Literal(x) => Num(x)
    case Apply(n, args) => Call(n, StripAll(args))
    case Paren(u) => Strip(u)
  }

  function StripAll(ts: seq<Tree>): (r: seq<Expr>)
    ensures |r| == |ts|
    decreases ts
  {
    if ts == [] then [] else [Strip(ts[0])] + StripAll(ts[1..])
  }

  /** The written form may stand where level `level` is expected: operators bind tightly enough, chains lean
      left, and parentheses hold no bare comparison. */
  predicate Fits(t: Tree, level: nat)
    decreases t
  {
    match t
    case Node(op, l, r) =>
      && level <= OpLevel(op)
      && Fits(l, if OpLevel(op) == 0 then 1 else OpLevel(op))
      && Fits(r, OpLevel(op) + 1)
    case Name(n) => VariableOk(n)
    case Dollar(n) => NameOk(n)
    case Literal(x) => LiteralOk(x)
    case Apply(n, args) => VariableOk(n) && AllFit(args)
    case Paren(u) => Fits(u, 1)
  }

  predicate AllFit(ts: seq<Tree>)
    decreases ts
  {
    ts == [] || (Fits(ts[0], 0) && AllFit(ts[1..]))
  }

  // ---- tokens -------------------------------------------------------------------------------------------------

  function Tokens(t: Tree): seq<string>
    decreases t
  {
    match t
    case Node(op, l, r) => Tokens(l) + [OpText(op)] + Tokens(r)
    case Name(n) => [n]
    case Dollar(n) => ["$" + n]
    case Literal(x) => [x]
    case Apply(n, args) => [n, "("] + ArgTokens(args)
    case Paren(u) => ["("] + Tokens(u) + [")"]
  }

  /** Arguments up to and including the closing parenthesis. */
  function ArgTokens(ts: seq<Tree>): seq<string>
    decreases ts
  {
    if ts == [] then [")"] else Tokens(ts[0]) + (if |ts| == 1 then [")"] else [","] + ArgTokens(ts[1..]))
  }

  /** Characters a formula can begin with. */
  predicate Starter(c: char) { IsWord(c) || c == '$' || c == '(' }

  predicate GoodToken(tok: string) { |tok| > 0 && !IsSpace(tok[0]) }

  lemma {:induction false} FirstToken(t: Tree, level: nat)
    requires Fits(t, level)
    ensures Tokens(t) != [] && Tokens(t)[0] != [] && Starter(Tokens(t)[0][0])
    decreases t
  {
    match t
    case Node(op, l, r) => FirstToken(l, if OpLevel(op) == 0 then 1 else OpLevel(op));
    case _ =>
  }

  lemma {:induction false} TokensGood(t: Tree, level: nat)
    requires Fits(t, level)
    ensures forall i :: 0 <= i < |Tokens(t)| ==> GoodToken(Tokens(t)[i])
    decreases t
  {
    match t
    case Node(op, l, r) =>
      TokensGood(l, if OpLevel(op) == 0 then 1 else OpLevel(op));
      TokensGood(r, OpLevel(op) + 1);
      assert GoodToken(OpText(op));
    case Apply(n, args) => ArgTokensGood(args);
    case Paren(u) => TokensGood(u, 1);
    case _ =>
  }

  lemma {:induction false} ArgTokensGood(ts: seq<Tree>)
    requires AllFit(ts)
    ensures forall i :: 0 <= i < |ArgTokens(ts)| ==> GoodToken(ArgTokens(ts)[i])
    decreases ts
  {
    if ts != [] {
      TokensGood(ts[0], 0);
      if |ts| > 1 { ArgTokensGood(ts[1..]); }
    }
  }

  // ---- layout -------------------------------------------------------------------------------------------------

  /** The first position from `i` that holds no white space. */
  function Skip(s: string, i: nat): (r: nat)
    requires i <= |s|
    ensures i <= r <= |s|
    ensures forall m :: i <= m < r ==> IsSpace(s[m])
    ensures r < |s| ==> !IsSpace(s[r])
    decreases |s| - i
  {
    if i < |s| && IsSpace(s[i]) then Skip(s, i + 1) else i
  }

  /** Skipping from anywhere in the skipped part ends at the same place. */
  lemma SkipSame(s: string, i: nat, k: nat)
    requires i <= k <= |s| && k <= Skip(s, i)
    ensures Skip(s, k) == Skip(s, i)
  {
    hide IsSpace;
  }

  lemma SkipIs(s: string, i: nat, r: nat)
    requires i <= r <= |s| && (forall m :: i <= m < r ==> IsSpace(s[m])) && (r < |s| ==> !IsSpace(s[r]))
    ensures Skip(s, i) == r
  {
    hide IsSpace;
  }

  predicate At(s: string, i: nat, c: char) { i < |s| && s[i] == c }

  predicate TokenAt(s: string, i: nat, tok: string) { i + |tok| <= |s| && s[i..i + |tok|] == tok }

  /** Reads the tokens one after another, skipping white space before each; the end of the last one. */
  function ReadTokens(s: string, i: nat, toks: seq<string>): (r: Option<nat>)
    requires i <= |s|
    ensures r.Some? ==> i <= r.value <= |s|
    decreases |toks|
  {
    if toks == [] then Some(i)
    else
      var j := Skip(s, i);
      if TokenAt(s, j, toks[0]) then ReadTokens(s, j + |toks[0]|, toks[1..]) else None
  }

  lemma TokenFits(s: string, i: nat, tok: string)
    ensures TokenAt(s, i, tok) ==> i + |tok| <= |s|
  {
  }

  lemma {:induction false} ReadAppend(s: string, i: nat, a: seq<string>, b: seq<string>)
    requires i <= |s|
    ensures ReadTokens(s, i, a + b)
         == match ReadTokens(s, i, a) { case None => None case Some(m) => ReadTokens(s, m, b) }
    decreases |a|
  {
    hide Skip, TokenAt, IsSpace;
    if a == [] {
      assert a + b == b;
    } else {
      assert (a + b)[1..] == a[1..] + b && (a + b)[0] == a[0];
      var j := Skip(s, i);
      TokenFits(s, j, a[0]);
      if TokenAt(s, j, a[0]) { ReadAppend(s, j + |a[0]|, a[1..], b); }
    }
  }

  lemma ReadOne(s: string, i: nat, tok: string)
    requires i <= |s|
    ensures ReadTokens(s, i, [tok])
         == if TokenAt(s, Skip(s, i), tok) then Some(Skip(s, i) + |tok|) else None
  {
    assert [tok][1..] == [];
  }

  /** Reading depends on where the first visible character is, not on how much white space is left. */
  lemma ReadSame(s: string, i: nat, k: nat, toks: seq<string>)
    requires i <= |s| && k <= |s| && Skip(s, i) == Skip(s, k) && toks != []
    ensures ReadTokens(s, i, toks) == ReadTokens(s, k, toks)
  {
  }

  /** Tokens with the given white space before each and after the last. */
  function Render(toks: seq<string>, gaps: seq<string>): string
    requires |gaps| == |toks| + 1
  {
    if toks == [] then gaps[0] else gaps[0] + toks[0] + Render(toks[1..], gaps[1..])
  }

  predicate Blank(gap: string) { forall i :: 0 <= i < |gap| ==> IsSpace(gap[i]) }

  ghost predicate Gaps(gaps: seq<string>, n: nat) {
    |gaps| == n + 1 && forall i :: 0 <= i < |gaps| ==> Blank(gaps[i])
  }

  lemma ReadHead(prefix: string, gap: string, tok: string, rest: string)
    requires Blank(gap) && GoodToken(tok)
    ensures var s := prefix + gap + tok + rest;
      Skip(s, |prefix|) == |prefix + gap| && TokenAt(s, |prefix + gap|, tok)
  {
    hide IsSpace, Skip;
    var s := prefix + gap + tok + rest;
    assert s[|prefix + gap|] == tok[0];
    SkipIs(s, |prefix|, |prefix + gap|);
    assert s[|prefix + gap|..|prefix + gap| + |tok|] == tok;
  }

  lemma ReadFirst(s: string, i: nat, toks: seq<string>)
    requires i <= |s| && toks != [] && TokenAt(s, Skip(s, i), toks[0])
    ensures ReadTokens(s, i, toks) == ReadTokens(s, Skip(s, i) + |toks[0]|, toks[1..])
  {
  }

  /** Text laid out from tokens reads back as those tokens, whatever the white space. */
  lemma {:induction false} RenderReads(prefix: string, toks: seq<string>, gaps: seq<string>)
    requires Gaps(gaps, |toks|) && forall i :: 0 <= i < |toks| ==> GoodToken(toks[i])
    ensures var s := prefix + Render(toks, gaps);
      && ReadTokens(s, |prefix|, toks).Some?
      && Skip(s, ReadTokens(s, |prefix|, toks).value) == |s|
    decreases |toks|
  {
    hide IsSpace, Skip, TokenAt, GoodToken, ReadTokens;
    var s := prefix + Render(toks, gaps);
    assert Blank(gaps[0]);
    if toks == [] {
      SkipIs(s, |prefix|, |s|);
      ReadNothing(s, |prefix|);
    } else {
      var head := prefix + gaps[0] + toks[0];
      var rest := Render(toks[1..], gaps[1..]);
      Assoc(prefix, gaps[0] + toks[0], rest);
      Assoc(prefix, gaps[0], toks[0]);
      assert s == head + rest;
      ReadHead(prefix, gaps[0], toks[0], rest);
      ReadFirst(s, |prefix|, toks);
      assert forall i :: 0 <= i < |toks[1..]| ==> GoodToken(toks[1..][i]);
      RenderReads(head, toks[1..], gaps[1..]);
    }
  }

  lemma ReadNothing(s: string, i: nat)
    requires i <= |s|
    ensures ReadTokens(s, i, []) == Some(i)
  {
  }

  /** Text that reads as tokens with only white space left over is laid out from them. */
  lemma {:induction false} ReadsRender(s: string, i: nat, toks: seq<string>) returns (gaps: seq<string>)
    requires i <= |s| && ReadTokens(s, i, toks).Some? && Skip(s, ReadTokens(s, i, toks).value) == |s|
    ensures Gaps(gaps, |toks|) && s[i..] == Render(toks, gaps)
    decreases |toks|
  {
    hide IsSpace, Skip;
    if toks == [] {
      gaps := [s[i..]];
    } else {
      var j := Skip(s, i);
      var k := j + |toks[0]|;
      var rest := ReadsRender(s, k, toks[1..]);
      gaps := [s[i..j]] + rest;
      assert gaps[1..] == rest;
      assert s[i..] == s[i..j] + s[j..k] + s[k..];
      assert Blank(s[i..j]);
    }
  }
}
