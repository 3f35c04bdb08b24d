/** The formula parser, as functions of text and position and as a cursor that moves over the text. */
module FormulaParser {
  import opened Basics
  import opened FormulaSyntax

  datatype Error =
    | UnexpectedChar(at: nat)
    | MissingParen(at: nat)
    | UnexpectedEnd
    | ExpectedIdentifier(at: nat)
    | InvalidNumber(at: nat)
    | ExpectedComma(at: nat)

  datatype Parsed = Parsed(expr: Expr, next: nat) | Failed(error: Error)

  datatype ParsedArgs = ParsedArgs(args: seq<Expr>, next: nat) | FailedArgs(error: Error)

  // ---- lexing -------------------------------------------------------------------------------------------------

  function WordEnd(s: string, i: nat): (r: nat)
    requires i <= |s|
    ensures i <= r <= |s| && (forall m :: i <= m < r ==> IsWord(s[m])) && (r < |s| ==> !IsWord(s[r]))
    decreases |s| - i
  {
    if i < |s| && IsWord(s[i]) then WordEnd(s, i + 1) else i
  }

  function NumeralEnd(s: string, i: nat): (r: nat)
    requires i <= |s|
    ensures i <= r <= |s| && (forall m :: i <= m < r ==> IsNumeral(s[m])) && (r < |s| ==> !IsNumeral(s[r]))
    decreases |s| - i
  {
    if i < |s| && IsNumeral(s[i]) then NumeralEnd(s, i + 1) else i
  }

  /** The end of the name at a position, if there is one. */
  function NameAt(s: string, i: nat): (r: Option<nat>)
    requires i <= |s|
    ensures r.Some? ==> i < r.value <= |s|
  {
    var k := WordEnd(s, i);
    if k == i || !NameOk(s[i..k]) then None else Some(k)
  }

  /** The comparison operator at a position and its width; two-character operators are tried first. */
  function CompareOp(s: string, i: nat): (r: Option<(Op, nat)>)
    requires i <= |s|
    ensures r.Some? ==> r.value.1 == |OpText(r.value.0)| && TokenAt(s, i, OpText(r.value.0)) && OpLevel(r.value.0) == 0
  {
    if TokenAt(s, i, ">=") then Some((Ge, 2))
    else if TokenAt(s, i, "<=") then Some((Le, 2))
    else if TokenAt(s, i, "==") then Some((Eq, 2))
    else if At(s, i, '>') then assert s[i..i + 1] == ">"; Some((Gt, 1))
    else if At(s, i, '<') then assert s[i..i + 1] == "<"; Some((Lt, 1))
    else None
  }

  // ---- the grammar as functions -------------------------------------------------------------------------------

  function ComparisonAt(s: string, i: nat): (r: Parsed)
    requires i <= |s|
    ensures r.Parsed? ==> i < r.next <= |s|
    decreases |s| - i, 3
  {
    match SumAt(s, i)
    case Failed(e) => Failed(e)
    case Parsed(lhs, k) =>
      var j := Skip(s, k);
      match CompareOp(s, j)
      case None => Parsed(lhs, j)
      case Some(found) =>
        match SumAt(s, j + found.1)
        case Failed(e) => Failed(e)
        case Parsed(rhs, next) => Parsed(Binary(found.0, lhs, rhs), next)
  }

  function SumAt(s: string, i: nat): (r: Parsed)
    requires i <= |s|
    ensures r.Parsed? ==> i < r.next <= |s|
    decreases |s| - i, 2
  {
    match ProductAt(s, i)
    case Failed(e) => Failed(e)
    case Parsed(lhs, k) => SumRest(s, k, lhs)
  }

  function SumRest(s: string, i: nat, lhs: Expr): (r: Parsed)
    requires i <= |s|
    ensures r.Parsed? ==> i <= r.next <= |s|
    decreases |s| - i, 2
  {
    var j := Skip(s, i);
    if At(s, j, '+') || At(s, j, '-') then
      match ProductAt(s, j + 1)
      case Failed(e) => Failed(e)
      case Parsed(rhs, k) => SumRest(s, k, Binary(if At(s, j, '+') then Add else Sub, lhs, rhs))
    else Parsed(lhs, j)
  }

  function ProductAt(s: string, i: nat): (r: Parsed)
    requires i <= |s|
    ensures r.Parsed? ==> i < r.next <= |s|
    decreases |s| - i, 1
  {
    match AtomAt(s, i)
    case Failed(e) => Failed(e)
    case Parsed(lhs, k) => ProductRest(s, k, lhs)
  }

  function ProductRest(s: string, i: nat, lhs: Expr): (r: Parsed)
    requires i <= |s|
    ensures r.Parsed? ==> i <= r.next <= |s|
    decreases |s| - i, 1
  {
    var j := Skip(s, i);
    if At(s, j, '*') || At(s, j, '/') then
      match AtomAt(s, j + 1)
      case Failed(e) => Failed(e)
      case Parsed(rhs, k) => ProductRest(s, k, Binary(if At(s, j, '*') then Mul else Div, lhs, rhs))
    else Parsed(lhs, j)
  }

  function AtomAt(s: string, i: nat): (r: Parsed)
    requires i <= |s|
    ensures r.Parsed? ==> i < r.next <= |s|
    decreases |s| - i, 0
  {
    var j := Skip(s, i);
    if At(s, j, '(') then Grouped(s, j + 1)
    else if At(s, j, '$') then
      match NameAt(s, j + 1)
      case None => Failed(ExpectedIdentifier(j + 1))
      case Some(k) => Parsed(Constant(s[j + 1..k]), k)
    else if j == |s| then Failed(UnexpectedEnd)
    else if IsNumeral(s[j]) then
      var k := NumeralEnd(s, j);
      if LiteralOk(s[j..k]) then Parsed(Num(s[j..k]), k) else Failed(InvalidNumber(j))
    else
      match NameAt(s, j)
      case None => Failed(ExpectedIdentifier(j))
      case Some(k) => Named(s, s[j..k], k)
  }

  /** After an opening parenthesis. */
  function Grouped(s: string, i: nat): (r: Parsed)
    requires i <= |s|
    ensures r.Parsed? ==> i < r.next <= |s|
    decreases |s| - i, 3
  {
    match SumAt(s, i)
    case Failed(e) => Failed(e)
    case Parsed(e, k) =>
      var j := Skip(s, k);
      if At(s, j, ')') then Parsed(e, j + 1) else Failed(MissingParen(j))
  }

  /** After a name: a call if a parenthesis opens, otherwise a variable. */
  function Named(s: string, name: string, i: nat): (r: Parsed)
    requires i <= |s|
    ensures r.Parsed? ==> i <= r.next <= |s|
    decreases |s| - i, 5
  {
    var j := Skip(s, i);
    if !At(s, j, '(') then Parsed(Variable(name), j)
    else
      var k := Skip(s, j + 1);
      if At(s, k, ')') then Parsed(Call(name, []), k + 1)
      else
        match Arguments(s, k, [])
        case FailedArgs(e) => Failed(e)
        case ParsedArgs(args, next) => Parsed(Call(name, args), next)
  }

  function Arguments(s: string, i: nat, done: seq<Expr>): (r: ParsedArgs)
    requires i <= |s|
    ensures r.ParsedArgs? ==> i < r.next <= |s|
    decreases |s| - i, 4
  {
    match ComparisonAt(s, i)
    case Failed(e) => FailedArgs(e)
    case Parsed(arg, k) =>
      var j := Skip(s, k);
      if At(s, j, ')') then ParsedArgs(done + [arg], j + 1)
      else if At(s, j, ',') then Arguments(s, j + 1, done + [arg])
      else FailedArgs(ExpectedComma(j))
  }

  /** The whole text: a comparison and then nothing but white space. */
  function Parse(s: string): Parsed {
    match ComparisonAt(s, 0)
    case Failed(e) => Failed(e)
    case Parsed(e, k) =>
      var j := Skip(s, k);
      if j < |s| then Failed(UnexpectedChar(j)) else Parsed(e, j)
  }

  /** A run of word characters is a name if there is a letter in it. */
  lemma NamedIs(s: string, i: nat, k: nat)
    requires i <= k <= |s| && forall m :: i <= m < k ==> IsWord(s[m])
    ensures NameOk(s[i..k]) <==> exists m :: i <= m < k && IsLetter(s[m])
  {
    var name := s[i..k];
    if m :| i <= m < k && IsLetter(s[m]) { assert name[m - i] == s[m]; }
    if NameOk(name) {
      var m :| 0 <= m < |name| && IsLetter(name[m]);
      assert s[i + m] == name[m];
    }
  }

  // ---- the cursor ---------------------------------------------------------------------------------------------

  class Cursor {
    const input: string
    var offset: nat

    ghost predicate Valid()
      reads this
    {
      offset <= |input|
    }

    constructor (text: string)
      ensures Valid() && input == text && offset == 0
    {
      input, offset := text, 0;
    }

    function Peek(): (r: Option<char>)
      requires Valid()
      reads this
      ensures r.None? <==> offset == |input|
      ensures r.Some? ==> r.value == input[offset]
    {
      if offset < |input| then Some(input[offset]) else None
    }

    method Bump()
      requires Valid()
      modifies this
      ensures Valid() && offset == Min(old(offset) + 1, |input|)
    {
      if Peek().Some? { offset := offset + 1; }
    }

    method Consume(expected: char) returns (found: bool)
      requires Valid()
      modifies this
      ensures Valid() && found == At(input, old(offset), expected)
      ensures offset == old(offset) + (if found then 1 else 0)
    {
      found := Peek() == Some(expected);
      if found { Bump(); }
    }

    method Whitespace()
      requires Valid()
      modifies this
      ensures Valid() && offset == Skip(input, old(offset))
    {
      while Peek().Some? && IsSpace(Peek().value)
        invariant Valid() && Skip(input, offset) == Skip(input, old(offset))
        decreases |input| - offset
      {
        Bump();
      }
    }

    method Identifier() returns (r: Option<string>)
      requires Valid()
      modifies this
      ensures Valid()
      ensures match NameAt(input, old(offset))
              case None => r.None?
              case Some(k) => offset == k && r == Some(input[old(offset)..k])
    {
      var start := offset;
      while Peek().Some? && IsWord(Peek().value)
        invariant Valid() && start <= offset && WordEnd(input, offset) == WordEnd(input, start)
        invariant forall m :: start <= m < offset ==> IsWord(input[m])
        decreases |input| - offset
      {
        Bump();
      }
      var named := exists i | start <= i < offset :: IsLetter(input[i]);
      NamedIs(input, start, offset);
      if offset == start || !named {
        return None;
      }
      r := Some(input[start..offset]);
    }

    method Number() returns (r: Option<string>)
      requires Valid()
      modifies this
      ensures Valid() && offset == NumeralEnd(input, old(offset))
      ensures var text := input[old(offset)..offset]; r == if LiteralOk(text) then Some(text) else None
    {
      var start := offset;
      while Peek().Some? && IsNumeral(Peek().value)
        invariant Valid() && start <= offset && NumeralEnd(input, offset) == NumeralEnd(input, start)
        decreases |input| - offset
      {
        Bump();
      }
      r := if LiteralOk(input[start..offset]) then Some(input[start..offset]) else None;
    }

    /** A result and a cursor position agree with a parse from `start`. */
    ghost predicate Agrees(r: Parsed, expected: Parsed)
      reads this
    {
      Valid() && r == expected && (r.Parsed? ==> offset == r.next)
    }

    method ParseComparison() returns (r: Parsed)
      requires Valid()
      modifies this
      ensures Agrees(r, ComparisonAt(input, old(offset)))
      decreases |input| - offset, 3
    {
      hide SumAt, Skip, IsSpace;
      r := ParseSum();
      if r.Failed? { return; }
      var lhs := r.expr;
      Whitespace();
      var found := CompareOp(input, offset);
      match found {
        case None =>
          return Parsed(lhs, offset);
        case Some(op) =>
          offset := offset + op.1;
          r := ParseSum();
          if r.Failed? { return; }
          return Parsed(Binary(op.0, lhs, r.expr), offset);
      }
    }

    method ParseSum() returns (r: Parsed)
      requires Valid()
      modifies this
      ensures Agrees(r, SumAt(input, old(offset)))
      decreases |input| - offset, 2
    {
      hide ProductAt, Skip, IsSpace;
      r := ParseProduct();
      if r.Failed? { return; }
      var lhs := r.expr;
      while true
        invariant Valid() && old(offset) < offset && SumAt(input, old(offset)) == SumRest(input, offset, lhs)
        decreases |input| - offset
      {
        Whitespace();
        var op: Op;
        var plus := Consume('+');
        if plus {
          op := Add;
        } else {
          var minus := Consume('-');
          if minus {
            op := Sub;
          } else {
            return Parsed(lhs, offset);
          }
        }
        r := ParseProduct();
        if r.Failed? { return; }
        lhs := Binary(op, lhs, r.expr);
      }
    }

    method ParseProduct() returns (r: Parsed)
      requires Valid()
      modifies this
      ensures Agrees(r, ProductAt(input, old(offset)))
      decreases |input| - offset, 1
    {
      hide AtomAt, Skip, IsSpace;
      r := ParseAtom();
      if r.Failed? { return; }
      var lhs := r.expr;
      while true
        invariant Valid() && old(offset) < offset && ProductAt(input, old(offset)) == ProductRest(input, offset, lhs)
        decreases |input| - offset
      {
        Whitespace();
        var op: Op;
        var times := Consume('*');
        if times {
          op := Mul;
        } else {
          var over := Consume('/');
          if over {
            op := Div;
          } else {
            return Parsed(lhs, offset);
          }
        }
        r := ParseAtom();
        if r.Failed? { return; }
        lhs := Binary(op, lhs, r.expr);
      }
    }

    method ParseAtom() returns (r: Parsed)
      requires Valid()
      modifies this
      ensures Agrees(r, AtomAt(input, old(offset)))
      decreases |input| - offset, 0
    {
      hide Skip, IsSpace, SumAt, NameAt, NumeralEnd, LiteralOk, Arguments;
      Whitespace();
      var grouped := Consume('(');
      if grouped {
        r := ParseSum();
        if r.Failed? { return; }
        var inner := r.expr;
        Whitespace();
        var closed := Consume(')');
        if !closed {
          return Failed(MissingParen(offset));
        }
        return Parsed(inner, offset);
      }
      var dollar := Consume('$');
      if dollar {
        var start := offset;
        var name := Identifier();
        if name.None? {
          return Failed(ExpectedIdentifier(start));
        }
        return Parsed(Constant(name.value), offset);
      }
      var next := Peek();
      if next.None? {
        return Failed(UnexpectedEnd);
      }
      var start := offset;
      if IsNumeral(next.value) {
        var text := Number();
        if text.None? {
          return Failed(InvalidNumber(start));
        }
        return Parsed(Num(text.value), offset);
      }
      var name := Identifier();
      if name.None? {
        return Failed(ExpectedIdentifier(start));
      }
      Whitespace();
      var call := Consume('(');
      if !call {
        return Parsed(Variable(name.value), offset);
      }
      r := ParseArguments(name.value);
    }

    /** The argument loop of a call, after its opening parenthesis. */
    method ParseArguments(name: string) returns (r: Parsed)
      requires Valid() && offset > 0
      modifies this
      ensures Agrees(r,
                var k := Skip(input, old(offset));
                if At(input, k, ')') then Parsed(Call(name, []), k + 1)
                else match Arguments(input, k, []) {
                  case FailedArgs(e) => Failed(e)
                  case ParsedArgs(args, next) => Parsed(Call(name, args), next)
                })
      decreases |input| - offset, 4
    {
      hide Skip, IsSpace, ComparisonAt;
      var args: seq<Expr> := [];
      Whitespace();
      var closed := Consume(')');
      if closed {
        return Parsed(Call(name, args), offset);
      }
      ghost var k := offset;
      while true
        invariant Valid() && k <= offset && Arguments(input, k, []) == Arguments(input, offset, args)
        decreases |input| - offset
      {
        r := ParseComparison();
        if r.Failed? { return; }
        args := args + [r.expr];
        Whitespace();
        closed := Consume(')');
        if closed {
          return Parsed(Call(name, args), offset);
        }
        var comma := Consume(',');
        if !comma {
          return Failed(ExpectedComma(offset));
        }
      }
    }

    method ParseAll() returns (r: Parsed)
      requires Valid() && offset == 0
      modifies this
      ensures r == Parse(input)
    {
      hide Skip, IsSpace, ComparisonAt;
      r := ParseComparison();
      if r.Failed? { return; }
      var e := r.expr;
      Whitespace();
      if Peek().Some? {
        return Failed(UnexpectedChar(offset));
      }
      return Parsed(e, offset);
    }
  }
}
