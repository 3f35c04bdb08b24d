/** Machine integers, optional values and finite sums shared by every model. */
module Basics {
  const TWO_32: nat := 0x1_0000_0000
  const TWO_64: nat := 0x1_0000_0000_0000_0000
  const U64_MAX: nat := TWO_64 - 1

  type byte = x: int | 0 <= x < 256
  type u32 = x: nat | x < TWO_32
  type u64 = x: nat | x < TWO_64

  datatype Option<+T> = None | Some(value: T)

  function Min(a: int, b: int): int { if a <= b then a else b }

  function Max(a: int, b: int): int { if a <= b then b else a }

  /** Concatenation is associative; stated once so that proofs can cite it instead of re-deriving it. */
  lemma Assoc<T>(a: seq<T>, b: seq<T>, c: seq<T>)
    ensures a + (b + c) == a + b + c
  {
  }

  /** The sum of `f` over the elements of `s`. */
  ghost function Sum<T>(s: seq<T>, f: T -> int): int {
    if s == [] then 0 else f(s[0]) + Sum(s[1..], f)
  }

  lemma SumNone<T>(f: T -> int)
    ensures Sum([], f) == 0
  {
  }

  lemma SumOne<T>(x: T, f: T -> int)
    ensures Sum([x], f) == f(x)
  {
    assert [x][1..] == [];
  }

  lemma {:induction false} SumAppend<T>(s: seq<T>, t: seq<T>, f: T -> int)
    ensures Sum(s + t, f) == Sum(s, f) + Sum(t, f)
  {
    if s == [] {
      assert s + t == t;
    } else {
      assert (s + t)[1..] == s[1..] + t;
      SumAppend(s[1..], t, f);
    }
  }

  lemma {:induction false} SumUpdate<T>(s: seq<T>, i: nat, x: T, f: T -> int)
    requires i < |s|
    ensures Sum(s[i := x], f) == Sum(s, f) - f(s[i]) + f(x)
  {
    if i == 0 {
      assert s[i := x][1..] == s[1..];
    } else {
      assert s[i := x][1..] == s[1..][i - 1 := x];
      SumUpdate(s[1..], i - 1, x, f);
    }
  }

  /** A sum of non-negative terms bounds each term, and is zero only if all are. */
  lemma {:induction false} SumNonNegative<T>(s: seq<T>, f: T -> int)
    requires forall x <- s :: f(x) >= 0
    ensures Sum(s, f) >= 0
    ensures forall x <- s :: f(x) <= Sum(s, f)
  {
    if s != [] {
      SumNonNegative(s[1..], f);
      forall x | x in s ensures f(x) <= Sum(s, f) {
        if x != s[0] { assert x in s[1..]; }
      }
    }
  }

  lemma {:induction false} SumZero<T>(s: seq<T>, f: T -> int)
    requires forall x <- s :: f(x) == 0
    ensures Sum(s, f) == 0
  {
    if s != [] { SumZero(s[1..], f); }
  }
}
