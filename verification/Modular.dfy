/** Powers of two, division facts and bitwise masking over unbounded integers. */
module Modular {
  import opened Basics

  function Pow2(n: nat): (p: int)
    ensures p > 0
  {
    if n == 0 then 1 else 2 * Pow2(n - 1)
  }

  lemma {:induction false} Pow2Add(a: nat, b: nat)
    ensures Pow2(a + b) == Pow2(a) * Pow2(b)
  {
    if a > 0 {
      Pow2Add(a - 1, b);
      MulAssoc(2, Pow2(a - 1), Pow2(b));
    }
  }

  lemma MulAssoc(a: int, b: int, c: int)
    ensures a * b * c == a * (b * c)
  {
  }

  lemma Pow2Of8()
    ensures Pow2(8) == 256
  {
    assert Pow2(4) == 16;
  }

  lemma Pow2Of64()
    ensures Pow2(32) == TWO_32 && Pow2(64) == TWO_64
  {
    hide Pow2;
    Pow2Of8();
    Pow2Add(8, 8);
    Pow2Add(16, 16);
    Pow2Add(32, 32);
  }

  lemma Pow2Step(n: nat)
    requires n > 0
    ensures Pow2(n) == 2 * Pow2(n - 1)
  {
  }

  lemma {:induction false} Pow2Monotone(a: nat, b: nat)
    requires a <= b
    ensures Pow2(a) <= Pow2(b)
    decreases b - a
  {
    if a < b { Pow2Monotone(a, b - 1); }
  }

  lemma MulMonotone(a: int, b: int, m: int)
    requires a <= b && m >= 0
    ensures a * m <= b * m
  {
  }

  /** A non-zero multiple is at least as large as what it is a multiple of. */
  lemma MultipleSize(k: int, m: int)
    requires m > 0
    ensures k >= 1 ==> k * m >= m
    ensures k <= -1 ==> k * m <= -m
  {
    if k >= 1 { MulMonotone(1, k, m); }
    if k <= -1 { MulMonotone(k, -1, m); }
  }

  /** Quotient and remainder are determined by their defining equation. */
  lemma DivModIs(x: int, m: int, q: int, r: int)
    requires m > 0 && x == q * m + r && 0 <= r < m
    ensures x / m == q && x % m == r
  {
    var q', r' := x / m, x % m;
    assert x == q' * m + r';
    assert (q' - q) * m == q' * m - q * m;
    MultipleSize(q' - q, m);
  }

  /** Adding a multiple of the modulus changes nothing but the quotient. */
  lemma ModAddMultiple(x: int, k: int, m: int)
    requires m > 0
    ensures (x + k * m) % m == x % m && (x + k * m) / m == x / m + k
  {
    assert x + k * m == (x / m + k) * m + x % m by {
      assert (x / m + k) * m == x / m * m + k * m;
    }
    DivModIs(x + k * m, m, x / m + k, x % m);
  }

  lemma ModAddMod(x: int, y: int, m: int)
    requires m > 0
    ensures (x + y % m) % m == (x + y) % m
  {
    assert x + y == (x + y % m) + (y / m) * m;
    ModAddMultiple(x + y % m, y / m, m);
  }

  /** Reducing modulo a multiple first makes no difference. */
  lemma ModMod(x: int, m: int, k: int, w: int)
    requires m > 0 && k > 0 && w == m * k && w > 0
    ensures (x % w) % m == x % m
  {
    var q := x / w;
    assert x == x % w + (q * k) * m by {
      assert x == q * w + x % w;
      assert q * (m * k) == (q * k) * m;
    }
    ModAddMultiple(x % w, q * k, m);
  }

  lemma DivBound(x: nat, m: int)
    requires m > 0
    ensures 0 <= x / m <= x
  {
    assert x == x / m * m + x % m;
    MultipleSize(x / m, m);
    if x / m >= 0 { MulMonotone(1, m, x / m); }
  }

  /** Bitwise and. */
  function And(a: nat, b: nat): nat
    decreases a
  {
    if a == 0 then 0 else (a % 2) * (b % 2) + 2 * And(a / 2, b / 2)
  }

  lemma {:induction false} AndBound(a: nat, b: nat)
    ensures And(a, b) <= a
    decreases a
  {
    if a != 0 {
      AndBound(a / 2, b / 2);
      assert (a % 2) * (b % 2) <= a % 2;
    }
  }

  /** Masking with `2^k - 1` keeps the remainder modulo `2^k`. */
  lemma {:induction false} AndMask(a: nat, k: nat)
    ensures And(a, Pow2(k) - 1) == a % Pow2(k)
    decreases k
  {
    if k == 0 {
      AndZero(a);
    } else {
      AndMask(a / 2, k - 1);
      AndHalves(a, Pow2(k - 1));
      RemainderHalves(a, Pow2(k - 1));
    }
  }

  lemma AndHalves(a: nat, p: int)
    requires p > 0
    ensures And(a, 2 * p - 1) == a % 2 + 2 * And(a / 2, p - 1)
  {
    assert (2 * p - 1) % 2 == 1 && (2 * p - 1) / 2 == p - 1;
  }

  lemma RemainderHalves(a: nat, p: int)
    requires p > 0
    ensures a % (2 * p) == a % 2 + 2 * (a / 2 % p)
  {
    var q, r := a / 2 / p, a / 2 % p;
    assert a / 2 == q * p + r;
    assert q * (2 * p) == 2 * (q * p);
    DivModIs(a, 2 * p, q, 2 * r + a % 2);
  }

  lemma {:induction false} AndZero(a: nat)
    ensures And(a, 0) == 0
    decreases a
  {
    if a != 0 { AndZero(a / 2); }
  }
}
