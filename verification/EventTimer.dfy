/** Fixed-point time and counter conversion from the perf metadata page, in 64-bit wrapping arithmetic. */
module EventTimer {
  import opened Basics
  import opened Modular

  const TWO_63: int := 0x8000_0000_0000_0000

  function WrappingAdd(a: u64, b: u64): u64 { (a + b) % TWO_64 }

  function WrappingSub(a: u64, b: u64): u64 { (a - b) % TWO_64 }

  function WrappingMul(a: u64, b: u64): u64 { (a * b) % TWO_64 }

  /** Reinterprets a word as a signed number. */
  function AsI64(w: u64): int { if w < TWO_63 then w else w - TWO_64 }

  // ---- perf_time_delta ----------------------------------------------------------------------------------------

  function ShiftRight(a: u64, shift: nat): (r: u64) {
    DivBound(a, Pow2(shift));
    a / Pow2(shift)
  }

  function Masked(a: u64, mask: nat): (r: u64) {
    AndBound(a, mask);
    And(a, mask)
  }

  function PerfTimeDelta(cycles: u64, shift: nat, mult: u32, offset: u64): u64 {
    var quotient := if shift >= 64 then 0 else ShiftRight(cycles, shift);
    var mask := if shift == 0 then 0 else if shift >= 64 then U64_MAX else Pow2(shift) - 1;
    var remainder := Masked(cycles, mask);
    var fractional := if shift >= 64 then 0 else ShiftRight(WrappingMul(remainder, mult), shift);
    WrappingAdd(WrappingAdd(offset, WrappingMul(quotient, mult)), fractional)
  }

  /** The conversion the kernel documents, exact and reduced to a word. */
  function ExactTime(cycles: u64, shift: nat, mult: u32, offset: u64): int {
    (offset + cycles * mult / Pow2(shift)) % TWO_64
  }

  /** The bits below the shift times the multiplier fit a word; for shifts of a word or more, the whole
      product is below one unit. */
  predicate NothingLost(cycles: u64, shift: nat, mult: u32) {
    if shift < 64 then (cycles % Pow2(shift)) * mult < TWO_64 else cycles * mult < Pow2(shift)
  }

  /** A product split at the shift. */
  lemma ProductSplit(cycles: nat, p: int, mult: nat)
    requires p > 0
    ensures cycles * mult / p == cycles / p * mult + (cycles % p) * mult / p
  {
    var q, r := cycles / p, cycles % p;
    assert cycles * mult == r * mult + (q * mult) * p by {
      assert cycles == q * p + r;
      assert (q * p + r) * mult == q * p * mult + r * mult;
      assert q * p * mult == (q * mult) * p;
    }
    ModAddMultiple(r * mult, q * mult, p);
  }

  lemma TwoAdds(offset: int, a: int, f: int)
    ensures ((offset + a % TWO_64) % TWO_64 + f) % TWO_64 == (offset + a + f) % TWO_64
  {
    ModAddMod(offset, a, TWO_64);
    ModAddMod(f, offset + a, TWO_64);
  }

  /** The masked bits are the remainder at the shift. */
  lemma MaskIsRemainder(cycles: u64, shift: nat)
    requires shift < 64
    ensures Masked(cycles, if shift == 0 then 0 else Pow2(shift) - 1) == cycles % Pow2(shift)
  {
    hide Pow2, And;
    AndMask(cycles, shift);
    ZeroShiftMask();
  }

  lemma CodeIs(cycles: u64, shift: nat, mult: u32, offset: u64, remainder: u64)
    requires shift < 64 && remainder == Masked(cycles, if shift == 0 then 0 else Pow2(shift) - 1)
    ensures PerfTimeDelta(cycles, shift, mult, offset)
         == WrappingAdd(WrappingAdd(offset, WrappingMul(ShiftRight(cycles, shift), mult)),
                        ShiftRight(WrappingMul(remainder, mult), shift))
  {
    hide Pow2, And, WrappingAdd, WrappingMul, ShiftRight, Masked;
  }

  /** For a shift below a word the code adds the exact quotient part and the truncated fraction. */
  lemma CodeSplits(cycles: u64, shift: nat, mult: u32, offset: u64)
    requires shift < 64
    ensures PerfTimeDelta(cycles, shift, mult, offset)
         == (offset + cycles / Pow2(shift) * mult + (cycles % Pow2(shift)) * mult % TWO_64 / Pow2(shift)) % TWO_64
  {
    hide Pow2, PerfTimeDelta, Masked;
    var r := cycles % Pow2(shift);
    MaskIsRemainder(cycles, shift);
    CodeIs(cycles, shift, mult, offset, r);
    TwoAdds(offset, cycles / Pow2(shift) * mult, r * mult % TWO_64 / Pow2(shift));
  }

  lemma ZeroShiftMask()
    ensures Pow2(0) == 1
  {
  }

  /** Two words whose difference is positive and below 2^64 differ modulo 2^64. */
  lemma ExcessShows(x: int, e: int)
    ensures 0 < e < TWO_64 ==> (x + e) % TWO_64 != x % TWO_64
  {
  }

  /** What the truncated fraction misses: nothing when the product fits a word, and less than a word but
      not nothing otherwise. */
  lemma FractionExcess(r: nat, p: int, rest: int, mult: u32)
    requires p > 0 && rest > 0 && p * rest == TWO_64 && r < p
    ensures r * mult >= TWO_64 ==> 0 < r * mult / p - r * mult % TWO_64 / p < TWO_64
  {
    var f := r * mult;
    var k := f / TWO_64;
    assert f == f % TWO_64 + (k * rest) * p by {
      assert f == k * TWO_64 + f % TWO_64;
      MulAssoc(k, rest, p);
    }
    ModAddMultiple(f % TWO_64, k * rest, p);
    QuotientSmall(r, p, mult);
    DivBound(f % TWO_64, p);
    if f >= TWO_64 { MultipleSize(k, rest); }
  }

  lemma QuotientSmall(r: nat, p: int, mult: u32)
    requires r < p
    ensures 0 <= r * mult / p < TWO_32
  {
    MulMonotone(r, p, mult);
    var q := r * mult / p;
    DivBound(r * mult, p);
    assert r * mult == q * p + r * mult % p;
    assert (q - mult) * p == q * p - mult * p;
    MultipleSize(q - mult, p);
  }

  lemma Compare(base: int, low: int, high: int, fits: bool)
    requires fits ==> low == high
    requires !fits ==> 0 < high - low < TWO_64
    ensures (base + low) % TWO_64 == (base + high) % TWO_64 <==> fits
  {
    ExcessShows(base + low, high - low);
  }

  lemma SplitCompared(cycles: nat, p: int, rest: int, mult: u32, offset: int)
    requires p > 0 && rest > 0 && p * rest == TWO_64
    ensures (offset + cycles / p * mult + (cycles % p) * mult % TWO_64 / p) % TWO_64
         == (offset + cycles * mult / p) % TWO_64
       <==> (cycles % p) * mult < TWO_64
  {
    ProductSplit(cycles, p, mult);
    FractionExcess(cycles % p, p, rest, mult);
    var f := (cycles % p) * mult;
    assert f >= 0 by { MulMonotone(0, cycles % p, mult); }
    Compare(offset + cycles / p * mult, f % TWO_64 / p, f / p, f < TWO_64);
  }

  /** The conversion is exact modulo 2^64 exactly when no bit of the fractional product is lost, for every
      shift. */
  lemma TimeDeltaExactly(cycles: u64, shift: nat, mult: u32, offset: u64)
    ensures PerfTimeDelta(cycles, shift, mult, offset) == ExactTime(cycles, shift, mult, offset)
       <==> NothingLost(cycles, shift, mult)
  {
    hide PerfTimeDelta, Pow2;
    if shift < 64 {
      Pow2Of64();
      Pow2Add(shift, 64 - shift);
      CodeSplits(cycles, shift, mult, offset);
      SplitCompared(cycles, Pow2(shift), Pow2(64 - shift), mult, offset);
    } else {
      LargeShift(cycles, shift, mult, offset);
    }
  }

  lemma LargeShift(cycles: u64, shift: nat, mult: u32, offset: u64)
    requires shift >= 64
    ensures PerfTimeDelta(cycles, shift, mult, offset) == offset
    ensures PerfTimeDelta(cycles, shift, mult, offset) == ExactTime(cycles, shift, mult, offset)
       <==> NothingLost(cycles, shift, mult)
  {
    hide Pow2;
    Pow2Of64();
    Pow2Monotone(64, shift);
    assert PerfTimeDelta(cycles, shift, mult, offset) == offset;
    WholeBelow(cycles, Pow2(shift), mult);
    ExcessShows(offset, cycles * mult / Pow2(shift));
  }

  lemma WholeBelow(cycles: u64, p: int, mult: u32)
    requires p >= TWO_64
    ensures 0 <= cycles * mult / p < TWO_32
    ensures cycles * mult / p == 0 <==> cycles * mult < p
  {
    QuotientSmall(cycles, p, mult);
    var q := cycles * mult / p;
    assert cycles * mult == q * p + cycles * mult % p;
    MultipleSize(q, p);
  }

  /** For shifts up to 32 the conversion is always exact. */
  lemma SmallShiftExact(cycles: u64, shift: nat, mult: u32, offset: u64)
    requires shift <= 32
    ensures PerfTimeDelta(cycles, shift, mult, offset) == ExactTime(cycles, shift, mult, offset)
  {
    hide PerfTimeDelta, ExactTime, Pow2;
    Pow2Of64();
    Pow2Monotone(shift, 32);
    MulMonotone(cycles % Pow2(shift), TWO_32, mult);
    TimeDeltaExactly(cycles, shift, mult, offset);
  }

  /** One more bit of shift can lose bits. */
  lemma WideShiftLoses(offset: u64)
    ensures PerfTimeDelta(0x1_FFFF_FFFF, 33, 0xFFFF_FFFF, offset) != ExactTime(0x1_FFFF_FFFF, 33, 0xFFFF_FFFF, offset)
  {
    hide PerfTimeDelta, ExactTime, Pow2;
    Pow2Of64();
    Pow2Step(33);
    TimeDeltaExactly(0x1_FFFF_FFFF, 33, 0xFFFF_FFFF, offset);
  }

  // ---- normalize_short_time -----------------------------------------------------------------------------------

  function NormalizeShortTime(cycles: u64, timeCycles: u64, mask: u64): u64 {
    WrappingAdd(timeCycles, Masked(WrappingSub(cycles, timeCycles), mask))
  }

  /** `d` steps on from `start` reach a value that agrees with `cycles` modulo `p`. */
  predicate InWindow(start: int, cycles: int, p: int, d: int)
    requires p > 0
  {
    0 <= d < p && (start + d - cycles) % p == 0
  }

  /** With a mask of `k` ones the result is the one value in the window of `2^k` from `timeCycles`, modulo
      2^64, that agrees with `cycles` in its low `k` bits. */
  lemma ShortTimeExact(cycles: u64, timeCycles: u64, k: nat)
    requires k <= 64
    ensures Pow2(k) - 1 < TWO_64
    ensures forall d :: InWindow(timeCycles, cycles, Pow2(k), d) ==>
              NormalizeShortTime(cycles, timeCycles, Pow2(k) - 1) == (timeCycles + d) % TWO_64
    ensures exists d :: InWindow(timeCycles, cycles, Pow2(k), d)
    ensures (NormalizeShortTime(cycles, timeCycles, Pow2(k) - 1) - cycles) % Pow2(k) == 0
  {
    hide Pow2, And;
    Pow2Of64();
    Pow2Monotone(k, 64);
    Pow2Add(k, 64 - k);
    var p := Pow2(k);
    var delta := cycles - timeCycles;
    AndMask(WrappingSub(cycles, timeCycles), k);
    ModMod(delta, p, Pow2(64 - k), TWO_64);
    assert NormalizeShortTime(cycles, timeCycles, p - 1) == (timeCycles + delta % p) % TWO_64;
    WindowUnique(timeCycles, cycles, p);
    Congruent(timeCycles + delta % p, cycles, p, Pow2(64 - k), -(delta / p));
  }

  lemma WindowUnique(start: int, cycles: int, p: int)
    requires p > 0
    ensures InWindow(start, cycles, p, (cycles - start) % p)
    ensures forall d :: InWindow(start, cycles, p, d) ==> d == (cycles - start) % p
    ensures start + (cycles - start) % p - cycles == (-((cycles - start) / p)) * p
  {
    var delta := cycles - start;
    assert start + delta % p - cycles == (-(delta / p)) * p;
    DivModIs(start + delta % p - cycles, p, -(delta / p), 0);
    forall d | InWindow(start, cycles, p, d) ensures d == delta % p {
      var q := (start + d - cycles) / p;
      assert start + d - cycles == q * p;
      assert delta == (-q) * p + d;
      DivModIs(delta, p, -q, d);
    }
  }

  /** Reducing to a word keeps congruence modulo a divisor of 2^64. */
  lemma Congruent(x: int, y: int, p: int, k: int, q: int)
    requires p > 0 && k > 0 && p * k == TWO_64 && x - y == q * p
    ensures (x % TWO_64 - y) % p == 0
  {
    var w := x / TWO_64;
    assert x % TWO_64 - y == (q - w * k) * p by {
      assert x == w * TWO_64 + x % TWO_64;
      MulAssoc(w, k, p);
      assert (q - w * k) * p == q * p - w * k * p;
    }
    DivModIs(x % TWO_64 - y, p, q - w * k, 0);
  }

  // ---- sign extension -----------------------------------------------------------------------------------------

  /** Shift up to the top of the word, then arithmetic shift back down. */
  function SignExtend(value: u64, width: nat): int {
    if width == 0 || width >= 64 then AsI64(value)
    else AsI64(value * Pow2(64 - width) % TWO_64) / Pow2(64 - width)
  }

  /** `s` is a two's complement reading of `value` with sign weight `half`. */
  predicate Represents(value: int, s: int, half: int)
    requires half > 0
  {
    -half <= s < half && (value - s) % (2 * half) == 0
  }

  /** The number of bits that carry the counter. */
  function EffectiveWidth(width: nat): (w: nat)
    ensures w > 0
  {
    if width == 0 || width >= 64 then 64 else width
  }

  /** The weight of the counter's sign bit. */
  function SignWeight(width: nat): (h: int)
    ensures h > 0
  {
    Pow2(EffectiveWidth(width) - 1)
  }

  /** Sign extension yields the one signed number of the counter's width congruent to the raw value. */
  lemma SignExtendExact(value: u64, width: nat)
    ensures Represents(value, SignExtend(value, width), SignWeight(width))
    ensures forall s :: Represents(value, s, SignWeight(width)) ==> s == SignExtend(value, width)
  {
    hide Pow2;
    var w := EffectiveWidth(width);
    var half := SignWeight(width);
    Pow2Of64();
    Pow2Step(w);
    if w < 64 {
      Pow2Add(w, 64 - w);
      ExtendNarrow(value, 2 * half, Pow2(64 - w), half);
    } else {
      assert half == TWO_63;
      DivModIs(value - AsI64(value), TWO_64, if value < TWO_63 then 0 else 1, 0);
    }
    SignedUnique(value, SignExtend(value, width), half);
  }

  lemma ExtendNarrow(value: u64, p: int, s: int, half: int)
    requires p > 0 && s > 0 && half > 0 && p == 2 * half && p * s == TWO_64
    ensures Represents(value, AsI64(value * s % TWO_64) / s, half)
  {
    hide Represents, AsI64;
    TopBits(value, p, s);
    assert half * s == TWO_63 by { MulAssoc(2, half, s); }
    if value % p < half {
      ExtendLow(value, p, s, half);
    } else {
      ExtendHigh(value, p, s, half);
    }
  }

  /** With the sign bit clear the low bits are the number. */
  lemma ExtendLow(value: u64, p: int, s: int, half: int)
    requires p > 0 && s > 0 && half > 0 && p == 2 * half && half * s == TWO_63
    requires value * s % TWO_64 == value % p * s && value % p < half
    ensures Represents(value, AsI64(value * s % TWO_64) / s, half)
  {
    var a, b := value / p, value % p;
    MulMonotone(b + 1, half, s);
    assert (b + 1) * s == b * s + s;
    DivModIs(b * s, s, b, 0);
    DivModIs(value - b, p, a, 0);
  }

  /** With the sign bit set the number is the low bits less their range. */
  lemma ExtendHigh(value: u64, p: int, s: int, half: int)
    requires p > 0 && s > 0 && half > 0 && p == 2 * half && p * s == TWO_64 && half * s == TWO_63
    requires value * s % TWO_64 == value % p * s && value % p >= half
    ensures Represents(value, AsI64(value * s % TWO_64) / s, half)
  {
    var a, b := value / p, value % p;
    MulMonotone(half, b, s);
    assert b * s - TWO_64 == (b - p) * s;
    DivModIs(b * s - TWO_64, s, b - p, 0);
    assert value - (b - p) == (a + 1) * p;
    DivModIs(value - (b - p), p, a + 1, 0);
  }

  /** Shifting up keeps exactly the low bits, at the top of the word. */
  lemma TopBits(value: u64, p: int, s: int)
    requires p > 0 && s > 0 && p * s == TWO_64
    ensures value * s % TWO_64 == value % p * s
  {
    var a, b := value / p, value % p;
    assert value * s == a * TWO_64 + b * s by {
      assert value == a * p + b;
      assert (a * p + b) * s == a * p * s + b * s;
      MulAssoc(a, p, s);
    }
    MulMonotone(b + 1, p, s);
    assert (b + 1) * s == b * s + s;
    MulMonotone(0, b, s);
    DivModIs(value * s, TWO_64, a, b * s);
  }

  lemma SignedUnique(value: int, r: int, half: int)
    requires half > 0 && Represents(value, r, half)
    ensures forall s :: Represents(value, s, half) ==> s == r
  {
    var m := 2 * half;
    forall s | Represents(value, s, half) ensures s == r {
      var a, b := (value - r) / m, (value - s) / m;
      assert value - r == a * m && value - s == b * m;
      assert (a - b) * m == a * m - b * m;
      MultipleSize(a - b, m);
    }
  }

  /** The published offset plus the sign-extended hardware counter, wrapping. */
  function MetadataCounterValue(offset: int, raw: u64, width: nat): u64 {
    (offset + SignExtend(raw, width)) % TWO_64
  }

  /** A counter reads as the offset plus the one signed number the raw value stands for, modulo 2^64; its low
      bits are those of offset plus raw value. */
  lemma CounterValueExact(offset: int, raw: u64, width: nat)
    ensures forall s :: Represents(raw, s, SignWeight(width)) ==> MetadataCounterValue(offset, raw, width) == (offset + s) % TWO_64
    ensures (MetadataCounterValue(offset, raw, width) - (offset + raw)) % Pow2(EffectiveWidth(width)) == 0
  {
    hide Pow2, SignExtend;
    var w := EffectiveWidth(width);
    Pow2Of64();
    Pow2Step(w);
    Pow2Add(w, 64 - w);
    SignExtendExact(raw, width);
    var p, r := Pow2(w), SignExtend(raw, width);
    var q := (raw - r) / p;
    assert raw - r == q * p;
    Congruent(offset + r, offset + raw, p, Pow2(64 - w), -q);
  }
}
