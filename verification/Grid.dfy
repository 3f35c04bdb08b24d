/** Adaptive bin widths and the folded sample heatmap. */
module Grid {
  import opened Basics
  import opened Modular

  // ---- 1/2/5 widths -------------------------------------------------------------------------------------------

  function SaturatingMul(a: u64, b: u64): (r: u64) {
    assert a * b >= 0 by { MulMonotone(0, a, b); }
    Min(U64_MAX, a * b)
  }

  function Pow10(n: nat): (p: int)
    ensures p > 0
  {
    if n == 0 then 1 else 10 * Pow10(n - 1)
  }

  lemma {:induction false} Pow10Monotone(a: nat, b: nat)
    requires a <= b
    ensures Pow10(a) <= Pow10(b)
    decreases b - a
  {
    if a < b { Pow10Monotone(a, b - 1); }
  }

  /** A width of the form 1, 2 or 5 times a power of ten. */
  predicate NiceAt(v: int, n: nat) {
    v == Pow10(n) || v == 2 * Pow10(n) || v == 5 * Pow10(n)
  }

  ghost predicate Nice(v: int) {
    exists n: nat :: NiceAt(v, n)
  }

  /** Between one power of ten and the next the only nice widths are 1, 2 and 5 times the lower one. */
  lemma NiceWithin(v: int, k: nat, n: nat)
    requires NiceAt(v, k)
    ensures v <= Pow10(n) || v == 2 * Pow10(n) || v == 5 * Pow10(n) || v >= 10 * Pow10(n)
  {
    if k < n {
      Pow10Monotone(k, n - 1);
    } else if k > n {
      Pow10Monotone(n + 1, k);
    }
  }

  const LARGEST_POWER: int := 10_000_000_000_000_000_000

  /** The next nice width at or above the minimum (of at least one): the least there is, so never 2.5 times
      the minimum or more; minimums above 10^19 saturate to the largest word. */
  method NiceBinWidth(m: u64) returns (r: u64)
    ensures r >= 1 && r >= m
    ensures r == Max(m, 1) || 2 * r < 5 * Max(m, 1)
    ensures m <= LARGEST_POWER ==> Nice(r) && forall v :: Nice(v) && v >= Max(m, 1) ==> v >= r
    ensures m > LARGEST_POWER ==> r == U64_MAX
  {
    hide Pow10, Nice, Least;
    var minimum: u64 := Max(m, 1);
    var magnitude: u64 := 1;
    ghost var n: nat := 0;
    PowerSteps(0);
    while magnitude <= minimum / 10
      invariant magnitude == Pow10(n) && magnitude <= minimum
      decreases minimum - magnitude
    {
      var next := SaturatingMul(magnitude, 10);
      if next == magnitude {
        break;
      }
      PowerSteps(n);
      magnitude, n := next, n + 1;
    }
    r := FirstReaching(minimum, magnitude, n);
    LeastIs(r, minimum);
  }

  /** The first of 1, 2, 5 and 10 times the magnitude that reaches the minimum. */
  method FirstReaching(minimum: u64, magnitude: u64, ghost n: nat) returns (r: u64)
    requires magnitude == Pow10(n) && magnitude <= minimum < 10 * magnitude
    ensures r == minimum || 2 * r < 5 * minimum
    ensures minimum <= LARGEST_POWER ==> Least(r, minimum)
    ensures minimum > LARGEST_POWER ==> r == U64_MAX
    ensures r >= minimum
  {
    hide Pow10, Nice, Least;
    PowersInWord(n);
    var multipliers: seq<u64> := [1, 2, 5, 10];
    r := U64_MAX;
    for i := 0 to |multipliers|
      invariant i > 0 ==> multipliers[i - 1] * magnitude < minimum
    {
      var candidate := SaturatingMul(magnitude, multipliers[i]);
      if candidate >= minimum {
        NextNice(minimum, n, multipliers[i], candidate);
        return candidate;
      }
    }
  }

  lemma PowerSteps(n: nat)
    ensures Pow10(0) == 1 && Pow10(n + 1) == 10 * Pow10(n)
  {
  }

  /** The powers of ten that fit a word. */
  lemma PowersInWord(n: nat)
    ensures Pow10(n) <= U64_MAX ==> n <= 19
    ensures n <= 18 ==> 10 * Pow10(n) <= LARGEST_POWER
    ensures n == 19 ==> Pow10(n) == LARGEST_POWER
  {
    assert Pow10(4) == 10_000;
    assert Pow10(8) == 100_000_000;
    assert Pow10(12) == 1_000_000_000_000;
    assert Pow10(16) == 10_000_000_000_000_000;
    assert Pow10(18) == 1_000_000_000_000_000_000;
    assert Pow10(20) == 10 * LARGEST_POWER;
    if n >= 20 { Pow10Monotone(20, n); }
    if n <= 18 { Pow10Monotone(n, 18); }
  }

  ghost predicate Least(r: int, minimum: int) {
    Nice(r) && r >= minimum && forall v :: Nice(v) && v >= minimum ==> v >= r
  }

  lemma LeastIs(r: int, minimum: int)
    ensures Least(r, minimum) <==> Nice(r) && r >= minimum && forall v :: Nice(v) && v >= minimum ==> v >= r
  {
  }

  /** The least nice width at or above a minimum is found by trying 1, 2, 5 and 10 in turn. */
  lemma LeastAmong(minimum: int, n: nat)
    requires Pow10(n) <= minimum < 10 * Pow10(n)
    ensures var g := Pow10(n);
      && (minimum == g ==> Least(g, minimum))
      && (g < minimum <= 2 * g ==> Least(2 * g, minimum))
      && (2 * g < minimum <= 5 * g ==> Least(5 * g, minimum))
      && (5 * g < minimum ==> Least(10 * g, minimum))
  {
    var g := Pow10(n);
    assert NiceAt(g, n) && NiceAt(2 * g, n) && NiceAt(5 * g, n) && NiceAt(10 * g, n + 1);
    forall v | Nice(v) ensures v <= g || v == 2 * g || v == 5 * g || v >= 10 * g {
      var k: nat :| NiceAt(v, k);
      NiceWithin(v, k, n);
    }
  }

  /** The first multiplier that reaches the minimum gives the answer. */
  lemma NextNice(minimum: u64, n: nat, multiplier: int, candidate: u64)
    requires Pow10(n) <= minimum < 10 * Pow10(n) && n <= 19
    requires multiplier in {1, 2, 5, 10}
    requires multiplier == 2 ==> Pow10(n) < minimum
    requires multiplier == 5 ==> 2 * Pow10(n) < minimum
    requires multiplier == 10 ==> 5 * Pow10(n) < minimum
    requires candidate == Min(U64_MAX, Pow10(n) * multiplier) && candidate >= minimum
    ensures candidate == minimum || 2 * candidate < 5 * minimum
    ensures minimum <= LARGEST_POWER ==> Least(candidate, minimum)
    ensures minimum > LARGEST_POWER ==> candidate == U64_MAX
  {
    hide Pow10, Nice, Least;
    PowersInWord(n);
    LeastAmong(minimum, n);
  }

  // ---- grid geometry ------------------------------------------------------------------------------------------

  function DivCeil(value: u64, divisor: u64): u64 {
    if divisor == 0 then U64_MAX
    else
      DivBound(value, divisor);
      DivCeilFits(value, divisor);
      value / divisor + (if value % divisor != 0 then 1 else 0)
  }

  lemma DivCeilFits(value: u64, divisor: u64)
    requires divisor > 0
    ensures value % divisor != 0 ==> value / divisor < U64_MAX
  {
    if divisor >= 2 { MulMonotone(2, divisor, value / divisor); DivBound(value, divisor); }
    assert value == value / divisor * divisor + value % divisor;
  }

  /** Ceiling division: the least number of divisors that covers the value. */
  lemma DivCeilExact(value: u64, divisor: u64)
    requires divisor > 0
    ensures forall k: int :: k * divisor >= value <==> k >= DivCeil(value, divisor)
  {
    var q := value / divisor;
    assert value == q * divisor + value % divisor;
    forall k: int ensures k * divisor >= value <==> k >= DivCeil(value, divisor) {
      assert (k - q) * divisor == k * divisor - q * divisor;
      MultipleSize(k - q, divisor);
    }
  }

  /** The heatmap's shape: `rows` folds of the range, each cut into `columns` bins. */
  datatype Shape = Shape(start: u64, end: u64, fold: u64, width: u64, rows: nat, columns: nat) {
    predicate InRange(t: int) { start <= t < end }

    /** The stretch of time a cell stands for. */
    predicate InCell(row: nat, column: nat, t: int) {
      && InRange(t)
      && start + row * fold + column * width <= t < start + row * fold + Min((column + 1) * width, fold)
    }

    /** Folds cover the range and bins cover a fold. */
    predicate Ok() {
      && start < end && fold > 0 && width > 0
      && rows * fold >= end - start
      && columns * width >= fold
    }
  }

  function RowOf(s: Shape, t: int): int
    requires s.Ok()
  {
    (t - s.start) / s.fold
  }

  function ColumnOf(s: Shape, t: int): int
    requires s.Ok()
  {
    (t - s.start) % s.fold / s.width
  }

  /** Every instant of the range lies in exactly one cell, the one the sample loop computes. */
  lemma OneCell(s: Shape, t: int)
    requires s.Ok() && s.InRange(t)
    ensures 0 <= RowOf(s, t) < s.rows && 0 <= ColumnOf(s, t) < s.columns
    ensures s.InCell(RowOf(s, t), ColumnOf(s, t), t)
    ensures forall r: nat, c: nat :: s.InCell(r, c, t) ==> r == RowOf(s, t) && c == ColumnOf(s, t)
  {
    var d := t - s.start;
    var row, within := d / s.fold, d % s.fold;
    var column := within / s.width;
    assert d == row * s.fold + within;
    assert within == column * s.width + within % s.width;
    DivBound(d, s.fold);
    DivBound(within, s.width);
    Below(row, s.rows, s.fold, d);
    Below(column, s.columns, s.width, within);
    assert (column + 1) * s.width == column * s.width + s.width;
    forall r: nat, c: nat | s.InCell(r, c, t) ensures r == row && c == column {
      CellIs(s, r, c, t);
    }
  }

  lemma Below(q: int, n: int, m: int, x: int)
    requires m > 0 && q * m <= x < n * m
    ensures q < n
  {
    if q >= n { MulMonotone(n, q, m); }
  }

  lemma CellIs(s: Shape, r: nat, c: nat, t: int)
    requires s.Ok() && s.InCell(r, c, t)
    ensures r == RowOf(s, t) && c == ColumnOf(s, t)
  {
    var d := t - s.start;
    var within := d - r * s.fold;
    MulMonotone(0, c, s.width);
    DivModIs(d, s.fold, r, within);
    assert (c + 1) * s.width == c * s.width + s.width;
    DivModIs(within, s.width, c, within - c * s.width);
  }

  // ---- counting -----------------------------------------------------------------------------------------------

  function InRangeCount(s: Shape, times: seq<u64>): nat {
    if times == [] then 0
    else InRangeCount(s, times[..|times| - 1]) + (if s.InRange(times[|times| - 1]) then 1 else 0)
  }

  /** Samples whose time lies in a cell. */
  function CellCount(s: Shape, times: seq<u64>, row: nat, column: nat): nat {
    if times == [] then 0
    else
      CellCount(s, times[..|times| - 1], row, column) + (if s.InCell(row, column, times[|times| - 1]) then 1 else 0)
  }

  lemma {:induction false} CountsBounded(s: Shape, times: seq<u64>, row: nat, column: nat)
    ensures CellCount(s, times, row, column) <= InRangeCount(s, times) <= |times|
  {
    if times != [] { CountsBounded(s, times[..|times| - 1], row, column); }
  }

  lemma CountSnoc(s: Shape, times: seq<u64>, t: u64)
    ensures InRangeCount(s, times + [t]) == InRangeCount(s, times) + (if s.InRange(t) then 1 else 0)
    ensures forall row: nat, column: nat :: CellCount(s, times + [t], row, column)
                              == CellCount(s, times, row, column) + (if s.InCell(row, column, t) then 1 else 0)
  {
    assert (times + [t])[..|times + [t]| - 1] == times;
  }

  function Itself(n: nat): int { n }

  /** The bins hold the cell counts and add up to the number of samples in range. */
  ghost predicate BinsOk(s: Shape, bins: seq<nat>, times: seq<u64>) {
    && |bins| == s.rows * s.columns
    && (forall r: nat, c: nat | r < s.rows && c < s.columns :: BinOk(s, bins, times, r, c))
    && Sum(bins, Itself) == InRangeCount(s, times)
  }

  ghost predicate BinOk(s: Shape, bins: seq<nat>, times: seq<u64>, r: nat, c: nat) {
    var i := r * s.columns + c;
    0 <= i < |bins| && bins[i] == CellCount(s, times, r, c)
  }

  lemma IndexFits(r: nat, c: nat, rows: nat, columns: nat)
    requires r < rows && c < columns
    ensures 0 <= r * columns + c < rows * columns
  {
    MulMonotone(0, r, columns);
    MulMonotone(r + 1, rows, columns);
    assert (r + 1) * columns == r * columns + columns;
  }

  lemma IndexUnique(r: nat, c: nat, r': nat, c': nat, columns: nat)
    requires c < columns && c' < columns && r * columns + c == r' * columns + c'
    ensures r == r' && c == c'
  {
    DivModIs(r * columns + c, columns, r, c);
    DivModIs(r' * columns + c', columns, r', c');
  }

  /** One sample adds one to its own cell and to no other. */
  lemma AddSample(s: Shape, bins: seq<nat>, times: seq<u64>, t: u64)
    requires s.Ok() && s.InRange(t) && BinsOk(s, bins, times)
    ensures 0 <= RowOf(s, t) < s.rows && 0 <= ColumnOf(s, t) < s.columns
    ensures var i := RowOf(s, t) * s.columns + ColumnOf(s, t);
      0 <= i < |bins| && bins[i] <= |times| && BinsOk(s, bins[i := bins[i] + 1], times + [t])
  {
    hide CellCount, InRangeCount, RowOf, ColumnOf;
    OneCell(s, t);
    var row: nat, column: nat := RowOf(s, t), ColumnOf(s, t);
    IndexFits(row, column, s.rows, s.columns);
    var i := row * s.columns + column;
    assert BinOk(s, bins, times, row, column);
    CountsBounded(s, times, row, column);
    CountSnoc(s, times, t);
    var next := bins[i := bins[i] + 1];
    SumUpdate(bins, i, bins[i] + 1, Itself);
    forall r: nat, c: nat | r < s.rows && c < s.columns ensures BinOk(s, next, times + [t], r, c) {
      IndexFits(r, c, s.rows, s.columns);
      assert BinOk(s, bins, times, r, c);
      if r * s.columns + c == i { IndexUnique(r, c, row, column, s.columns); }
    }
  }

  lemma SkipSample(s: Shape, bins: seq<nat>, times: seq<u64>, t: u64)
    requires !s.InRange(t) && BinsOk(s, bins, times)
    ensures BinsOk(s, bins, times + [t])
  {
    CountSnoc(s, times, t);
    forall r: nat, c: nat | r < s.rows && c < s.columns ensures BinOk(s, bins, times + [t], r, c) {
      assert BinOk(s, bins, times, r, c);
    }
  }

  lemma EmptyGrid(s: Shape)
    ensures s.rows * s.columns >= 0
    ensures BinsOk(s, seq(s.rows * s.columns, _ => 0), [])
  {
    MulMonotone(0, s.rows, s.columns);
    var bins: seq<nat> := seq(s.rows * s.columns, _ => 0);
    SumZero(bins, Itself);
    forall r: nat, c: nat | r < s.rows && c < s.columns ensures BinOk(s, bins, [], r, c) {
      IndexFits(r, c, s.rows, s.columns);
    }
  }

  // ---- the build ----------------------------------------------------------------------------------------------

  const MIN_FOLD_BINS: u64 := 12

  datatype Heatmap = Heatmap(shape: Shape, bins: seq<nat>, totalSamples: nat, maxSamples: nat)

  const SECOND: int := 1_000_000_000

  /** The row length for a duration: the least nice width of which sixty cover it. */
  ghost predicate IsFold(duration: u64, fold: int) {
    Least(fold, Max(DivCeil(duration, 60), 1))
  }

  lemma SecondIsNice()
    ensures Nice(SECOND) && Nice(2 * SECOND) && Pow10(9) == SECOND
  {
    assert Pow10(4) == 10_000;
    assert Pow10(9) == SECOND;
    assert NiceAt(SECOND, 9) && NiceAt(2 * SECOND, 9);
  }

  lemma LargestIsNice()
    ensures Nice(LARGEST_POWER)
  {
    PowersInWord(19);
    assert NiceAt(LARGEST_POWER, 19);
  }

  /** A row is capped at one second exactly for recordings of up to a minute. */
  lemma OneSecondExactly(duration: u64, fold: int)
    requires IsFold(duration, fold)
    ensures fold <= SECOND <==> duration <= 60 * SECOND
  {
    hide Nice;
    SecondIsNice();
    DivCeilExact(duration, 60);
    assert SECOND * 60 >= duration <==> SECOND >= DivCeil(duration, 60);
  }

  /** Two minutes are folded into rows of two seconds. */
  lemma TwoMinutesExceedSecond(fold: int)
    requires IsFold(120 * SECOND, fold)
    ensures fold == 2 * SECOND
  {
    hide Nice;
    SecondIsNice();
  }

  method FoldPeriod(duration: u64) returns (fold: u64)
    ensures fold >= 1 && 60 * fold >= duration
    ensures IsFold(duration, fold) && fold <= LARGEST_POWER
    ensures fold <= SECOND <==> duration <= 60 * SECOND
  {
    hide Nice;
    LargestIsNice();
    DivCeilExact(duration, 60);
    assert LARGEST_POWER * 60 >= duration;
    fold := NiceBinWidth(Max(DivCeil(duration, 60), 1));
    OneSecondExactly(duration, fold);
  }

  function Clamp(x: int, low: int, high: int): int { if x < low then low else if x > high then high else x }

  /** `n` is the least number of pieces of the given size that cover the length. */
  predicate Covers(n: int, size: int, length: int) { n >= 1 && (n - 1) * size < length <= n * size }

  /** Half the samples of a row, rounded down, but within the limits: at least twelve and at most the cap, or
      the cap if that is less than twelve. */
  predicate IsTarget(target: int, accepted: int, rows: int, cap: int) {
    && Min(12, cap) <= target <= cap
    && (target > Min(12, cap) ==> 2 * rows * target <= accepted)
    && (target < cap ==> accepted < 2 * rows * (target + 1))
  }

  /** The least nice width of which the target number covers a row. */
  ghost predicate IsWidth(width: int, fold: int, target: int) {
    && Nice(width) && width * target >= fold
    && forall v :: Nice(v) && v * target >= fold ==> v >= width
  }

  /** The shape of the grid for a number of samples: rows of the fold's length that just cover the range, and
      bins of the width for the target that just cover a row. */
  ghost predicate ShapeIs(s: Shape, maxBins: u64, accepted: int) {
    && s.start < s.end && IsFold(s.end - s.start, s.fold) && Covers(s.rows, s.fold, s.end - s.start)
    && Covers(s.columns, s.width, s.fold)
    && exists target :: IsTarget(target, accepted, s.rows, Max(maxBins, 1)) && IsWidth(s.width, s.fold, target)
  }

  /** Chooses rows, bin width and columns. */
  method ChooseShape(start: u64, end: u64, maxBins: u64, accepted: u64) returns (s: Shape)
    requires start < end
    ensures s.Ok() && s.start == start && s.end == end
    ensures 1 <= s.rows <= 60 && 1 <= s.columns <= Max(maxBins, 1)
    ensures s.columns <= 12 || s.rows * s.columns <= accepted
    ensures ShapeIs(s, maxBins, accepted)
  {
    hide Nice, IsFold, DivCeil;
    var duration := end - start;
    var fold := FoldPeriod(duration);
    CeilCovers(duration, fold);
    DivCeilExact(duration, fold);
    var rows: u64 := Max(DivCeil(duration, fold), 1);
    var cap: u64 := Max(maxBins, 1);
    DivBound(accepted, rows);
    var target: u64 := Clamp(accepted / rows / 2, Min(MIN_FOLD_BINS, cap), cap);
    TargetIs(accepted, rows, cap);
    var nice := NiceBinWidth(DivCeil(fold, target));
    WidthIs(duration, fold, target, nice);
    var width: u64 := Max(Min(nice, fold), 1);
    CeilCovers(fold, width);
    var columns: u64 := Max(DivCeil(fold, width), 1);
    s := Shape(start, end, fold, width, rows, columns);
    ColumnsWithin(fold, target, width, columns);
    CellsWithin(accepted, rows, columns, target);
  }

  lemma CeilCovers(length: u64, size: u64)
    requires length > 0 && size > 0
    ensures Covers(DivCeil(length, size), size, length)
  {
    hide DivCeil;
    DivCeilExact(length, size);
    var q := DivCeil(length, size);
    assert q * size >= length;
    assert !((q - 1) * size >= length);
    assert !(0 * size >= length);
  }

  lemma TargetIs(accepted: u64, rows: u64, cap: u64)
    requires rows > 0 && cap > 0
    ensures IsTarget(Clamp(accepted / rows / 2, Min(MIN_FOLD_BINS, cap), cap), accepted, rows, cap)
  {
    var d := accepted / rows / 2;
    DivBound(accepted, rows);
    HalfDensity(accepted, rows, d);
    var target := Clamp(d, Min(MIN_FOLD_BINS, cap), cap);
    if target > Min(12, cap) { MulMonotone(target, d, 2 * rows); }
    if target < cap { MulMonotone(d + 1, target + 1, 2 * rows); }
  }

  lemma HalfDensity(accepted: nat, rows: nat, d: nat)
    requires rows > 0 && d == accepted / rows / 2
    ensures d * (2 * rows) <= accepted < (d + 1) * (2 * rows)
  {
    var q := accepted / rows;
    assert accepted == q * rows + accepted % rows;
    MulMonotone(2 * d, q, rows);
    MulMonotone(q + 1, 2 * d + 2, rows);
    assert d * (2 * rows) == 2 * d * rows && (d + 1) * (2 * rows) == (2 * d + 2) * rows;
    assert (q + 1) * rows == q * rows + rows;
  }

  /** The fold is a nice width itself, so the least one for the target never exceeds it. */
  lemma WidthIs(duration: u64, fold: u64, target: u64, nice: u64)
    requires IsFold(duration, fold) && 1 <= fold <= LARGEST_POWER && target > 0 && nice >= 1
    requires DivCeil(fold, target) <= LARGEST_POWER ==>
               Nice(nice) && nice >= DivCeil(fold, target) && forall v :: Nice(v) && v >= Max(DivCeil(fold, target), 1) ==> v >= nice
    ensures nice <= fold && nice >= DivCeil(fold, target) && IsWidth(nice, fold, target)
  {
    hide Nice, DivCeil;
    DivCeilExact(fold, target);
    assert fold * target >= fold by { MulMonotone(1, target, fold); }
    CeilCovers(fold, target);
    assert Nice(fold);
    forall v ensures v * target >= fold <==> v >= DivCeil(fold, target) {
    }
  }

  lemma ColumnsWithin(fold: u64, target: u64, width: u64, columns: u64)
    requires fold > 0 && target > 0 && 0 < width && columns == Max(DivCeil(fold, width), 1)
    requires width == fold || width >= DivCeil(fold, target)
    ensures columns <= target
  {
    hide DivCeil;
    DivCeilExact(fold, width);
    DivCeilExact(fold, target);
    if width == fold {
      assert 1 * width >= fold;
    } else {
      assert width * target >= fold;
      assert target * width >= fold;
    }
  }

  lemma CellsWithin(accepted: u64, rows: u64, columns: u64, target: u64)
    requires rows > 0 && 0 < columns <= target
    requires target <= MIN_FOLD_BINS || target <= accepted / rows / 2
    ensures columns <= 12 || rows * columns <= accepted
  {
    if target > 12 {
      MulMonotone(columns, accepted / rows, rows);
      assert accepted == accepted / rows * rows + accepted % rows;
    }
  }

  method CountAccepted(times: seq<u64>, start: u64, end: u64) returns (accepted: nat)
    ensures forall fold, width, rows, columns ::
              accepted == InRangeCount(Shape(start, end, fold, width, rows, columns), times)
    ensures accepted <= |times|
  {
    accepted := 0;
    for k := 0 to |times|
      invariant accepted <= k
      invariant forall fold, width, rows, columns ::
                  accepted == InRangeCount(Shape(start, end, fold, width, rows, columns), times[..k])
    {
      assert times[..k + 1][..k] == times[..k];
      if start <= times[k] < end { accepted := accepted + 1; }
    }
    assert times[..|times|] == times;
  }

  method LargestBin(bins: seq<nat>) returns (m: nat)
    ensures forall b <- bins :: b <= m
    ensures bins == [] ==> m == 0
    ensures bins != [] ==> m in bins
  {
    m := 0;
    for i := 0 to |bins|
      invariant forall j | 0 <= j < i :: bins[j] <= m
      invariant if i == 0 then m == 0 else m in bins[..i]
    {
      if i == 0 || bins[i] > m { m := bins[i]; }
      assert bins[..i + 1] == bins[..i] + [bins[i]];
    }
    assert bins[..|bins|] == bins;
  }

  /** Builds the grid from the times of the samples the filter accepts. The only input without a grid is an
      empty range; otherwise the grid stays within its limits, each bin counts exactly the samples in its
      stretch of time, and no sample in range is left out or counted twice. */
  method BuildFlameScope(times: seq<u64>, start: u64, end: u64, maxBins: u64) returns (h: Option<Heatmap>)
    requires |times| < TWO_64
    ensures h.None? <==> end <= start
    ensures h.Some? ==>
              var m := h.value;
              && m.shape.Ok() && m.shape.start == start && m.shape.end == end
              && 1 <= m.shape.rows <= 60 && 1 <= m.shape.columns <= Max(maxBins, 1)
              && ShapeIs(m.shape, maxBins, InRangeCount(m.shape, times))
              && BinsOk(m.shape, m.bins, times)
              && m.totalSamples == InRangeCount(m.shape, times)
              && m.maxSamples in m.bins
              && forall b <- m.bins :: b <= m.maxSamples
  {
    hide ShapeIs;
    var duration := Max(end - start, 0);
    if duration == 0 {
      return None;
    }
    var accepted := CountAccepted(times, start, end);
    var s := ChooseShape(start, end, maxBins, accepted);
    CellsFit(s, accepted);
    if s.rows * s.columns > U64_MAX {
      return None;
    }
    EmptyGrid(s);
    var bins: seq<nat> := seq(s.rows * s.columns, _ => 0);
    var total: nat := 0;
    for k := 0 to |times|
      invariant BinsOk(s, bins, times[..k])
      invariant total == InRangeCount(s, times[..k]) <= k
    {
      var t := times[k];
      assert times[..k + 1] == times[..k] + [t];
      CountSnoc(s, times[..k], t);
      if t < s.start || t >= s.end {
        SkipSample(s, bins, times[..k], t);
        continue;
      }
      AddSample(s, bins, times[..k], t);
      var row, column := (t - s.start) / s.fold, (t - s.start) % s.fold / s.width;
      var index := row * s.columns + column;
      if index >= |bins| {
        continue;
      }
      bins := bins[index := Min(U64_MAX, bins[index] + 1)];
      total := Min(U64_MAX, total + 1);
    }
    assert times[..|times|] == times;
    var largest := LargestBin(bins);
    assert |bins| > 0 by { IndexFits(0, 0, s.rows, s.columns); }
    h := Some(Heatmap(s, bins, total, largest));
  }

  lemma CellsFit(s: Shape, accepted: nat)
    requires s.rows <= 60 && accepted < TWO_64
    requires s.columns <= 12 || s.rows * s.columns <= accepted
    ensures 0 <= s.rows * s.columns <= U64_MAX
  {
    MulMonotone(0, s.rows, s.columns);
    if s.columns <= 12 {
      MulMonotone(s.rows, 60, s.columns);
    }
  }
}
