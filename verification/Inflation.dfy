/**
 * The yearly inflation cap: year arithmetic, the halving schedule, and the controller that
 * runs before the mint module in every block.
 *
 * A LegacyDec is an integer number of units of 10^-18.
 */
module Inflation {
  import opened Common

  const RATE_6: int := 44_100_000_000_000_000

  /** InflationSchedule */
  function ScheduledRate(year: int): Option<int> {
    if year == 1 then Some(344_100_000_000_000_000)
    else if year == 2 then Some(256_000_000_000_000_000)
    else if year == 3 then Some(103_800_000_000_000_000)
    else if year == 4 then Some(94_000_000_000_000_000)
    else if year == 5 then Some(46_100_000_000_000_000)
    else if year == 6 then Some(RATE_6)
    else None
  }

  function Abs(x: int): nat {
    if x < 0 then -x else x
  }

  /** LegacyDec.Quo by a whole number: how it rounds is the SDK's business, within these laws. */
  datatype Rounding = Rounding(quo: (int, int) -> int) {
    /** Strictly less than one unit from the exact quotient. */
    ghost predicate WithinOneUnit() {
      forall a: int, d: int :: d != 0 ==> Abs(quo(a, d) * d - a) < Abs(d)
    }

    ghost predicate Monotone() {
      forall a: nat, d: int, e: int :: 0 < d <= e ==> quo(a, e) <= quo(a, d)
    }

    ghost predicate Lawful() {
      WithinOneUnit() && Monotone()
    }
  }

  // ----- the SDK's rounding is lawful --------------------------------------------------------

  const UNITS: int := 1_000_000_000_000_000_000

  /** chopPrecisionAndRound: drop 18 decimals, ties to even. */
  function Chop(t: nat): nat {
    var whole, rest := t / UNITS, t % UNITS;
    if 2 * rest < UNITS then whole
    else if 2 * rest > UNITS then whole + 1
    else if whole % 2 == 0 then whole
    else whole + 1
  }

  /** LegacyDec.Quo by the whole number `d`, signs handled as for big.Int. */
  function HalfEven(a: int, d: int): int {
    if d == 0 then 0
    else
      var size: int := Chop((Abs(a) * UNITS) / Abs(d));
      if (a < 0) == (d < 0) then size else -size
  }

  lemma ChopIsNear(t: nat)
    ensures -UNITS <= 2 * (Chop(t) * UNITS - t) <= UNITS
  {
  }

  lemma ChopIsMonotone(t: nat, u: nat)
    requires t <= u
    ensures Chop(t) <= Chop(u)
  {
  }

  lemma HalfEvenIsNear(a: nat, d: nat)
    requires d > 0
    ensures Abs(Chop((a * UNITS) / d) * d - a) < d
  {
    hide Chop;
    var t := (a * UNITS) / d;
    var q := Chop(t);
    DivisionBounds(a * UNITS, d);
    ChopIsNear(t);
    ScaledNear(q, t, d);
  }

  lemma ScaledNear(q: nat, t: nat, d: nat)
    requires -UNITS <= 2 * (q * UNITS - t) <= UNITS
    ensures -UNITS * d <= 2 * UNITS * (q * d) - 2 * (t * d) <= UNITS * d
    ensures (t + 1) * d == t * d + d
  {
    var x := 2 * (q * UNITS - t);
    MulGrows(x, UNITS, d);
    MulGrows(-UNITS, x, d);
    assert x * d == 2 * UNITS * (q * d) - 2 * (t * d);
  }

  lemma SmallerDivisor(n: nat, d: nat, e: nat)
    requires 0 < d <= e
    ensures n / e <= n / d
  {
    DivisionBounds(n, d);
    DivisionBounds(n, e);
    if n / d < n / e {
      MulGrows(n / d + 1, n / e, d);
      MulGrows(d, e, n / e);
    }
  }

  /** The laws asked of the rounding hold of ties-to-even, so they can be met. */
  lemma HalfEvenIsLawful()
    ensures Rounding(HalfEven).Lawful()
  {
    hide Chop;
    var q := Rounding(HalfEven);
    forall a: int, d: int | d != 0
      ensures Abs(q.quo(a, d) * d - a) < Abs(d)
    {
      HalfEvenIsNear(Abs(a), Abs(d));
      var size := Chop((Abs(a) * UNITS) / Abs(d));
      assert (-size) * d == -(size * d) && size * (-d) == -(size * d);
    }
    forall a: nat, d: int, e: int | 0 < d <= e
      ensures q.quo(a, e) <= q.quo(a, d)
    {
      SmallerDivisor(a * UNITS, d, e);
      ChopIsMonotone((a * UNITS) / e, (a * UNITS) / d);
    }
  }

  // ----- years --------------------------------------------------------------------

  /** calculateYearFromHeight on int64 values */
  function Year(height: int, blocksPerYear: int): int {
    if height <= 0 || blocksPerYear <= 0 then 1 else (height - 1) / blocksPerYear + 1
  }

  /**
   * Block `h` lies in year `y` exactly when (y-1)*b < h <= y*b, for every uint64 `b` other than
   * zero, also when the conversion of `b` to int64 turns negative.
   */
  lemma YearPartition(h: int, b: nat, y: int)
    requires 1 <= h < TWO63 && 0 < b < TWO64
    ensures y == Year(h, Int64(b)) <==> (y - 1) * b < h <= y * b
  {
    hide Int64;
    var year := Year(h, Int64(b));
    if b < TWO63 {
      DivisionBounds(h - 1, b);
    } else {
      assert year == 1;
    }
    assert (year - 1) * b < h <= year * b;
    if (y - 1) * b < h <= y * b {
      NotBothBetween(h, b, y, year);
    }
  }

  lemma NotBothBetween(h: int, b: nat, y: int, z: int)
    requires (y - 1) * b < h <= y * b
    requires (z - 1) * b < h <= z * b
    ensures y == z
  {
    if y < z { MulGrows(y, z - 1, b); }
    if z < y { MulGrows(z, y - 1, b); }
  }

  lemma DivisionBounds(n: nat, b: nat)
    requires b > 0
    ensures (n / b) * b <= n < (n / b + 1) * b
  {
    assert n == (n / b) * b + n % b;
    assert (n / b + 1) * b == (n / b) * b + b;
  }

  lemma MulGrows(x: int, y: int, b: nat)
    requires x <= y
    ensures x * b <= y * b
  {
    assert (y - x) * b >= 0;
    assert y * b == x * b + (y - x) * b;
  }

  lemma YearsNeverGoBack(h: int, k: int, b: nat)
    requires 1 <= h <= k < TWO63 && 0 < b < TWO64
    ensures Year(h, Int64(b)) <= Year(k, Int64(b))
  {
    var y, z := Year(h, Int64(b)), Year(k, Int64(b));
    YearPartition(h, b, y);
    YearPartition(k, b, z);
    if z < y { MulGrows(z, y - 1, b); }
  }

  // ----- the doubling loop -------------------------------------------------------------

  /** What `denominator *= 2`, done `cycles` times, should leave, cut down to an int64. */
  function Denominator(cycles: nat): int {
    Int64(Pow2(cycles))
  }

  lemma Pow2UpTo62(k: nat)
    requires k <= 62
    ensures 1 <= Pow2(k) < TWO63
  {
    Pow2Grows(k, 62);
    Pow2Of62();
  }

  lemma Pow2Of62()
    ensures Pow2(62) == 0x4000_0000_0000_0000
  {
    Pow2Of63();
    assert Pow2(63) == 2 * Pow2(62);
  }

  /** Doubling on int64 is exact up to 62 times, then gives the least int64, then zero for good. */
  lemma DoublingIsExactUpTo62(cycles: nat)
    ensures Denominator(cycles) == if cycles <= 62 then Pow2(cycles) else if cycles == 63 then -TWO63 else 0
    ensures Denominator(cycles) == Pow2(cycles) <==> cycles <= 62
  {
    if cycles <= 62 {
      Pow2UpTo62(cycles);
    } else {
      Pow2Of63();
      Pow2Adds(63, cycles - 63);
      if cycles > 63 {
        Wraps(Pow2(cycles - 64));
        assert Pow2(cycles - 63) == 2 * Pow2(cycles - 64);
      }
      Pow2Grows(63, cycles);
      hide Pow2;
    }
  }

  lemma Wraps(n: nat)
    ensures Int64(TWO63 * (2 * n)) == 0
  {
    assert TWO63 * (2 * n) + TWO63 == TWO64 * n + TWO63;
  }

  lemma DoubleTwice(x: int)
    ensures Int64(Int64(x) * 2) == Int64(2 * x)
  {
    var k := (x + TWO63) / TWO64;
    assert Int64(x) == x - TWO64 * k;
    assert Int64(x) * 2 == 2 * x - TWO64 * (2 * k);
    WrapsEvenly(2 * x, 2 * k);
  }

  lemma WrapsEvenly(y: int, n: int)
    ensures Int64(y - TWO64 * n) == Int64(y)
  {
    var q := (y + TWO63) / TWO64;
    assert y - TWO64 * n + TWO63 == TWO64 * (q - n) + (y + TWO63) % TWO64;
  }

  /** The loop of inflationMaxForYear, with 64-bit wrap-around at every turn. */
  method DoubleInt64(cycles: nat) returns (denominator: int)
    ensures denominator == Denominator(cycles)
    ensures denominator == Pow2(cycles) <==> cycles <= 62
    ensures denominator == 0 <==> cycles >= 64
  {
    hide Int64;
    DoublingIsExactUpTo62(cycles);
    if cycles <= 62 { Pow2UpTo62(cycles); }
    denominator := 1;
    assert Denominator(0) == 1;
    for i := 0 to cycles
      invariant denominator == Denominator(i)
    {
      DoubleTwice(Pow2(i));
      denominator := Int64(denominator * 2);
    }
  }

  /** In terms of years: exact in year 130 and earlier, and in no later year. */
  lemma DoublingIsExactUntilYear130(year: int)
    requires year > 6
    ensures Denominator((year - 5) / 2) == Pow2((year - 5) / 2) <==> year <= 130
  {
    DoublingIsExactUpTo62((year - 5) / 2);
    hide Int64, Pow2;
  }

  // ----- the scheduled years ------------------------------------------------------------------

  /** The published rates of the first six years, in basis points. */
  const BASIS_POINTS: seq<int> := [3441, 2560, 1038, 940, 461, 441]

  /** In those years the cap is the published rate, and together they are 88.81 percent. */
  lemma ScheduledCaps(q: Rounding, year: int)
    ensures 1 <= year <= 6 ==> CapOf(q, year) == Some(BASIS_POINTS[year - 1] * 100_000_000_000_000)
    ensures year <= 0 ==> CapOf(q, year) == Some(0)
    ensures CapOf(q, 1).value + CapOf(q, 2).value + CapOf(q, 3).value +
            CapOf(q, 4).value + CapOf(q, 5).value + CapOf(q, 6).value == 888_100_000_000_000_000
  {
    hide Denominator;
  }

  // ----- the cap of a year ------------------------------------------------------------------

  /** inflationMaxForYear; None is the panic of a division by zero. */
  function CapOf(q: Rounding, year: int): Option<int> {
    if ScheduledRate(year).Some? then ScheduledRate(year)
    else if year > 6 then
      var d := Denominator((year - 5) / 2);
      if d == 0 then None else Some(q.quo(RATE_6, d))
    else Some(0)
  }

  method InflationMaxForYear(q: Rounding, year: int) returns (cap: Option<int>)
    ensures cap == CapOf(q, year)
  {
    if ScheduledRate(year).Some? {
      return ScheduledRate(year);
    }
    if year > 6 {
      var denominator := DoubleInt64((year - 5) / 2);
      if denominator == 0 {
        return None;
      }
      return Some(q.quo(RATE_6, denominator));
    }
    return Some(0);
  }

  /**
   * From year 7 on the rate of year 6 is halved every second year: up to year 130 the cap is
   * within one unit of RATE_6 / 2^k. The two years after that divide by -2^63 and give no
   * positive cap, and from year 133 on the division by zero panics.
   */
  lemma CapByYear(q: Rounding, year: int)
    requires q.Lawful()
    ensures 7 <= year <= 130 ==>
              CapOf(q, year).Some? && var p := Pow2((year - 5) / 2);
              Abs(CapOf(q, year).value * p - RATE_6) < p
    ensures 1 <= year <= 130 ==> CapOf(q, year).Some? && CapOf(q, year).value >= 0
    ensures 131 <= year <= 132 ==> CapOf(q, year).Some? && -1 <= CapOf(q, year).value <= 0
    ensures CapOf(q, year).None? <==> year >= 133
  {
    if year >= 7 {
      DoublingIsExactUpTo62((year - 5) / 2);
    }
    if 7 <= year <= 132 {
      var k := (year - 5) / 2;
      var d := Denominator(k);
      if k <= 62 { Pow2UpTo62(k); }
      hide Denominator;
      var c := q.quo(RATE_6, d);
      assert CapOf(q, year) == Some(c);
      assert Abs(c * d - RATE_6) < Abs(d);
      if k <= 62 {
        if c <= -1 { MulGrows(c, -1, d); }
      } else {
        assert d == -TWO63;
      }
    }
  }

  /** Where the halved rate has an exact 18-digit value, the cap is that value. */
  lemma CapIsExactWhenRepresentable(q: Rounding, year: int, exact: int)
    requires q.Lawful()
    requires 7 <= year <= 130
    requires exact * Pow2((year - 5) / 2) == RATE_6
    ensures CapOf(q, year) == Some(exact)
  {
    CapByYear(q, year);
    NearMultiple(CapOf(q, year).value, exact, Pow2((year - 5) / 2));
  }

  lemma NearMultiple(c: int, exact: int, p: nat)
    requires Abs(c * p - exact * p) < p
    ensures c == exact
  {
    if c < exact { MulGrows(c + 1, exact, p); }
    if exact < c { MulGrows(exact + 1, c, p); }
  }

  lemma CapNeverRisesNextYear(q: Rounding, year: int)
    requires q.Lawful()
    requires 1 <= year < 130
    ensures CapOf(q, year + 1).Some? && CapOf(q, year).Some?
    ensures CapOf(q, year + 1).value <= CapOf(q, year).value
  {
    CapByYear(q, year);
    CapByYear(q, year + 1);
    if year == 6 {
      assert Pow2(1) == 2;
    } else if year > 6 {
      DoublingIsExactUpTo62((year - 5) / 2);
      DoublingIsExactUpTo62((year + 1 - 5) / 2);
      Pow2Grows((year - 5) / 2, (year + 1 - 5) / 2);
      hide Denominator, Pow2;
    }
  }

  /** The cap never rises from one year to any later one. */
  lemma {:induction false} CapNeverRises(q: Rounding, y: int, z: int)
    requires q.Lawful()
    requires 1 <= y <= z <= 130
    ensures CapOf(q, y).Some? && CapOf(q, z).Some? && CapOf(q, z).value <= CapOf(q, y).value
    decreases z - y
  {
    if y == z {
      CapByYear(q, y);
    } else {
      CapNeverRisesNextYear(q, y);
      CapNeverRises(q, y + 1, z);
    }
  }

  /** The caps of years 7 to `y`, added up. */
  function SumOfCaps(q: Rounding, y: int): int
    decreases y
  {
    if y < 7 then 0
    else SumOfCaps(q, y - 1) + match CapOf(q, y) case Some(c) => c case None => 0
  }

  /** RATE_6 halved `k` times, rounding down. */
  function Halved(k: nat): nat {
    if k == 0 then RATE_6 else Halved(k - 1) / 2
  }

  lemma {:induction false} HalvedBounds(k: nat)
    ensures Halved(k) * Pow2(k) <= RATE_6 < (Halved(k) + 1) * Pow2(k)
    decreases k
  {
    if k > 0 {
      HalvedBounds(k - 1);
      HalfBounds(Halved(k), Halved(k - 1), Pow2(k - 1));
    }
  }

  lemma HalfBounds(g: nat, h: nat, p: nat)
    requires 2 * g <= h <= 2 * g + 1
    requires h * p <= RATE_6 < (h + 1) * p
    ensures g * (2 * p) <= RATE_6 < (g + 1) * (2 * p)
  {
    MulGrows(2 * g, h, p);
    MulGrows(h + 1, 2 * g + 2, p);
    assert g * (2 * p) == (2 * g) * p;
    assert (g + 1) * (2 * p) == (2 * g + 2) * p;
  }

  lemma CapIsAtMostHalved(q: Rounding, year: int)
    requires q.Lawful()
    requires 7 <= year <= 130
    ensures CapOf(q, year).Some? && CapOf(q, year).value <= Halved((year - 5) / 2) + 1
  {
    CapByYear(q, year);
    var k := (year - 5) / 2;
    var p, c, g := Pow2(k), CapOf(q, year).value, Halved(k);
    HalvedBounds(k);
    AtMostOneMore(c, g, p);
  }

  lemma AtMostOneMore(c: int, g: int, p: nat)
    requires c * p < RATE_6 + p && RATE_6 < (g + 1) * p
    ensures c <= g + 1
  {
    if g + 2 <= c { MulGrows(g + 2, c, p); }
  }

  /** What is still left of twice the rate of year 6 after year `y`. */
  lemma {:induction false} SumOfCapsWithRemainder(q: Rounding, y: int)
    requires q.Lawful()
    requires 6 <= y <= 130
    ensures SumOfCaps(q, y) + (if y % 2 == 0 then 2 else 3) * Halved((y - 5) / 2) <= 2 * RATE_6 + (y - 6)
    decreases y
  {
    hide CapOf, Rounding.Lawful;
    if y == 6 {
      assert SumOfCaps(q, 6) == 0 && Halved(0) == RATE_6;
    } else {
      SumOfCapsWithRemainder(q, y - 1);
      CapIsAtMostHalved(q, y);
      var k := (y - 5) / 2;
      if y % 2 == 1 {
        assert (y - 1 - 5) / 2 == k - 1;
        assert 2 * Halved(k) <= Halved(k - 1);
      } else {
        assert (y - 1 - 5) / 2 == k;
      }
    }
  }

  /** All caps after year 6 together stay within 0.0882 and one unit per year. */
  lemma SumOfCapsIsBounded(q: Rounding, y: int)
    requires q.Lawful()
    requires 7 <= y <= 130
    ensures SumOfCaps(q, y) <= 88_200_000_000_000_000 + (y - 6)
  {
    SumOfCapsWithRemainder(q, y);
  }

  // ----- the controller --------------------------------------------------------------------------

  /** The mint module's state as far as the controller and the mint step touch it. */
  datatype Mint = Mint(max: int, min: int, blocksPerYear: nat, inflation: int)

  datatype Outcome = Done | ZeroBlocksPerYear | Panicked

  /** BeginBlock at `height` */
  function Begin(q: Rounding, m: Mint, height: int): (r: (Outcome, Mint)) {
    if m.blocksPerYear == 0 then (ZeroBlocksPerYear, m)
    else
      match CapOf(q, Year(height, Int64(m.blocksPerYear)))
      case None => (Panicked, m)
      case Some(cap) =>
        if m.max == cap then (Done, m)
        else (Done, m.(max := cap, min := 0, inflation := if m.inflation > cap then cap else m.inflation))
  }

  /** The keeper whose params and minter BeginBlock rewrites. */
  class MintKeeper {
    var max: int
    var min: int
    var blocksPerYear: nat
    var inflation: int

    ghost function State(): Mint
      reads this
    {
      Mint(max, min, blocksPerYear, inflation)
    }

    constructor (m: Mint)
      ensures State() == m
    {
      max, min, blocksPerYear, inflation := m.max, m.min, m.blocksPerYear, m.inflation;
    }

    method BeginBlock(q: Rounding, height: int) returns (r: Outcome)
      modifies this
      ensures (r, State()) == Begin(q, old(State()), height)
      ensures inflation <= old(inflation)
    {
      if blocksPerYear == 0 {
        return ZeroBlocksPerYear;
      }
      var year := Year(height, Int64(blocksPerYear));
      var target := InflationMaxForYear(q, year);
      if target.None? {
        return Panicked;
      }
      if max != target.value {
        max := target.value;
        min := 0;
        if inflation > target.value {
          inflation := target.value;
        }
      }
      r := Done;
    }
  }

  /** The mint module's own step: a new inflation rate between min and max, nothing else. */
  predicate MintStep(m: Mint, n: Mint) {
    n == m.(inflation := n.inflation) && m.min <= n.inflation <= m.max
  }

  /** One block: the state after the controller and the state after the mint step. */
  datatype Block = Block(begun: Mint, minted: Mint)

  /** What the controller finds at block `i`. */
  function Before(start: Mint, blocks: seq<Block>, i: nat): Mint
    requires i <= |blocks|
  {
    if i == 0 then start else blocks[i - 1].minted
  }

  ghost predicate IsRun(q: Rounding, start: Mint, first: int, blocks: seq<Block>) {
    forall i {:trigger blocks[i]} :: 0 <= i < |blocks| ==>
      blocks[i].begun == Begin(q, Before(start, blocks, i), first + i).1 && MintStep(blocks[i].begun, blocks[i].minted)
  }

  predicate Sound(m: Mint) {
    0 <= m.min <= m.max && m.inflation <= m.max
  }

  /** Where the schedule is meant to be used: heights whose year is at most 130. */
  predicate InDomain(m: Mint, height: int) {
    1 <= height < TWO63 && 0 < m.blocksPerYear < TWO64 && Year(height, Int64(m.blocksPerYear)) <= 130
  }

  lemma YearIsPositive(h: int, b: int)
    requires h >= 1
    ensures Year(h, b) >= 1
  {
  }

  lemma BeginKeepsSound(q: Rounding, m: Mint, height: int)
    requires q.Lawful()
    requires Sound(m) && InDomain(m, height)
    ensures var (r, n) := Begin(q, m, height);
            && r == Done
            && Sound(n) && n.blocksPerYear == m.blocksPerYear
            && Some(n.max) == CapOf(q, Year(height, Int64(m.blocksPerYear)))
  {
    var year := Year(height, Int64(m.blocksPerYear));
    YearIsPositive(height, Int64(m.blocksPerYear));
    CapByYear(q, year);
  }

  /**
   * What one BeginBlock does to each number, whatever the state and the height. Inflation is never
   * raised: it is cut to the cap if the cap is new and it lies above, and left alone otherwise. The
   * minimum goes to zero exactly when the cap is new and is left alone otherwise.
   */
  lemma ControllerOnlyLowers(q: Rounding, m: Mint, height: int)
    ensures var n, cap := Begin(q, m, height).1, CapOf(q, Year(height, Int64(m.blocksPerYear)));
            && n.inflation <= m.inflation && n.blocksPerYear == m.blocksPerYear
            && (m.blocksPerYear == 0 || cap.None? || cap == Some(m.max) ==> n == m)
            && (m.blocksPerYear != 0 && cap.Some? ==> n.max == cap.value)
            && (m.blocksPerYear != 0 && cap.Some? && m.max != cap.value ==> n.min == 0)
            && (m.blocksPerYear != 0 && cap.Some? && m.inflation <= cap.value ==> n.inflation == m.inflation)
            && (m.blocksPerYear != 0 && cap.Some? && m.max != cap.value && m.inflation > cap.value ==>
                 n.inflation == cap.value)
  {
    hide CapOf, Year, Int64;
  }

  /** In no run of blocks, within the schedule's years or beyond, does the controller raise inflation. */
  lemma NeverRaisedInAnyBlock(q: Rounding, start: Mint, first: int, blocks: seq<Block>, i: nat)
    requires IsRun(q, start, first, blocks) && i < |blocks|
    ensures blocks[i].begun.inflation <= Before(start, blocks, i).inflation
  {
    ControllerOnlyLowers(q, Before(start, blocks, i), first + i);
    hide Begin;
    assert MintStep(blocks[i].begun, blocks[i].minted);
  }

  /** The cap in force at block `i` of a run. */
  function CapAt(q: Rounding, start: Mint, first: int, i: nat): Option<int> {
    CapOf(q, Year(first + i, Int64(start.blocksPerYear)))
  }

  /**
   * Over any run within the schedule's years: at every block inflation becomes the lesser of what
   * it was and the cap, and the minimum is the initial one until the cap first differs from the
   * initial maximum, and zero from then on.
   */
  lemma {:induction false} ClipInEveryBlock(q: Rounding, start: Mint, first: int, blocks: seq<Block>, i: nat)
    requires q.Lawful()
    requires IsRun(q, start, first, blocks)
    requires i < |blocks|
    requires Sound(start)
    requires 1 <= first && InDomain(start, first + |blocks| - 1)
    ensures var was, cap := Before(start, blocks, i).inflation, CapAt(q, start, first, i);
            cap.Some? && blocks[i].begun.inflation == if was <= cap.value then was else cap.value
    ensures blocks[i].minted.min == blocks[i].begun.min ==
            if forall j: nat :: j <= i ==> CapAt(q, start, first, j) == Some(start.max) then start.min else 0
    decreases i
  {
    hide CapOf, Int64, Begin, Rounding.Lawful, Year;
    CapHoldsInEveryBlock(q, start, first, blocks, i);
    ControllerOnlyLowers(q, Before(start, blocks, i), first + i);
    assert MintStep(blocks[i].begun, blocks[i].minted);
    if i > 0 {
      CapHoldsInEveryBlock(q, start, first, blocks, i - 1);
      ClipInEveryBlock(q, start, first, blocks, i - 1);
      CapChangesOnce(q, start, first, i);
    }
  }

  /** Reading "every block so far" one block at a time. */
  lemma CapChangesOnce(q: Rounding, start: Mint, first: int, i: nat)
    requires i > 0
    ensures (forall j: nat :: j <= i ==> CapAt(q, start, first, j) == Some(start.max)) <==>
            (forall j: nat :: j <= i - 1 ==> CapAt(q, start, first, j) == Some(start.max)) &&
            CapAt(q, start, first, i) == Some(start.max)
  {
    hide CapAt;
  }

  /**
   * Over any run of blocks: after every BeginBlock the maximum is the scheduled cap of that
   * block's year, min <= max, and neither the controller nor the mint step leaves inflation
   * above the cap.
   */
  lemma {:induction false} CapHoldsInEveryBlock(q: Rounding, start: Mint, first: int, blocks: seq<Block>, i: nat)
    requires q.Lawful()
    requires IsRun(q, start, first, blocks)
    requires i < |blocks|
    requires Sound(start)
    requires 1 <= first && InDomain(start, first + |blocks| - 1)
    ensures var cap := CapOf(q, Year(first + i, Int64(start.blocksPerYear)));
            && Begin(q, Before(start, blocks, i), first + i).0 == Done
            && cap == Some(blocks[i].begun.max) && cap == Some(blocks[i].minted.max)
            && blocks[i].begun.min <= blocks[i].begun.max
            && blocks[i].begun.inflation <= cap.value && blocks[i].minted.inflation <= cap.value
    ensures Sound(blocks[i].minted) && blocks[i].minted.blocksPerYear == start.blocksPerYear
    decreases i
  {
    hide CapOf, Int64, Begin, Rounding.Lawful;
    assert MintStep(blocks[i].begun, blocks[i].minted);
    if i > 0 {
      CapHoldsInEveryBlock(q, start, first, blocks, i - 1);
    }
    YearsNeverGoBack(first + i, first + |blocks| - 1, start.blocksPerYear);
    BeginKeepsSound(q, Before(start, blocks, i), first + i);
  }

  /** A second run at the same height changes nothing, before or after a mint step. */
  lemma BeginTwiceIsBeginOnce(q: Rounding, m: Mint, minted: Mint, height: int)
    requires minted == Begin(q, m, height).1 || MintStep(Begin(q, m, height).1, minted)
    ensures Begin(q, minted, height) == (Begin(q, m, height).0, minted)
  {
  }

  /** BeginBlock succeeds exactly when blocks_per_year is set and the year is below 133. */
  lemma BeginSucceedsBelowYear133(q: Rounding, m: Mint, height: int)
    requires q.Lawful()
    ensures Begin(q, m, height).0 == Done <==>
            m.blocksPerYear != 0 && Year(height, Int64(m.blocksPerYear)) < 133
    ensures Begin(q, m, height).0 != Done ==> Begin(q, m, height).1 == m
    ensures Begin(q, m, height).0 == ZeroBlocksPerYear <==> m.blocksPerYear == 0
  {
    CapByYear(q, Year(height, Int64(m.blocksPerYear)));
  }
}
