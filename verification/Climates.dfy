/** Times of year, moisture and cold, core/src/climate.rs. */
module Climates {
  import opened Arithmetic
  import opened Choices
  import opened WorldState

  const OFFSET: int := 1_000_000

  function YearTicks(rules: Ruleset): nat {
    rules.climate.epochsPerYear * rules.ticksPerEpoch
  }

  /** A quarter of a year lasts at least a tick. */
  lemma QuarterPositive(rules: Ruleset)
    requires Validated(rules)
    ensures YearTicks(rules) / 4 > 0 && YearTicks(rules) == 4 * (YearTicks(rules) / 4)
  {
    var q := rules.climate.epochsPerYear / 4;
    assert rules.climate.epochsPerYear == 4 * q;
    assert YearTicks(rules) == 4 * (q * rules.ticksPerEpoch) by {
      assert (4 * q) * rules.ticksPerEpoch == 4 * (q * rules.ticksPerEpoch);
    }
    MulMonotone(1, q, rules.ticksPerEpoch);
  }

  /** The time of year, 0 for spring to 3 for winter. */
  function Season(rules: Ruleset, globalTick: nat): nat
    requires Validated(rules)
  {
    QuarterPositive(rules);
    (globalTick % YearTicks(rules)) / (YearTicks(rules) / 4)
  }

  /** A value that follows the times of year, linear between their midpoints. */
  function Seasonal(rules: Ruleset, values: seq<int>, globalTick: nat): int
    requires Validated(rules) && |values| == 4
  {
    QuarterPositive(rules);
    var year, len := YearTicks(rules), YearTicks(rules) / 4;
    var u := (globalTick % year + year - len / 2) % year;
    var from := (u / len) % 4;
    var f := u % len;
    var a, b := values[from] + OFFSET, values[(from + 1) % 4] + OFFSET;
    Quot(a * (len - f) + b * f, len) - OFFSET
  }

  function GrowthPct(rules: Ruleset, b: Biome, globalTick: nat): nat
    requires Validated(rules)
  {
    Max(Seasonal(rules, rules.climate.seasonMult[BiomeCode(b)], globalTick), 0)
  }

  function TargetMoisture(rules: Ruleset, b: Biome, globalTick: nat): (t: nat)
    requires Validated(rules)
    ensures t <= 100
  {
    Clamp(rules.climate.moistureBase[BiomeCode(b)]
      + Seasonal(rules, rules.climate.seasonMoistureDelta, globalTick), 0, 100)
  }

  /** The extra energy cost of cold in a row: full in the middle of winter at the northern edge. */
  function ColdPct(rules: Ruleset, row: nat, globalTick: nat): nat
    requires Validated(rules)
  {
    var winter: nat := Max(Seasonal(rules, [0, 0, 0, 100], globalTick), 0);
    var lastRow := Max(rules.size.h - 1, 1);
    Portion(rules.climate.coldWinterPct * winter, lastRow - Clamp(row, 0, lastRow), 100 * lastRow)
  }

  /** a * b / c, rounded down. */
  function Portion(a: nat, b: nat, c: nat): nat
    requires c > 0
  {
    (a * b) / c
  }

  function MoisturePct(rules: Ruleset, moisture: nat): nat
    requires Validated(rules)
  {
    var lo, hi := rules.climate.moistureMultMinPct, rules.climate.moistureMultMaxPct;
    lo + (hi - lo) * (if moisture < 100 then moisture else 100) / 100
  }

  // ---- What the climate promises ----

  /** Tick t lies f ticks after the start of quarter k of some year. */
  ghost predicate InQuarter(year: nat, t: int, k: nat, f: nat) {
    k < 4 && f < year / 4 && exists n: int :: t == Tick(year, n, k, f)
  }

  function Tick(year: nat, n: int, k: nat, f: nat): int {
    n * year + k * (year / 4) + f
  }

  lemma QuarterOf(year: nat, t: nat, k: nat, f: nat)
    requires year == 4 * (year / 4) && year > 0 && InQuarter(year, t, k, f)
    ensures t % year == k * (year / 4) + f && (t % year) / (year / 4) == k && (t % year) % (year / 4) == f
  {
    var len := year / 4;
    var n :| t == Tick(year, n, k, f);
    MulMonotone(k, 3, len);
    DivModUnique(t, year, n, k * len + f);
    DivModUnique(k * len + f, len, k, f);
  }

  /** Every tick has its place in the year. */
  lemma EveryTickHasAQuarter(rules: Ruleset, t: nat) returns (k: nat, f: nat)
    requires Validated(rules)
    ensures InQuarter(YearTicks(rules), t, k, f)
  {
    QuarterPositive(rules);
    var year, len := YearTicks(rules), YearTicks(rules) / 4;
    var rest := t % year;
    k, f := rest / len, rest % len;
    assert t == (t / year) * year + rest && rest == k * len + f;
    if k >= 4 {
      MulMonotone(4, k, len);
    }
    assert t == Tick(year, t / year, k, f);
  }

  /** Spring, summer, autumn and winter last a quarter of the year each, in that order, year after year. */
  lemma SeasonsTakeTurns(rules: Ruleset, t: nat, k: nat, f: nat)
    requires Validated(rules) && InQuarter(YearTicks(rules), t, k, f)
    ensures Season(rules, t) == k
  {
    QuarterPositive(rules);
    QuarterOf(YearTicks(rules), t, k, f);
  }

  /** The tick is f ticks past the middle of quarter k. */
  ghost predicate PastMiddle(rules: Ruleset, t: nat, k: nat, f: nat) {
    InQuarter(YearTicks(rules), t - YearTicks(rules) / 4 / 2, k, f)
  }

  /** Every tick is past the middle of one quarter and not yet past that of the next. */
  lemma EveryTickIsPastAMiddle(rules: Ruleset, t: nat) returns (k: nat, f: nat)
    requires Validated(rules)
    ensures PastMiddle(rules, t, k, f)
  {
    QuarterPositive(rules);
    var year := YearTicks(rules);
    k, f := EveryTickHasAQuarter(rules, t + year - year / 4 / 2);
    var n :| t + year - year / 4 / 2 == Tick(year, n, k, f);
    assert t - year / 4 / 2 == Tick(year, n - 1, k, f);
  }

  /** From the middle of one quarter to that of the next, values run along the straight line between theirs, rounded down. */
  lemma SeasonalIsLinear(rules: Ruleset, values: seq<int>, t: nat, k: nat, f: nat)
    requires Validated(rules) && |values| == 4 && PastMiddle(rules, t, k, f)
    requires forall i :: 0 <= i < 4 ==> values[i] >= -OFFSET
    ensures var len := YearTicks(rules) / 4;
      RoundsDown(Seasonal(rules, values, t), values[k] * (len - f) + values[(k + 1) % 4] * f, len)
  {
    QuarterPositive(rules);
    var year, len := YearTicks(rules), YearTicks(rules) / 4;
    MiddleOf(year, t, k, f);
    var a, b := values[k] + OFFSET, values[(k + 1) % 4] + OFFSET;
    MulMonotone(0, a, len - f);
    MulMonotone(0, b, f);
    QuotRoundsDown(a * (len - f) + b * f, len);
    OffsetCancels(Quot(a * (len - f) + b * f, len), values[k], values[(k + 1) % 4], len, f);
  }

  lemma MiddleOf(year: nat, t: nat, k: nat, f: nat)
    requires year == 4 * (year / 4) && year > 0 && InQuarter(year, t - year / 4 / 2, k, f)
    ensures var len := year / 4; var u := (t % year + year - len / 2) % year;
      (u / len) % 4 == k && u % len == f
  {
    var n :| t - year / 4 / 2 == Tick(year, n, k, f);
    var late := t % year + year - year / 4 / 2;
    assert t == (t / year) * year + t % year;
    MorePeriods(n, t / year, year);
    assert late == Tick(year, n - t / year + 1, k, f);
    QuarterOf(year, late, k, f);
  }

  lemma MorePeriods(n: int, q: int, year: nat)
    ensures (n - q + 1) * year == n * year - q * year + year
  {
  }

  lemma OffsetCancels(q: int, a: int, b: int, len: nat, f: nat)
    requires f < len && RoundsDown(q, (a + OFFSET) * (len - f) + (b + OFFSET) * f, len)
    ensures RoundsDown(q - OFFSET, a * (len - f) + b * f, len)
  {
    assert (a + OFFSET) * (len - f) + (b + OFFSET) * f == a * (len - f) + b * f + OFFSET * len;
  }

  /** In the middle of a quarter its own value holds. */
  lemma MiddleTakesItsValue(rules: Ruleset, values: seq<int>, t: nat, k: nat)
    requires Validated(rules) && |values| == 4 && PastMiddle(rules, t, k, 0)
    requires forall i :: 0 <= i < 4 ==> values[i] >= -OFFSET
    ensures Seasonal(rules, values, t) == values[k]
  {
    SeasonalIsLinear(rules, values, t, k, 0);
    SameFloor(Seasonal(rules, values, t), values[k], YearTicks(rules) / 4);
  }

  /** No steps: values that differ by no more than a quarter has ticks change by at most one a tick. */
  lemma NoSteps(rules: Ruleset, values: seq<int>, t: nat)
    requires Validated(rules) && |values| == 4 && forall i :: 0 <= i < 4 ==> values[i] >= -OFFSET
    requires forall i, j :: 0 <= i < 4 && 0 <= j < 4 ==> values[i] - values[j] <= YearTicks(rules) / 4
    ensures -1 <= Seasonal(rules, values, t + 1) - Seasonal(rules, values, t) <= 1
  {
    QuarterPositive(rules);
    var len := YearTicks(rules) / 4;
    var k, f := EveryTickIsPastAMiddle(rules, t);
    var a, b := values[k], values[(k + 1) % 4];
    SeasonalIsLinear(rules, values, t, k, f);
    NextTick(rules, t, k, f);
    if f + 1 < len {
      SeasonalIsLinear(rules, values, t + 1, k, f + 1);
      OneOn(a, b, len, f);
    } else {
      SeasonalIsLinear(rules, values, t + 1, (k + 1) % 4, 0);
      OneOn(a, b, len, f);
    }
    AtMostOne(Seasonal(rules, values, t), Seasonal(rules, values, t + 1), a * (len - f) + b * f, b - a, len);
  }

  lemma NextTick(rules: Ruleset, t: nat, k: nat, f: nat)
    requires Validated(rules) && PastMiddle(rules, t, k, f)
    ensures if f + 1 < YearTicks(rules) / 4 then PastMiddle(rules, t + 1, k, f + 1) else PastMiddle(rules, t + 1, (k + 1) % 4, 0)
  {
    QuarterPositive(rules);
    NextInQuarter(YearTicks(rules), t - YearTicks(rules) / 4 / 2, k, f);
  }

  lemma NextInQuarter(year: nat, t: int, k: nat, f: nat)
    requires year == 4 * (year / 4) && InQuarter(year, t, k, f)
    ensures if f + 1 < year / 4 then InQuarter(year, t + 1, k, f + 1) else InQuarter(year, t + 1, (k + 1) % 4, 0)
  {
    var n :| t == Tick(year, n, k, f);
    OneTickOn(year, n, k, f);
    hide Tick;
    if f + 1 == year / 4 && k == 3 {
      assert t + 1 == Tick(year, n + 1, 0, 0);
    }
  }

  lemma OneTickOn(year: nat, n: int, k: nat, f: nat)
    requires k < 4 && f < year / 4 && year == 4 * (year / 4)
    ensures Tick(year, n, k, f) + 1 == Tick(year, n, k, f + 1)
    ensures f + 1 == year / 4 ==> Tick(year, n, k, f) + 1 == if k < 3 then Tick(year, n, k + 1, 0) else Tick(year, n + 1, 0, 0)
  {
    assert (k + 1) * (year / 4) == k * (year / 4) + year / 4;
    assert (n + 1) * year == n * year + year;
  }

  lemma OneOn(a: int, b: int, len: nat, f: nat)
    requires f < len
    ensures a * (len - (f + 1)) + b * (f + 1) == a * (len - f) + b * f + (b - a)
    ensures f + 1 == len ==> b * len == a * (len - f) + b * f + (b - a)
  {
  }

  lemma AtMostOne(s: int, s': int, line: int, rise: int, len: nat)
    requires RoundsDown(s, line, len) && RoundsDown(s', line + rise, len) && rise <= len && -rise <= len
    ensures -1 <= s' - s <= 1
  {
    if s' > s + 1 {
      MulMonotone(s + 2, s', len);
    }
    if s' < s - 1 {
      MulMonotone(s', s - 2, len);
    }
  }

  /** Growth is the value of the time of year, and nothing grows where that is negative. */
  lemma GrowthFollows(rules: Ruleset, b: Biome, t: nat)
    requires Validated(rules)
    ensures var v := Seasonal(rules, rules.climate.seasonMult[BiomeCode(b)], t);
      GrowthPct(rules, b, t) >= v && (GrowthPct(rules, b, t) > 0 ==> GrowthPct(rules, b, t) == v)
  {
    hide Seasonal;
  }

  /** The cold of a row: the winter's share times the rows left to the southern edge, in parts of all rows. */
  lemma ColdIsLinear(rules: Ruleset, row: nat, t: nat)
    requires Validated(rules) && row < rules.size.h && rules.size.h >= 2
    ensures var winter := Seasonal(rules, [0, 0, 0, 100], t); var rows := rules.size.h - 1;
      winter >= 0 ==> RoundsDown(ColdPct(rules, row, t), rules.climate.coldWinterPct * winter * (rows - row), 100 * rows)
  {
    hide Seasonal;
  }

  /** Full cold in the middle of winter at the northern edge, none at the southern edge, and none at the height of spring,
      summer and autumn. */
  lemma ColdBitesInTheNorth(rules: Ruleset, t: nat, k: nat, row: nat)
    requires Validated(rules) && PastMiddle(rules, t, k, 0) && row < rules.size.h && rules.size.h >= 2
    ensures k == 3 ==> ColdPct(rules, 0, t) == rules.climate.coldWinterPct
    ensures k != 3 ==> ColdPct(rules, row, t) == 0
    ensures ColdPct(rules, rules.size.h - 1, t) == 0
  {
    MiddleTakesItsValue(rules, [0, 0, 0, 100], t, k);
    hide Seasonal, Validated, PastMiddle, ColdPct, RoundsDown;
    ColdIsLinear(rules, 0, t);
    ColdIsLinear(rules, row, t);
    ColdIsLinear(rules, rules.size.h - 1, t);
    var rows, cold := rules.size.h - 1, rules.climate.coldWinterPct;
    assert cold * 100 * (rows - 0) == cold * (100 * rows);
    assert cold * (if k == 3 then 100 else 0) * 0 == 0 * (100 * rows);
    assert cold * 0 * (rows - row) == 0 * (100 * rows);
    if k == 3 {
      SameFloor(ColdPct(rules, 0, t), cold, 100 * rows);
    } else {
      SameFloor(ColdPct(rules, row, t), 0, 100 * rows);
    }
    SameFloor(ColdPct(rules, rows, t), 0, 100 * rows);
  }

  /** Growth by moisture: linear from the least at 0 to the most at 100, rounded down. */
  lemma MoistureIsLinear(rules: Ruleset, moisture: nat)
    requires Validated(rules) && moisture <= 100
    ensures var lo, hi := rules.climate.moistureMultMinPct, rules.climate.moistureMultMaxPct;
      && RoundsDown(MoisturePct(rules, moisture) - lo, (hi - lo) * moisture, 100)
      && MoisturePct(rules, 0) == lo && MoisturePct(rules, 100) == hi
  {
  }
}
